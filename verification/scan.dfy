// registry/scan.go: the 07 04 identification scan against an arbitrary bus.
module Scan {
  import opened Numerals
  import opened Identity
  import opened RegistryState
  import opened RegistryInvariant
  import opened RegistrySteps
  import opened RegistryAliasSteps
  import opened RegistrySlots
  import opened RegistryGroups
  import opened RegistryTheorems
  import opened RegistryIndexRuns
  import opened RegistryDecisions
  import opened RegistryMembers
  import opened RegistrySlotLaws
  import D = DeviceRegistry

  datatype SendError =
    | BusCollision | Timeout | DeadlineExceeded | CRCMismatch | NoSuchDevice | NACK | ResponsePayload | OtherError

  predicate ShouldRetry(err: SendError) { err in {Timeout, DeadlineExceeded, CRCMismatch, ResponsePayload} }
  predicate ShouldSkip(err: SendError) { ShouldRetry(err) || err in {NoSuchDevice, NACK} }

  /** What the n-th identification probe meets: any value at all. */
  datatype Reply =
    | Cancelled
    | Failed(error: SendError)
    | Nothing
    | Frame(source: Addr, target: Addr, primary: Addr, secondary: Addr, parsed: Option<DeviceInfo>)

  datatype SerialReply = SerialCancelled | NoSerial | Serial(value: string)

  /** The world around a scan: bus, parser, serial reads and clock, all arbitrary. */
  datatype World = World(
    probeable: Addr -> bool,            // FrameTypeForTarget is known
    reply: nat -> Reply, serial: nat -> SerialReply, clock: nat -> Time)

  const PRIMARY: Addr := 0x07
  const SECONDARY: Addr := 0x04
  const MAX_PASSES := 3

  // ---- initiator-capable addresses --------------------------------------------------

  function InitiatorPartIndex(nibble: nat): nat
  {
    match nibble
    case 0x0 => 1
    case 0x1 => 2
    case 0x3 => 3
    case 0x7 => 4
    case 0xF => 5
    case _ => 0
  }

  predicate InitiatorCapable(a: Addr)
  {
    InitiatorPartIndex(a % 16) > 0 && InitiatorPartIndex(a / 16) > 0
  }

  // The addresses of bus masters.
  const INITIATORS: set<int> :=
    {0x00, 0x01, 0x03, 0x07, 0x0F, 0x10, 0x11, 0x13, 0x17, 0x1F, 0x30, 0x31, 0x33, 0x37, 0x3F,
     0x70, 0x71, 0x73, 0x77, 0x7F, 0xF0, 0xF1, 0xF3, 0xF7, 0xFF}

  lemma InitiatorNibble(n: nat)
    requires n < 16
    ensures InitiatorPartIndex(n) > 0 <==> n in {0, 1, 3, 7, 15}
  {}

  /** The nibble tests accept exactly the 25 bus masters. */
  lemma InitiatorsAre(a: Addr)
    ensures InitiatorCapable(a) <==> a as int in INITIATORS
  {
    InitiatorNibble(a % 16);
    InitiatorNibble(a / 16);
    hide InitiatorPartIndex;
    assert a == 16 * (a / 16) + a % 16;
  }

  predicate Eligible(world: World, a: Addr) { world.probeable(a) && !InitiatorCapable(a) }

  function DefaultTargets(): seq<Addr>
  {
    seq(0xFD, i requires 0 <= i < 0xFD => i + 1)
  }

  /** What a scan is asked for: the given targets, or by default every address from 0x01 to 0xFD. */
  predicate Wanted(targets: seq<Addr>, a: Addr)
  {
    if targets == [] then 0x01 <= a <= 0xFD else a in targets
  }

  /** What a scan may probe: a wanted, probeable address that is no bus master. */
  predicate Probeworthy(world: World, targets: seq<Addr>, a: Addr)
  {
    Wanted(targets, a) && world.probeable(a) && a as int !in INITIATORS
  }

  lemma WantedAre(world: World, targets: seq<Addr>, a: Addr)
    ensures var wanted := if targets == [] then DefaultTargets() else targets;
      (a in wanted <==> Wanted(targets, a)) && (a in wanted && Eligible(world, a) <==> Probeworthy(world, targets, a))
  {
    InitiatorsAre(a);
    hide InitiatorCapable;
    if targets == [] && 0x01 <= a <= 0xFD { assert DefaultTargets()[a - 1] == a; }
  }

  predicate Directed(source: Addr, reply: Reply)
  {
    reply.Frame? && reply.source != 0 && reply.target == source &&
    reply.primary == PRIMARY && reply.secondary == SECONDARY
  }

  /** Each target once, at its first place. */
  method Dedupe(targets: seq<Addr>) returns (out: seq<Addr>)
    ensures out == IncludingAll([], targets)
    ensures Distinct(out) && forall a :: a in out <==> a in targets
  {
    out := [];
    for i := 0 to |targets|
      invariant out == IncludingAll([], targets[..i])
    {
      assert targets[..i + 1][..i] == targets[..i];
      if targets[i] !in out {
        out := out + [targets[i]];
      }
    }
    assert targets[..|targets|] == targets;
    IncludingAllMembers([], targets);
  }

  // ---- rounds of probes -------------------------------------------------------------------

  ghost predicate AtMost(probes: seq<Addr>, n: nat)
  {
    forall a: Addr :: multiset(probes)[a] <= n
  }

  /** The targets of a round that are probed, in order. */
  function Worth(world: World, pending: seq<Addr>): seq<Addr>
  {
    if pending == [] then []
    else
      var n := |pending| - 1;
      Worth(world, pending[..n]) + if Eligible(world, pending[n]) then [pending[n]] else []
  }

  lemma {:induction false} WorthMembers(world: World, pending: seq<Addr>)
    requires Distinct(pending)
    ensures Distinct(Worth(world, pending)) && forall a :: a in Worth(world, pending) <==> a in pending && Eligible(world, a)
  {
    hide Eligible;
    if pending != [] {
      var n := |pending| - 1;
      WorthMembers(world, pending[..n]);
      assert forall a :: a in pending <==> a in pending[..n] || a == pending[n];
    }
  }

  lemma {:induction false} AllWorth(world: World, pending: seq<Addr>)
    requires forall a :: a in pending ==> Eligible(world, a)
    ensures Worth(world, pending) == pending
  {
    hide Eligible;
    if pending != [] { AllWorth(world, pending[..|pending| - 1]); }
  }

  lemma {:induction false} CountOf(xs: seq<Addr>, a: Addr)
    requires Distinct(xs)
    ensures multiset(xs)[a] == if a in xs then 1 else 0
  {
    if xs != [] {
      var n := |xs| - 1;
      CountOf(xs[..n], a);
      assert xs == xs[..n] + [xs[n]];
    }
  }

  lemma WorthNext(world: World, pending: seq<Addr>, i: nat)
    requires i < |pending|
    ensures Worth(world, pending[..i + 1]) ==
            if Eligible(world, pending[i]) then Worth(world, pending[..i]) + [pending[i]] else Worth(world, pending[..i])
  {
    hide Eligible;
    assert pending[..i + 1][..i] == pending[..i];
  }

  // A round probes each of its targets once more.
  lemma RoundCounts(world: World, probes: seq<Addr>, pending: seq<Addr>, a: Addr)
    requires Distinct(pending)
    ensures multiset(probes + Worth(world, pending))[a] ==
            multiset(probes)[a] + if a in pending && Eligible(world, a) then 1 else 0
  {
    hide Eligible, Worth;
    WorthMembers(world, pending);
    CountOf(Worth(world, pending), a);
  }

  lemma RoundWithin(world: World, probes: seq<Addr>, pending: seq<Addr>, n: nat)
    requires Distinct(pending) && AtMost(probes, n)
    ensures AtMost(probes + Worth(world, pending), n + 1)
  {
    hide Eligible, Worth;
    forall a: Addr ensures multiset(probes + Worth(world, pending))[a] <= n + 1 { RoundCounts(world, probes, pending, a); }
  }

  function DisplayAddress(d: DeviceEntry): Addr
  {
    if d.primary != 0 then d.primary else d.info.address
  }

  // ---- registering one answer -------------------------------------------------------------

  /** What a valid answer does to the registry: its source is registered, a differently addressed target is
      registered and aliased to it, and the source is confirmed. */
  ghost function Accepting(env: Protocol, s: Registry, info: DeviceInfo, target: Addr, now: Time): Registry
  {
    var t := Register(env, s, info, now);
    var u := if info.address == target then t
             else AliasAddresses(env, Register(env, t, info.(address := target), now), info.address, target);
    ConfirmScan(u, info.address, now)
  }

  method Accept(registry: D.DeviceRegistry, info: DeviceInfo, target: Addr, now: Time) returns (entry: EntryId)
    requires registry.Valid()
    modifies registry
    ensures registry.Valid()
    ensures old(registry.entries.Keys) + {info.address, target} <= registry.entries.Keys
    ensures registry.Model() == Accepting(registry.env, old(registry.Model()), info, target, now)
    ensures entry == registry.entries[info.address]
  {
    hide WellFormed, Register, AliasAddresses, ConfirmScan;
    ghost var s := registry.Model();
    KeepsResolving(registry.env, s, Observe(info, now));
    entry := registry.Register(info, now);
    if info.address != target {
      var alias := info.(address := target);
      KeepsResolving(registry.env, registry.Model(), Observe(alias, now));
      var _ := registry.Register(alias, now);
      KeepsResolving(registry.env, registry.Model(), Alias(info.address, target));
      registry.AliasAddresses(info.address, target);
    }
    registry.ConfirmScanIdentity(info.address, now);
    entry := registry.entries[info.address];
  }

  lemma ResolvesObserved(env: Protocol, s: Registry, info: DeviceInfo, now: Time)
    requires WellFormed(env, s)
    ensures info.address in Register(env, s, info, now).entries
  {
    hide WellFormed, Register, Decide, Regrouped;
    ObserveIsRegister(env, s, info, now);
    if Decide(s, info).retained {
      RetainedStep(env, s, Observe(info, now));
      ContradictionsChangeNothing(env, s, Observe(info, now));
    } else {
      ObservationGroups(env, s, Observe(info, now));
      RegroupedResolves(s, info);
    }
  }

  lemma AliasJoins(env: Protocol, s: Registry, a: Addr, b: Addr)
    requires WellFormed(env, s) && a in s.entries && a != b
    ensures var t := AliasAddresses(env, s, a, b);
      a in t.entries && b in t.entries && t.entries[a] == t.entries[b] && b in Edges(t.topology, a)
  {
    AliasEntries(env, s, a, b);
    AliasFrame(env, s, a, b);
    hide WellFormed, AliasAddresses, AliasGroups;
  }

  lemma ReachesItself(s: Registry, a: Addr)
    requires a in s.entries
    ensures Reaches(s, s.entries[a], a, a)
  {
    assert Chain(s, s.entries[a], [a]);
  }

  lemma ConfirmedSlot(s: Registry, a: Addr, now: Time)
    requires a in s.entries
    ensures var t := ConfirmScan(s, a, now);
      a in t.table && t.table[a].verification == CONFIRMED && t.table[a].last == now
  {
    hide FacesOf, Reaches;
    var s1 := WithSlot(s, a, StampSlot(SlotAt(s.table, a).(device := Some(s.entries[a])), Observed(CONFIRMED, now)));
    ReachesItself(s1, a);
    assert ConfirmTopology(s1, a, s.entries[a]).table[a] == s1.table[a].(verification := CONFIRMED);
  }

  lemma ConfirmedThere(env: Protocol, s: Registry, a: Addr, now: Time)
    requires WellFormed(env, s) && a in s.entries
    ensures var t := ConfirmScan(s, a, now);
      WellFormed(env, t) && t.entries == s.entries && t.topology == s.topology &&
      a in t.table && t.table[a].verification == CONFIRMED && t.table[a].last == now
  {
    ConfirmScanKeeps(env, s, a, now);
    ConfirmScanAuthority(env, s, a, now);
    hide WellFormed;
    ConfirmedSlot(s, a, now);
  }

  lemma KeepsResolving(env: Protocol, s: Registry, step: Step)
    requires WellFormed(env, s)
    ensures s.entries.Keys <= Do(env, s, step).entries.Keys
    ensures step.Observe? ==> Do(env, s, step) == Register(env, s, step.info, step.now)
    ensures step.Alias? ==> Do(env, s, step) == AliasAddresses(env, s, step.a, step.b)
  {
    hide WellFormed, Register, RegisterMarked, MarkSlot, ConfirmScan, AliasAddresses, AdmitCompanion, DetachesAt;
    StepSlots(env, s, step, 0);
  }

  /** An accepted answer leaves its source and the probed target under one entry, joined by an edge unless they are one
      address, and the source's slot confirmed and seen at that time. */
  lemma AcceptedTogether(env: Protocol, s: Registry, info: DeviceInfo, target: Addr, now: Time)
    requires WellFormed(env, s)
    ensures var t, a := Accepting(env, s, info, target, now), info.address;
      WellFormed(env, t) && a in t.entries && target in t.entries && t.entries[a] == t.entries[target] &&
      (a != target ==> target in Edges(t.topology, a)) &&
      a in t.table && t.table[a].verification == CONFIRMED && t.table[a].last == now
  {
    hide WellFormed, Register, AliasAddresses, ConfirmScan, Edges;
    KeepsResolving(env, s, Observe(info, now));
    StepKeeps(env, s, Observe(info, now));
    ResolvesObserved(env, s, info, now);
    var t := Register(env, s, info, now);
    if info.address == target {
      ConfirmedThere(env, t, target, now);
    } else {
      var alias := info.(address := target);
      KeepsResolving(env, t, Observe(alias, now));
      StepKeeps(env, t, Observe(alias, now));
      ResolvesObserved(env, t, alias, now);
      var u := Register(env, t, alias, now);
      KeepsResolving(env, u, Alias(info.address, target));
      StepKeeps(env, u, Alias(info.address, target));
      AliasJoins(env, u, info.address, target);
      ConfirmedThere(env, AliasAddresses(env, u, info.address, target), info.address, now);
    }
  }

  /** The probed target was seen then too, and holds what was heard of it, unless its triple is disputed there: what is
      told apart from the triple's owner is recorded nowhere. */
  lemma AcceptedSeen(env: Protocol, s: Registry, info: DeviceInfo, target: Addr, now: Time)
    requires WellFormed(env, s) && info.address != target
    requires var t := Register(env, s, info, now); !(target in t.entries && Disputed(t, info))
    ensures SlotAt(Accepting(env, s, info, target, now).table, target).last == now
    ensures SlotAt(Accepting(env, s, info, target, now).table, target).source != SourceUnknown
  {
    hide WellFormed, Register, AliasAddresses, ConfirmScan, Edges, Disputed, ObservedSlot;
    KeepsResolving(env, s, Observe(info, now));
    StepKeeps(env, s, Observe(info, now));
    var t, alias := Register(env, s, info, now), info.(address := target);
    DisputedAnywhere(t, info, target);
    KeepsResolving(env, t, Observe(alias, now));
    StepKeeps(env, t, Observe(alias, now));
    ObservationSlots(env, t, Observe(alias, now), target);
    var u := Register(env, t, alias, now);
    SeenThen(t, u, Observe(alias, now), alias, now);
    KeepsResolving(env, u, Alias(info.address, target));
    StepKeeps(env, u, Alias(info.address, target));
    AliasSlotsExactly(env, u, info.address, target, target);
    var v := AliasAddresses(env, u, info.address, target);
    ConfirmKeepsSeen(env, v, info.address, now, target);
  }

  lemma DisputedAnywhere(s: Registry, info: DeviceInfo, a: Addr)
    ensures Disputed(s, info.(address := a)) == Disputed(s, info)
  {
    hide Key, CurrentOwner, Normalize;
  }

  lemma SeenThen(s: Registry, t: Registry, step: Step, info: DeviceInfo, now: Time)
    requires info.address in t.entries && ObservedSlot(s, t, step, info, t.entries[info.address], info.address)
    requires step == Observe(info, now)
    ensures SlotAt(t.table, info.address).last == now && SlotAt(t.table, info.address).source != SourceUnknown
  {
    hide Canonical, Qualified, SlotBefore;
  }

  lemma ConfirmKeepsSeen(env: Protocol, s: Registry, a: Addr, now: Time, x: Addr)
    requires WellFormed(env, s) && x != a
    ensures var t := ConfirmScan(s, a, now);
      SlotAt(t.table, x).last == SlotAt(s.table, x).last && SlotAt(t.table, x).source == SlotAt(s.table, x).source
  {
    hide WellFormed, ConfirmScan;
    ConfirmScanIdle(s, a, now);
    if a in s.entries { ConfirmScanTable(env, s, a, now, x); }
  }

  // ---- one probe -----------------------------------------------------------------------------

  datatype Probe = Skipped | Deferred | Collided | Aborted | Answered(info: DeviceInfo)

  function ErrorProbe(err: SendError): Probe
  {
    if err == BusCollision then Collided
    else if ShouldRetry(err) then Deferred
    else if ShouldSkip(err) then Skipped
    else Aborted
  }

  /** What becomes of probe number n; only a directed, parsed answer identifies a device. */
  function Verdict(world: World, source: Addr, n: nat): Probe
  {
    match world.reply(n)
    case Cancelled => Aborted
    case Failed(error) => ErrorProbe(error)
    case Nothing => ErrorProbe(ResponsePayload)
    case Frame(from, _, _, _, parsed) =>
      if !Directed(source, world.reply(n)) || parsed.None? then ErrorProbe(ResponsePayload)
      else
        var info := parsed.value.(address := from);
        if info.manufacturer == "Vaillant" && info.serial == "" then
          match world.serial(n)
          case SerialCancelled => Aborted
          case NoSerial => Answered(info)
          case Serial(value) => Answered(info.(serial := value))
        else Answered(info)
  }

  /** The reply is an identification answer to a probe from this source. */
  ghost predicate Identifies(source: Addr, r: Reply)
  {
    r.Frame? && r.source != 0 && r.target == source && r.primary == 0x07 && r.secondary == 0x04 && r.parsed.Some?
  }

  /** Which replies end the scan, ask for another probe, or identify a device; no other reply counts. */
  lemma VerdictExactly(world: World, source: Addr, n: nat)
    ensures var r, v := world.reply(n), Verdict(world, source, n);
      var needsSerial := Identifies(source, r) && r.parsed.value.manufacturer == "Vaillant" && r.parsed.value.serial == "";
      (v == Aborted <==> r == Cancelled || r == Failed(OtherError) || (needsSerial && world.serial(n) == SerialCancelled)) &&
      (v == Collided <==> r == Failed(BusCollision)) &&
      (v == Skipped <==> r == Failed(NoSuchDevice) || r == Failed(NACK)) &&
      (v == Deferred <==> r == Nothing || r == Failed(Timeout) || r == Failed(DeadlineExceeded) || r == Failed(CRCMismatch) ||
                          r == Failed(ResponsePayload) || (r.Frame? && !Identifies(source, r))) &&
      (v.Answered? ==>
         Identifies(source, r) &&
         v.info == r.parsed.value.(
           address := r.source,
           serial := if needsSerial && world.serial(n).Serial? then world.serial(n).value else r.parsed.value.serial))
  {}

  ghost function Probed(env: Protocol, s: Registry, world: World, source: Addr, target: Addr, n: nat): Registry
  {
    match Verdict(world, source, n)
    case Answered(info) => Accepting(env, s, info, target, world.clock(n))
    case _ => s
  }

  /** Sends probe number n; only a directed, parsed answer touches the registry. */
  method ProbeTarget(registry: D.DeviceRegistry, world: World, source: Addr, target: Addr, n: nat)
    returns (p: Probe, entry: EntryId)
    requires registry.Valid()
    modifies registry
    ensures registry.Valid() && old(registry.entries.Keys) <= registry.entries.Keys
    ensures p == Verdict(world, source, n)
    ensures registry.Model() == Probed(registry.env, old(registry.Model()), world, source, target, n)
    ensures p.Answered? ==> p.info.address in registry.entries && entry == registry.entries[p.info.address]
  {
    hide WellFormed, Accepting;
    entry := 0;
    var r := world.reply(n);
    if r.Cancelled? { return Aborted, entry; }
    if r.Failed? { return ErrorProbe(r.error), entry; }
    if r.Nothing? || !Directed(source, r) || r.parsed.None? { return ErrorProbe(ResponsePayload), entry; }
    var info := r.parsed.value.(address := r.source);
    if info.manufacturer == "Vaillant" && info.serial == "" {
      var s := world.serial(n);
      if s.SerialCancelled? { return Aborted, entry; }
      if s.Serial? { info := info.(serial := s.value); }
    }
    entry := Accept(registry, info, target, world.clock(n));
    p := Answered(info);
  }

  // ---- the scan --------------------------------------------------------------------------------

  ghost predicate AllEligible(world: World, probes: seq<Addr>, targets: seq<Addr>)
  {
    forall a :: a in probes ==> Eligible(world, a) && a in targets
  }

  /** The registry after a whole log of probes. */
  ghost function ProbedAll(env: Protocol, s: Registry, world: World, source: Addr, probes: seq<Addr>): Registry
  {
    if probes == [] then s
    else
      var n := |probes| - 1;
      Probed(env, ProbedAll(env, s, world, source, probes[..n]), world, source, probes[n], n)
  }

  lemma OneMoreProbe(env: Protocol, s: Registry, world: World, source: Addr, probes: seq<Addr>, target: Addr)
    ensures ProbedAll(env, s, world, source, probes + [target]) ==
            Probed(env, ProbedAll(env, s, world, source, probes), world, source, target, |probes|)
  {
    hide Probed;
    assert (probes + [target])[..|probes|] == probes;
  }

  // ---- what the answers found -------------------------------------------------------------------

  lemma AcceptingKeepsNamed(env: Protocol, s: Registry, info: DeviceInfo, target: Addr, now: Time, x: EntryId)
    requires WellFormed(env, s) && Named(s, x)
    ensures Named(Accepting(env, s, info, target, now), x)
  {
    hide WellFormed, Named, Register, RegisterMarked, MarkSlot, ConfirmScan, AliasAddresses, AdmitCompanion;
    StepKeeps(env, s, Observe(info, now));
    StepKeepsNamed(env, s, Observe(info, now), x);
    var t := Register(env, s, info, now);
    if info.address == target {
      StepKeepsNamed(env, t, Confirm(info.address, now), x);
    } else {
      var second := Observe(info.(address := target), now);
      StepKeeps(env, t, second);
      StepKeepsNamed(env, t, second, x);
      var u := Register(env, t, info.(address := target), now);
      StepKeeps(env, u, Alias(info.address, target));
      StepKeepsNamed(env, u, Alias(info.address, target), x);
      StepKeepsNamed(env, AliasAddresses(env, u, info.address, target), Confirm(info.address, now), x);
    }
  }

  lemma ProbedKeepsNamed(env: Protocol, s: Registry, world: World, source: Addr, target: Addr, n: nat, x: EntryId)
    requires WellFormed(env, s) && Named(s, x)
    ensures Named(Probed(env, s, world, source, target, n), x)
  {
    hide WellFormed, Named, Accepting, Verdict;
    match Verdict(world, source, n) {
      case Answered(info) => AcceptingKeepsNamed(env, s, info, target, world.clock(n), x);
      case _ =>
    }
  }

  /** A scan so far: the registry it started from and the probes it sent. */
  datatype Log = Log(env: Protocol, start: Registry, world: World, source: Addr, probes: seq<Addr>)

  /** The registry right after probe n. */
  ghost function AfterProbe(log: Log, n: nat): Registry
    requires n < |log.probes|
  {
    ProbedAll(log.env, log.start, log.world, log.source, log.probes[..n + 1])
  }

  /** The entry that the answer to probe n resolved to at that time. */
  ghost function Hit(log: Log, n: nat): Option<EntryId>
    requires n < |log.probes|
  {
    match Verdict(log.world, log.source, n)
    case Answered(info) => ExistingAt(AfterProbe(log, n), info.address)
    case _ => None
  }

  // The display address of that entry at that time.
  ghost function ShownAt(log: Log, n: nat): Addr
    requires n < |log.probes| && Hit(log, n).Some?
  {
    DisplayAddress(At(AfterProbe(log, n), Hit(log, n).value))
  }

  // Probe m found an entry shown under address d.
  ghost predicate ShownBy(log: Log, found: seq<EntryId>, d: Addr, m: nat)
  {
    m < |log.probes| && Hit(log, m).Some? && Hit(log, m).value in found && ShownAt(log, m) == d
  }

  ghost predicate IsHit(log: Log, f: EntryId, n: nat)
  {
    n < |log.probes| && Hit(log, n) == Some(f)
  }

  /** What a scan has found: only entries that answers resolved to, and one for each address an answer was shown
      under; all of them can still be looked up. */
  ghost predicate FoundOk(log: Log, s: Registry, found: seq<EntryId>, registered: set<Addr>)
  {
    (forall f :: f in found ==> Named(s, f) && exists n :: IsHit(log, f, n)) &&
    (forall d :: d in registered ==> exists m :: ShownBy(log, found, d, m)) &&
    (forall n: nat :: n < |log.probes| && Verdict(log.world, log.source, n).Answered? ==>
       Hit(log, n).Some? && ShownAt(log, n) in registered)
  }

  lemma HitStable(log: Log, target: Addr, n: nat)
    requires n < |log.probes|
    ensures var more := log.(probes := log.probes + [target]);
      Hit(more, n) == Hit(log, n) && AfterProbe(more, n) == AfterProbe(log, n)
  {
    hide Verdict, ProbedAll;
    assert (log.probes + [target])[..n + 1] == log.probes[..n + 1];
  }

  // One more probe, with what it found.
  lemma FoundMore(log: Log, s: Registry, found: seq<EntryId>, registered: set<Addr>, target: Addr, t: Registry,
                  found': seq<EntryId>, registered': set<Addr>)
    requires FoundOk(log, s, found, registered)
    requires forall f :: f in found' ==> Named(t, f)
    requires var more := log.(probes := log.probes + [target]); var n := |log.probes|;
      (forall f :: f in found ==> f in found') && (forall d :: d in registered ==> d in registered') &&
      (forall f :: f in found' && f !in found ==> Hit(more, n) == Some(f)) &&
      (forall d :: d in registered' && d !in registered ==> ShownBy(more, found', d, n)) &&
      (Verdict(log.world, log.source, n).Answered? ==> Hit(more, n).Some? && ShownAt(more, n) in registered')
    ensures FoundOk(log.(probes := log.probes + [target]), t, found', registered')
  {
    hide Verdict, ProbedAll, Named, Hit, ShownAt;
    var more := log.(probes := log.probes + [target]);
    var n := |log.probes|;
    forall f | f in found' ensures exists m :: IsHit(more, f, m) {
      if f in found {
        var m :| IsHit(log, f, m);
        HitStable(log, target, m);
        assert IsHit(more, f, m);
      } else {
        assert IsHit(more, f, n);
      }
    }
    forall d | d in registered' ensures exists m :: ShownBy(more, found', d, m) {
      if d in registered {
        var m :| ShownBy(log, found, d, m);
        ShownStable(log, target, m);
        assert ShownBy(more, found', d, m);
      }
    }
    forall m: nat | m < |more.probes| && Verdict(log.world, log.source, m).Answered?
      ensures Hit(more, m).Some? && ShownAt(more, m) in registered'
    {
      if m < n { ShownStable(log, target, m); }
    }
  }

  lemma ShownStable(log: Log, target: Addr, n: nat)
    requires n < |log.probes| && Hit(log, n).Some?
    ensures var more := log.(probes := log.probes + [target]);
      Hit(more, n) == Hit(log, n) && ShownAt(more, n) == ShownAt(log, n)
  {
    HitStable(log, target, n);
    hide Verdict, ProbedAll, DisplayAddress;
  }

  // The registry before the next probe is the one its log gives.
  ghost predicate LogIs(log: Log, s: Registry)
  {
    s == ProbedAll(log.env, log.start, log.world, log.source, log.probes)
  }

  lemma NextProbe(log: Log, s: Registry, target: Addr)
    requires LogIs(log, s)
    ensures var more, n := log.(probes := log.probes + [target]), |log.probes|;
      AfterProbe(more, n) == Probed(log.env, s, log.world, log.source, target, n)
  {
    hide Probed;
    OneMoreProbe(log.env, log.start, log.world, log.source, log.probes, target);
    assert (log.probes + [target])[..|log.probes| + 1] == log.probes + [target];
  }

  // What a new answer adds: its entry, unless one was already shown under the same address.
  lemma AnswerFound(log: Log, s: Registry, found: seq<EntryId>, registered: set<Addr>, target: Addr, entry: EntryId,
                    info: DeviceInfo, t: Registry)
    requires LogIs(log, s) && FoundOk(log, s, found, registered) && WellFormed(log.env, s) && WellFormed(log.env, t)
    requires t == Probed(log.env, s, log.world, log.source, target, |log.probes|)
    requires Verdict(log.world, log.source, |log.probes|) == Answered(info) && ExistingAt(t, info.address) == Some(entry)
    ensures var more, display := log.(probes := log.probes + [target]), DisplayAddress(Look(t.arena, entry));
      if display in registered then FoundOk(more, t, found, registered)
      else FoundOk(more, t, found + [entry], registered + {display})
  {
    hide WellFormed, Probed, ProbedAll, Verdict, DisplayAddress, Named;
    var more, n := log.(probes := log.probes + [target]), |log.probes|;
    var display := DisplayAddress(Look(t.arena, entry));
    NextProbe(log, s, target);
    LiveEntry(log.env, t, info.address);
    LiveIsNamed(log.env, t, entry);
    forall f | f in found ensures Named(t, f) {
      ProbedKeepsNamed(log.env, s, log.world, log.source, target, n, f);
    }
    assert Hit(more, n) == Some(entry) && ShownAt(more, n) == display;
    if display in registered {
      FoundMore(log, s, found, registered, target, t, found, registered);
    } else {
      assert ShownBy(more, found + [entry], display, n);
      FoundMore(log, s, found, registered, target, t, found + [entry], registered + {display});
    }
  }

  lemma NothingNew(log: Log, s: Registry, found: seq<EntryId>, registered: set<Addr>, target: Addr)
    requires LogIs(log, s) && FoundOk(log, s, found, registered) && WellFormed(log.env, s)
    requires !Verdict(log.world, log.source, |log.probes|).Answered?
    ensures FoundOk(log.(probes := log.probes + [target]), Probed(log.env, s, log.world, log.source, target, |log.probes|),
                    found, registered)
  {
    hide WellFormed, Probed, ProbedAll, Verdict, Named;
    forall f | f in found ensures Named(Probed(log.env, s, log.world, log.source, target, |log.probes|), f) {
      ProbedKeepsNamed(log.env, s, log.world, log.source, target, |log.probes|, f);
    }
    FoundMore(log, s, found, registered, target, Probed(log.env, s, log.world, log.source, target, |log.probes|), found, registered);
  }

  lemma NothingFound(log: Log, s: Registry)
    requires log.probes == []
    ensures FoundOk(log, s, [], {})
  {}

  /** The entries found by a log of probes, in order: those whose display address no earlier answer was shown under. */
  datatype Findings = Findings(found: seq<EntryId>, shown: set<Addr>)

  ghost function Finds(log: Log): Findings
    decreases |log.probes|
  {
    if log.probes == [] then Findings([], {})
    else
      var n := |log.probes| - 1;
      var before := Finds(log.(probes := log.probes[..n]));
      if Hit(log, n).None? || ShownAt(log, n) in before.shown then before
      else Findings(before.found + [Hit(log, n).value], before.shown + {ShownAt(log, n)})
  }

  // What one more probe finds.
  lemma FindsNext(log: Log, s: Registry, target: Addr)
    requires LogIs(log, s)
    ensures var more, n := log.(probes := log.probes + [target]), |log.probes|;
      var t := Probed(log.env, s, log.world, log.source, target, n);
      Finds(more) ==
        match Verdict(log.world, log.source, n)
        case Answered(info) =>
          (match ExistingAt(t, info.address)
           case None => Finds(log)
           case Some(e) =>
             var d := DisplayAddress(At(t, e));
             if d in Finds(log).shown then Finds(log) else Findings(Finds(log).found + [e], Finds(log).shown + {d}))
        case _ => Finds(log)
  {
    hide Probed, ProbedAll, Verdict, DisplayAddress, AfterProbe;
    var more, n := log.(probes := log.probes + [target]), |log.probes|;
    NextProbe(log, s, target);
    assert more.(probes := more.probes[..n]) == log by { assert more.probes[..n] == log.probes; }
  }

  lemma {:induction false} FindsOk(log: Log)
    requires WellFormed(log.env, log.start)
    ensures var s := ProbedAll(log.env, log.start, log.world, log.source, log.probes);
      WellFormed(log.env, s) && FoundOk(log, s, Finds(log).found, Finds(log).shown)
    decreases |log.probes|
  {
    hide WellFormed, Probed, Verdict, DisplayAddress, FoundOk, Hit, ShownAt;
    if log.probes == [] {
      NothingFound(log, log.start);
    } else {
      var n := |log.probes| - 1;
      var front, target := log.(probes := log.probes[..n]), log.probes[n];
      var s := ProbedAll(log.env, log.start, log.world, log.source, front.probes);
      var t := Probed(log.env, s, log.world, log.source, target, n);
      FindsOk(front);
      assert log.probes == front.probes + [target];
      FindsNext(front, s, target);
      if Verdict(log.world, log.source, n).Answered? {
        var info := Verdict(log.world, log.source, n).info;
        ProbedTogether(log.env, s, log.world, log.source, target, n);
        AnswerFound(front, s, Finds(front).found, Finds(front).shown, target, t.entries[info.address], info, t);
      } else {
        ProbedIdle(log.env, s, log.world, log.source, target, n);
        NothingNew(front, s, Finds(front).found, Finds(front).shown, target);
      }
    }
  }

  lemma ProbedIdle(env: Protocol, s: Registry, world: World, source: Addr, target: Addr, n: nat)
    requires !Verdict(world, source, n).Answered?
    ensures Probed(env, s, world, source, target, n) == s
  {
    hide Verdict, Accepting;
  }

  lemma ProbedTogether(env: Protocol, s: Registry, world: World, source: Addr, target: Addr, n: nat)
    requires WellFormed(env, s) && Verdict(world, source, n).Answered?
    ensures var t, a := Probed(env, s, world, source, target, n), Verdict(world, source, n).info.address;
      WellFormed(env, t) && a in t.entries && target in t.entries && t.entries[a] == t.entries[target]
  {
    hide WellFormed, Verdict, Accepting, Edges;
    AcceptedTogether(env, s, Verdict(world, source, n).info, target, world.clock(n));
  }

  // ---- the order of the probes ----------------------------------------------------------------

  /** The targets of a round whose probes, counted from number n, came out as v. */
  ghost function Outcome(world: World, source: Addr, round: seq<Addr>, n: nat, v: Probe): seq<Addr>
  {
    if round == [] then []
    else
      var k := |round| - 1;
      Outcome(world, source, round[..k], n, v) + if Verdict(world, source, n + k) == v then [round[k]] else []
  }

  lemma {:induction false} OutcomeMembers(world: World, source: Addr, round: seq<Addr>, n: nat, v: Probe)
    ensures forall a :: a in Outcome(world, source, round, n, v) <==>
                        exists k :: 0 <= k < |round| && round[k] == a && Verdict(world, source, n + k) == v
  {
    hide Verdict;
    if round != [] {
      var k := |round| - 1;
      OutcomeMembers(world, source, round[..k], n, v);
      assert forall i :: 0 <= i < k ==> round[..k][i] == round[i];
    }
  }

  lemma OutcomeNext(world: World, source: Addr, round: seq<Addr>, n: nat, a: Addr, v: Probe)
    ensures Outcome(world, source, round + [a], n, v) ==
            if Verdict(world, source, n + |round|) == v then Outcome(world, source, round, n, v) + [a]
            else Outcome(world, source, round, n, v)
  {
    hide Verdict;
    assert (round + [a])[..|round|] == round;
  }

  /** What is probed again after a round: the collided targets, then the deferred ones. */
  ghost function Again(world: World, source: Addr, round: seq<Addr>, n: nat): seq<Addr>
  {
    Outcome(world, source, round, n, Collided) + Outcome(world, source, round, n, Deferred)
  }

  /** The probes of a scan that nothing ends early, counted from number n. */
  ghost function Rounds(world: World, source: Addr, pending: seq<Addr>, n: nat, left: nat): seq<Addr>
    decreases left
  {
    if left == 0 || pending == [] then []
    else
      var round := Worth(world, pending);
      round + Rounds(world, source, IncludingAll([], Again(world, source, round, n)), n + |round|, left - 1)
  }

  lemma RoundNext(world: World, source: Addr, pending: seq<Addr>, n: nat, left: nat)
    requires left > 0 && pending != []
    ensures var round := Worth(world, pending);
      Rounds(world, source, pending, n, left) ==
        round + Rounds(world, source, IncludingAll([], Again(world, source, round, n)), n + |round|, left - 1)
  {
    hide Worth, Again, IncludingAll;
  }

  lemma RoundsDone(world: World, source: Addr, pending: seq<Addr>, n: nat, left: nat)
    ensures pending == [] || left == 0 ==> Rounds(world, source, pending, n, left) == []
  {
    hide Worth, Again, IncludingAll;
  }

  predicate Retryable(p: Probe)
  {
    p == Collided || p == Deferred
  }

  /** A target is probed again only when its probe collided or failed retryably. */
  ghost predicate RepeatsAreRetries(world: World, source: Addr, probes: seq<Addr>)
  {
    forall i, j :: 0 <= i < j < |probes| && probes[i] == probes[j] ==> Retryable(Verdict(world, source, i))
  }

  /** Some probe of the target neither collided nor failed retryably. */
  ghost predicate Concluded(world: World, source: Addr, probes: seq<Addr>, a: Addr)
  {
    exists i :: 0 <= i < |probes| && probes[i] == a && !Retryable(Verdict(world, source, i))
  }

  // A log that stands before a round over `pending`, each of its wanted targets concluded or probed `pass` times.
  ghost predicate BeforeRound(world: World, source: Addr, probes: seq<Addr>, pending: seq<Addr>, wanted: seq<Addr>, pass: nat)
  {
    AtMost(probes, pass) && AllEligible(world, probes, wanted) && RepeatsAreRetries(world, source, probes) &&
    (forall a :: a in pending ==> a in wanted) &&
    (forall a :: a in pending ==> !Concluded(world, source, probes, a)) &&
    (forall a :: a in wanted && Eligible(world, a) && !Concluded(world, source, probes, a) ==>
       a in pending && multiset(probes)[a] == pass)
  }

  /** What every scan that nothing ends early has done: wanted targets only, each until it is concluded or was probed so often. */
  ghost predicate FullyProbed(world: World, source: Addr, probes: seq<Addr>, wanted: seq<Addr>, times: nat)
  {
    AtMost(probes, times) && AllEligible(world, probes, wanted) && RepeatsAreRetries(world, source, probes) &&
    forall a :: a in wanted && Eligible(world, a) && !Concluded(world, source, probes, a) ==> multiset(probes)[a] == times
  }

  lemma AgainMembers(world: World, source: Addr, round: seq<Addr>, n: nat, a: Addr)
    ensures a in Again(world, source, round, n) <==>
            exists k :: 0 <= k < |round| && round[k] == a && Retryable(Verdict(world, source, n + k))
  {
    hide Verdict, Outcome;
    OutcomeMembers(world, source, round, n, Collided);
    OutcomeMembers(world, source, round, n, Deferred);
  }

  // Which targets are concluded after a round.
  lemma RoundConcludes(world: World, source: Addr, probes: seq<Addr>, round: seq<Addr>, a: Addr)
    requires Distinct(round)
    ensures Concluded(world, source, probes + round, a) <==>
            Concluded(world, source, probes, a) || (a in round && a !in Again(world, source, round, |probes|))
  {
    hide Verdict, Again;
    var more := probes + round;
    AgainMembers(world, source, round, |probes|, a);
    assert forall i :: 0 <= i < |probes| ==> more[i] == probes[i];
    assert forall k :: 0 <= k < |round| ==> more[|probes| + k] == round[k];
    if Concluded(world, source, more, a) {
      var i :| 0 <= i < |more| && more[i] == a && !Retryable(Verdict(world, source, i));
      if i >= |probes| { assert round[i - |probes|] == a; }
    }
    if a in round && a !in Again(world, source, round, |probes|) {
      var k :| 0 <= k < |round| && round[k] == a;
      assert more[|probes| + k] == a;
    }
  }

  lemma RoundRepeats(world: World, source: Addr, probes: seq<Addr>, round: seq<Addr>)
    requires RepeatsAreRetries(world, source, probes) && Distinct(round)
    requires forall a :: a in round ==> !Concluded(world, source, probes, a)
    ensures RepeatsAreRetries(world, source, probes + round)
  {
    hide Verdict;
    var more := probes + round;
    forall i, j | 0 <= i < j < |more| && more[i] == more[j] ensures Retryable(Verdict(world, source, i)) {
      if i < |probes| <= j { assert more[j] in round; }
    }
  }

  lemma RoundEligible(world: World, probes: seq<Addr>, pending: seq<Addr>, wanted: seq<Addr>)
    requires AllEligible(world, probes, wanted) && Distinct(pending) && forall a :: a in pending ==> a in wanted
    ensures AllEligible(world, probes + Worth(world, pending), wanted)
  {
    hide Eligible, Worth;
    WorthMembers(world, pending);
  }

  lemma OneRound(world: World, source: Addr, probes: seq<Addr>, pending: seq<Addr>, wanted: seq<Addr>, pass: nat)
    requires Distinct(pending) && BeforeRound(world, source, probes, pending, wanted, pass)
    ensures var round := Worth(world, pending);
      BeforeRound(world, source, probes + round, IncludingAll([], Again(world, source, round, |probes|)), wanted, pass + 1)
  {
    hide Verdict, Eligible, Worth, Again, AtMost, Concluded, RepeatsAreRetries, AllEligible, IncludingAll, Distinct;
    var round := Worth(world, pending);
    var again := Again(world, source, round, |probes|);
    WorthMembers(world, pending);
    RoundWithin(world, probes, pending, pass);
    RoundEligible(world, probes, pending, wanted);
    RoundRepeats(world, source, probes, round);
    EmptyIsDistinct();
    IncludingAllMembers([], again);
    forall a: Addr
      ensures a in again ==> a in round
      ensures Concluded(world, source, probes + round, a) <==>
              Concluded(world, source, probes, a) || (a in round && a !in again)
      ensures multiset(probes + round)[a] == multiset(probes)[a] + if a in pending && Eligible(world, a) then 1 else 0
    {
      AgainMembers(world, source, round, |probes|, a);
      RoundConcludes(world, source, probes, round, a);
      RoundCounts(world, probes, pending, a);
    }
  }

  lemma EmptyIsDistinct()
    ensures Distinct<Addr>([])
  {}

  lemma NothingMore(world: World, source: Addr, probes: seq<Addr>, pending: seq<Addr>, wanted: seq<Addr>, pass: nat, left: nat)
    requires BeforeRound(world, source, probes, pending, wanted, pass) && (left == 0 || pending == [])
    ensures FullyProbed(world, source, probes, wanted, pass + left)
  {
    hide Verdict, Eligible, Concluded, RepeatsAreRetries, AllEligible;
  }

  lemma {:induction false} RoundsProbeFully(world: World, source: Addr, probes: seq<Addr>, pending: seq<Addr>, wanted: seq<Addr>,
                                            pass: nat, left: nat)
    requires Distinct(pending) && BeforeRound(world, source, probes, pending, wanted, pass)
    ensures FullyProbed(world, source, probes + Rounds(world, source, pending, |probes|, left), wanted, pass + left)
    decreases left
  {
    hide Worth, Again, IncludingAll, Distinct, BeforeRound, FullyProbed, Rounds;
    if left == 0 || pending == [] {
      RoundsDone(world, source, pending, |probes|, left);
      NothingMore(world, source, probes, pending, wanted, pass, left);
      assert probes + [] == probes;
    } else {
      var round := Worth(world, pending);
      var again := IncludingAll([], Again(world, source, round, |probes|));
      OneRound(world, source, probes, pending, wanted, pass);
      EmptyIsDistinct();
      IncludingAllMembers([], Again(world, source, round, |probes|));
      RoundNext(world, source, pending, |probes|, left);
      RoundsProbeFully(world, source, probes + round, again, wanted, pass + 1, left - 1);
      assert (probes + round) + Rounds(world, source, again, |probes + round|, left - 1) ==
             probes + (round + Rounds(world, source, again, |probes| + |round|, left - 1));
    }
  }

  /** Nothing has ended the scan so far. */
  ghost predicate NoAborts(world: World, source: Addr, probes: seq<Addr>)
  {
    forall i :: 0 <= i < |probes| ==> Verdict(world, source, i) != Aborted
  }

  /** The last probe, and no earlier one, ended the scan. */
  ghost predicate EndsAborted(world: World, source: Addr, probes: seq<Addr>)
  {
    probes != [] && NoAborts(world, source, probes[..|probes| - 1]) && Verdict(world, source, |probes| - 1) == Aborted
  }

  lemma NothingSent(world: World, source: Addr, n: nat)
    ensures Worth(world, []) == [] && forall v :: Outcome(world, source, [], n, v) == []
  {}

  lemma AbortsNext(world: World, source: Addr, probes: seq<Addr>, a: Addr)
    requires NoAborts(world, source, probes)
    ensures if Verdict(world, source, |probes|) == Aborted then EndsAborted(world, source, probes + [a])
            else NoAborts(world, source, probes + [a])
  {
    hide Verdict;
    assert (probes + [a])[..|probes|] == probes;
  }

  // One pass over the pending targets; every eligible one is probed once.
  method ScanPass(registry: D.DeviceRegistry, world: World, source: Addr, pending: seq<Addr>, found0: seq<EntryId>,
                  registered0: set<Addr>, probes0: seq<Addr>, ghost start: Registry)
    returns (ok: bool, again: seq<Addr>, found: seq<EntryId>, registered: set<Addr>, probes: seq<Addr>)
    requires registry.Valid() && NoAborts(world, source, probes0)
    requires registry.Model() == ProbedAll(registry.env, start, world, source, probes0)
    requires Findings(found0, registered0) == Finds(Log(registry.env, start, world, source, probes0))
    modifies registry
    ensures registry.Valid() && old(registry.entries.Keys) <= registry.entries.Keys
    ensures registry.Model() == ProbedAll(registry.env, start, world, source, probes)
    ensures Findings(found, registered) == Finds(Log(registry.env, start, world, source, probes))
    ensures ok ==> probes == probes0 + Worth(world, pending) && NoAborts(world, source, probes)
    ensures ok ==> again == Again(world, source, Worth(world, pending), |probes0|)
    ensures !ok ==> probes <= probes0 + Worth(world, pending) && EndsAborted(world, source, probes)
  {
    hide WellFormed, Verdict, ProbedAll, Probed, Eligible, Finds, DisplayAddress, Worth, Outcome, NoAborts;
    found, registered, probes, ok := found0, registered0, probes0, true;
    var collisions, retries: seq<Addr> := [], [];
    again := [];
    assert pending[..0] == [];
    NothingSent(world, source, |probes0|);
    for i := 0 to |pending|
      invariant registry.Valid() && old(registry.entries.Keys) <= registry.entries.Keys
      invariant registry.Model() == ProbedAll(registry.env, start, world, source, probes)
      invariant Findings(found, registered) == Finds(Log(registry.env, start, world, source, probes))
      invariant probes == probes0 + Worth(world, pending[..i]) && NoAborts(world, source, probes)
      invariant collisions == Outcome(world, source, Worth(world, pending[..i]), |probes0|, Collided)
      invariant retries == Outcome(world, source, Worth(world, pending[..i]), |probes0|, Deferred)
    {
      var target := pending[i];
      ghost var round := Worth(world, pending[..i]);
      WorthNext(world, pending, i);
      if Eligible(world, target) {
        OneMoreProbe(registry.env, start, world, source, probes, target);
        FindsNext(Log(registry.env, start, world, source, probes), registry.Model(), target);
        OutcomeNext(world, source, round, |probes0|, target, Collided);
        OutcomeNext(world, source, round, |probes0|, target, Deferred);
        assert probes + [target] == probes0 + (round + [target]);
        AbortsNext(world, source, probes, target);
        var p, entry := ProbeTarget(registry, world, source, target, |probes|);
        probes := probes + [target];
        match p {
          case Skipped =>
          case Collided => collisions := collisions + [target];
          case Deferred => retries := retries + [target];
          case Aborted =>
            WorthPrefix(world, pending, i + 1);
            return false, again, found, registered, probes;
          case Answered(_) =>
            var display := DisplayAddress(Look(registry.arena, entry));
            if display !in registered {
              registered := registered + {display};
              found := found + [entry];
            }
        }
      }
    }
    again := collisions + retries;
    assert pending[..|pending|] == pending;
  }

  lemma {:induction false} WorthPrefix(world: World, pending: seq<Addr>, i: nat)
    requires i <= |pending|
    ensures Worth(world, pending[..i]) <= Worth(world, pending)
  {
    hide Eligible;
    if i == |pending| {
      assert pending[..i] == pending;
    } else {
      WorthPrefix(world, pending[..|pending| - 1], i);
      assert pending[..|pending| - 1][..i] == pending[..i];
    }
  }

  // What an entry found earlier resolves to now.
  ghost function Resolved(s: Registry, e: EntryId): Option<EntryId>
  {
    ExistingAt(s, DisplayAddress(At(s, e)))
  }

  /** Live entries are told apart by their display addresses. */
  lemma DisplayIsOwn(env: Protocol, s: Registry, x: EntryId, y: EntryId)
    requires WellFormed(env, s) && x in s.order && y in s.order
    ensures DisplayAddress(At(s, x)) == DisplayAddress(At(s, y)) <==> x == y
  {
    hide WitnessesOk, TopologyOk, SlotsAgree, IndexRows, Canon, FacesSynced;
    assert GroupOk(s.arena[x]) && GroupOk(s.arena[y]);
    assert s.entries[At(s, x).primary] == x && s.entries[At(s, y).primary] == y;
  }

  /** What the found entries resolve to, in order. */
  ghost function Resolutions(s: Registry, found: seq<EntryId>): seq<EntryId>
  {
    if found == [] then []
    else
      var n := |found| - 1;
      Resolutions(s, found[..n]) + if Resolved(s, found[n]).Some? then [Resolved(s, found[n]).value] else []
  }

  lemma {:induction false} ResolutionMembers(s: Registry, found: seq<EntryId>)
    ensures forall e :: e in Resolutions(s, found) <==> exists i :: 0 <= i < |found| && Resolved(s, found[i]) == Some(e)
  {
    hide Resolved;
    if found != [] {
      var n := |found| - 1;
      ResolutionMembers(s, found[..n]);
      assert forall i :: 0 <= i < n ==> found[..n][i] == found[i];
    }
  }

  /** canonicalizeScanEntries: the live entries that what was found resolves to now, each once, in the order found. */
  method CanonicalizeEntries(registry: D.DeviceRegistry, found: seq<EntryId>) returns (canonical: seq<EntryId>)
    requires registry.Valid()
    ensures canonical == IncludingAll([], Resolutions(registry.Model(), found))
    ensures Distinct(canonical) && forall e :: e in canonical ==> e in registry.order
    ensures forall e :: e in canonical <==> exists i :: 0 <= i < |found| && Resolved(registry.Model(), found[i]) == Some(e)
  {
    hide WellFormed, DisplayAddress, Resolved, IncludingAll;
    ghost var s := registry.Model();
    canonical := [];
    assert IncludingAll([], Resolutions(s, [])) == [] by { NothingIncluded(s); }
    var seen: set<Addr> := {};
    for i := 0 to |found|
      invariant canonical == IncludingAll([], Resolutions(s, found[..i]))
      invariant forall e :: e in canonical ==> e in registry.order
      invariant forall e :: e in canonical ==> DisplayAddress(Look(registry.arena, e)) in seen
      invariant forall a :: a in seen ==> exists e :: e in canonical && DisplayAddress(Look(registry.arena, e)) == a
    {
      ResolutionsNext(s, found, i);
      var resolved := registry.Lookup(DisplayAddress(Look(registry.arena, found[i])));
      assert resolved == Resolved(s, found[i]) by { ResolvedIs(s, found[i]); }
      if resolved.Some? {
        forall e | e in canonical
          ensures DisplayAddress(Look(registry.arena, e)) == DisplayAddress(Look(registry.arena, resolved.value)) <==> e == resolved.value
        {
          DisplayIsOwn(registry.env, s, e, resolved.value);
        }
        var address := DisplayAddress(Look(registry.arena, resolved.value));
        IncludingNext([], Resolutions(s, found[..i]), resolved.value);
        if address !in seen {
          seen := seen + {address};
          canonical := canonical + [resolved.value];
        }
      }
    }
    assert found[..|found|] == found;
    ResolutionMembers(s, found);
    IncludingAllMembers([], Resolutions(s, found));
  }

  lemma ResolutionsNext(s: Registry, found: seq<EntryId>, i: nat)
    requires i < |found|
    ensures Resolutions(s, found[..i + 1]) ==
            if Resolved(s, found[i]).Some? then Resolutions(s, found[..i]) + [Resolved(s, found[i]).value]
            else Resolutions(s, found[..i])
  {
    hide Resolved;
    assert found[..i + 1][..i] == found[..i];
  }

  lemma NothingIncluded(s: Registry)
    ensures IncludingAll([], Resolutions(s, [])) == []
  {}

  lemma IncludingNext(xs: seq<EntryId>, ys: seq<EntryId>, y: EntryId)
    ensures IncludingAll(xs, ys + [y]) == Including(IncludingAll(xs, ys), y)
  {
    assert (ys + [y])[..|ys|] == ys;
  }

  lemma ResolvedIs(s: Registry, e: EntryId)
    ensures Resolved(s, e) == ExistingAt(s, DisplayAddress(Look(s.arena, e)))
  {}

  // Probe m stands for what was shown under address d: the entry it found resolves into the result.
  ghost predicate StandsFor(log: Log, s: Registry, result: seq<EntryId>, d: Addr, m: nat)
  {
    m < |log.probes| && Hit(log, m).Some? && ShownAt(log, m) == d && Resolved(s, Hit(log, m).value).Some? &&
    Resolved(s, Hit(log, m).value).value in result
  }

  // The entry that probe n found resolves to e now.
  ghost predicate LedTo(log: Log, s: Registry, e: EntryId, n: nat)
  {
    n < |log.probes| && Hit(log, n).Some? && Resolved(s, Hit(log, n).value) == Some(e)
  }

  /** Every result comes from an answer, and every answer is represented: some answer shown under the same address
      led to a result. */
  ghost predicate ResultOk(log: Log, s: Registry, result: seq<EntryId>)
  {
    (forall e :: e in result ==> exists n :: LedTo(log, s, e, n)) &&
    (forall n: nat :: n < |log.probes| && Verdict(log.world, log.source, n).Answered? ==>
       Hit(log, n).Some? && exists m :: StandsFor(log, s, result, ShownAt(log, n), m))
  }

  lemma NamedResolves(s: Registry, f: EntryId)
    requires Named(s, f)
    ensures Resolved(s, f).Some?
  {}

  lemma FoundResolves(log: Log, s: Registry, found: seq<EntryId>, registered: set<Addr>, result: seq<EntryId>)
    requires FoundOk(log, s, found, registered)
    requires forall e :: e in result <==> exists i :: 0 <= i < |found| && Resolved(s, found[i]) == Some(e)
    ensures ResultOk(log, s, result)
  {
    hide Verdict, ProbedAll, Named, Hit, ShownAt, Resolved;
    forall e | e in result ensures exists n :: LedTo(log, s, e, n) {
      var i :| 0 <= i < |found| && Resolved(s, found[i]) == Some(e);
      assert found[i] in found;
      var n :| IsHit(log, found[i], n);
      assert LedTo(log, s, e, n);
    }
    forall n: nat | n < |log.probes| && Verdict(log.world, log.source, n).Answered?
      ensures Hit(log, n).Some? && exists m :: StandsFor(log, s, result, ShownAt(log, n), m)
    {
      var m :| ShownBy(log, found, ShownAt(log, n), m);
      var f := Hit(log, m).value;
      NamedResolves(s, f);
      var i :| 0 <= i < |found| && found[i] == f;
      assert Resolved(s, found[i]) == Some(Resolved(s, f).value);
      assert StandsFor(log, s, result, ShownAt(log, n), m);
    }
  }

  /** Scan, for every bus behaviour: the probes are the rounds of the scan up to the first reply that ends it; wanted,
      probeable addresses that are no bus masters are probed, and no others, at most four times and again only after a
      collision or a retryable failure; unless the scan is ended, each of them until a probe concludes it or four times;
      the registry is exactly what the answers, in order, make of it; and the result is what the answers found, in order,
      as it resolves now: pairwise distinct live entries, each from an answer, with every answer represented. */
  method Scan(registry: D.DeviceRegistry, world: World, source: Addr, targets: seq<Addr>)
    returns (result: Option<seq<EntryId>>, probes: seq<Addr>)
    requires registry.Valid()
    modifies registry
    ensures registry.Valid() && old(registry.entries.Keys) <= registry.entries.Keys
    ensures registry.Model() == ProbedAll(registry.env, old(registry.Model()), world, source, probes)
    ensures var rounds := Rounds(world, source, IncludingAll([], if targets == [] then DefaultTargets() else targets), 0, 4);
      if result.Some? then probes == rounds && NoAborts(world, source, probes)
      else probes <= rounds && EndsAborted(world, source, probes)
    ensures AtMost(probes, 4) && RepeatsAreRetries(world, source, probes)
    ensures forall a :: a in probes ==> Probeworthy(world, targets, a)
    ensures result.Some? ==> forall a :: Probeworthy(world, targets, a) && !Concluded(world, source, probes, a) ==>
                               multiset(probes)[a] == 4
    ensures result.Some? ==> Distinct(result.value) && forall e :: e in result.value ==> e in registry.order
    ensures result.Some? ==>
      var log := Log(registry.env, old(registry.Model()), world, source, probes);
      result.value == IncludingAll([], Resolutions(registry.Model(), Finds(log).found)) &&
      ResultOk(log, registry.Model(), result.value)
  {
    hide WellFormed, AtMost, Verdict, ProbedAll, Probed, RepeatsAreRetries, Eligible, FoundOk, ResultOk, Resolved, Resolutions,
      Finds, NoAborts, EndsAborted, Concluded, AllEligible, Worth, Again, IncludingAll, Probeworthy, Rounds, DefaultTargets,
      Distinct, D.DeviceRegistry.Valid, D.DeviceRegistry.Model;
    var wanted := if targets == [] then DefaultTargets() else targets;
    var pending := Dedupe(wanted);
    ghost var first := pending;
    var found: seq<EntryId>, registered: set<Addr> := [], {};
    ghost var start := registry.Model();
    ValidIsWellFormed(registry);
    probes := [];
    NoProbesYet(registry.env, start, world, source);
    assert [] + Rounds(world, source, first, 0, 4) == Rounds(world, source, first, 0, 4);
    var pass := 0;
    while pass <= MAX_PASSES && pending != []
      invariant 0 <= pass <= MAX_PASSES + 1
      invariant registry.Valid() && old(registry.entries.Keys) <= registry.entries.Keys
      invariant registry.Model() == ProbedAll(registry.env, start, world, source, probes)
      invariant Findings(found, registered) == Finds(Log(registry.env, start, world, source, probes))
      invariant NoAborts(world, source, probes)
      invariant Rounds(world, source, first, 0, 4) == probes + Rounds(world, source, pending, |probes|, MAX_PASSES + 1 - pass)
      decreases MAX_PASSES + 1 - pass
    {
      var ok, again;
      ghost var rest := Rounds(world, source, pending, |probes|, MAX_PASSES + 1 - pass);
      ghost var before := probes;
      RoundNext(world, source, pending, |probes|, MAX_PASSES + 1 - pass);
      ok, again, found, registered, probes := ScanPass(registry, world, source, pending, found, registered, probes, start);
      if !ok {
        assert probes <= before + rest;
        ProbedLaws(world, source, wanted, targets, probes);
        return None, probes;
      }
      pass := pass + 1;
      if again == [] || pass > MAX_PASSES {
        RoundsEnd(world, source, again, |probes|, MAX_PASSES + 1 - pass);
        break;
      }
      pending := Dedupe(again);
    }
    RoundsDone(world, source, pending, |probes|, MAX_PASSES + 1 - pass);
    ProbedLaws(world, source, wanted, targets, probes);
    var canonical := CanonicalizeEntries(registry, found);
    ghost var log := Log(registry.env, start, world, source, probes);
    ScanEnds(log, registry.Model(), found, registered, canonical);
    result := Some(canonical);
  }

  lemma ValidIsWellFormed(registry: D.DeviceRegistry)
    requires registry.Valid()
    ensures WellFormed(registry.env, registry.Model())
  {}

  lemma ScanEnds(log: Log, t: Registry, found: seq<EntryId>, registered: set<Addr>, result: seq<EntryId>)
    requires WellFormed(log.env, log.start) && t == ProbedAll(log.env, log.start, log.world, log.source, log.probes)
    requires Findings(found, registered) == Finds(log)
    requires forall e :: e in result <==> exists i :: 0 <= i < |found| && Resolved(t, found[i]) == Some(e)
    ensures ResultOk(log, t, result)
  {
    hide WellFormed, ProbedAll, Finds, FoundOk, ResultOk, Resolved;
    FindsOk(log);
    FoundResolves(log, t, found, registered, result);
  }

  lemma RoundsEnd(world: World, source: Addr, again: seq<Addr>, n: nat, left: nat)
    requires again == [] || left == 0
    ensures Rounds(world, source, IncludingAll([], again), n, left) == []
  {}

  lemma NoProbesYet(env: Protocol, s: Registry, world: World, source: Addr)
    ensures ProbedAll(env, s, world, source, []) == s
    ensures Finds(Log(env, s, world, source, [])) == Findings([], {})
    ensures NoAborts(world, source, [])
  {}

  // What holds of every log that the rounds of a scan begin with.
  lemma ProbedLaws(world: World, source: Addr, wanted: seq<Addr>, targets: seq<Addr>, probes: seq<Addr>)
    requires wanted == if targets == [] then DefaultTargets() else targets
    requires probes <= Rounds(world, source, IncludingAll([], wanted), 0, 4)
    ensures AtMost(probes, 4) && RepeatsAreRetries(world, source, probes)
    ensures forall a :: a in probes ==> Probeworthy(world, targets, a)
    ensures probes == Rounds(world, source, IncludingAll([], wanted), 0, 4) ==>
      forall a :: Probeworthy(world, targets, a) && !Concluded(world, source, probes, a) ==> multiset(probes)[a] == 4
  {
    hide Verdict, Eligible, Concluded, Rounds, IncludingAll, Probeworthy, Wanted;
    var all := Rounds(world, source, IncludingAll([], wanted), 0, 4);
    NothingProbed(world, source, wanted);
    EmptyIsDistinct();
    IncludingAllMembers([], wanted);
    RoundsProbeFully(world, source, [], IncludingAll([], wanted), wanted, 0, 4);
    assert [] + all == all;
    forall a: Addr ensures a in wanted && Eligible(world, a) <==> Probeworthy(world, targets, a) { WantedAre(world, targets, a); }
    FewerAtMost(all, probes, 4);
    assert forall i :: 0 <= i < |probes| ==> probes[i] == all[i];
  }

  lemma NothingProbed(world: World, source: Addr, wanted: seq<Addr>)
    ensures BeforeRound(world, source, [], IncludingAll([], wanted), wanted, 0)
  {
    hide Verdict, Eligible, IncludingAll;
    EmptyIsDistinct();
    IncludingAllMembers([], wanted);
  }

  lemma FewerAtMost(all: seq<Addr>, probes: seq<Addr>, n: nat)
    requires probes <= all && AtMost(all, n)
    ensures AtMost(probes, n)
  {
    assert all == probes + all[|probes|..];
    forall a: Addr ensures multiset(probes)[a] <= n { assert multiset(all)[a] == multiset(probes)[a] + multiset(all[|probes|..])[a]; }
  }
}
