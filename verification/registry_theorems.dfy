// Theorems over every run of the registry: the identity index and the witnesses.
module RegistryTheorems {
  import opened Numerals
  import opened Identity
  import opened RegistryState
  import opened RegistryInvariant
  import opened RegistrySteps
  import opened RegistryAliasSteps
  import opened RegistryIndexTheorems
  import opened RegistryIndexRuns
  import opened RegistryProvenance

  // ---- the index stays current -------------------------------------------------------

  function Observation(step: Step): Option<DeviceInfo>
  {
    match step
    case Observe(info, _) => Some(info)
    case Seed(info, _, _) => Some(info)
    case Passive(info, _, _) => Some(info)
    case _ => None
  }

  ghost predicate BlankStep(s: Registry, step: Step)
  {
    Observation(step).Some? && BlankRefresh(s, Observation(step).value)
  }

  /** A step keeps every claimed key current exactly when it is not a blank refresh. */
  lemma StepIndexExact(env: Protocol, s: Registry, step: Step)
    requires WellFormed(env, s) && IndexCurrent(s)
    ensures IndexCurrent(Do(env, s, step)) <==> !BlankStep(s, step)
  {
    hide WellFormed, Register, RegisterMarked, MarkSlot, ConfirmScan, AliasAddresses, AdmitCompanion;
    hide IndexCurrent, BlankRefresh, SameAuthority;
    match step
    case AddProvider => SameIndexAs(s, Tick(s));
    case Observe(info, now) => RegisterIndexExact(env, s, info, now);
    case Seed(info, role, at) => RegisterMarkedIndexExact(env, s, info, SeedMark(role, at));
    case Passive(info, role, at) => RegisterMarkedIndexExact(env, s, info, PassiveMark(role, at));
    case MarkSeed(a, role, at) =>
      MarkSlotAuthority(env, s, a, SeedMark(role, at));
      SameAuthorityIndex(s, MarkSlot(s, a, SeedMark(role, at)));
    case MarkPassive(a, role, at) =>
      MarkSlotAuthority(env, s, a, PassiveMark(role, at));
      SameAuthorityIndex(s, MarkSlot(s, a, PassiveMark(role, at)));
    case Confirm(a, now) =>
      ConfirmScanAuthority(env, s, a, now);
      SameAuthorityIndex(s, ConfirmScan(s, a, now));
    case Alias(a, b) => AliasIndex(env, s, a, b);
    case Companion(source, at) =>
      CompanionAuthority(env, s, source, at);
      SameAuthorityIndex(s, AdmitCompanion(env, s, source, at));
  }

  /** No step of the run is a blank refresh in the state it meets. */
  ghost predicate Unblanked(env: Protocol, s: Registry, steps: seq<Step>)
  {
    forall i :: 0 <= i < |steps| ==> !BlankStep(Run(env, s, steps[..i]), steps[i])
  }

  lemma FrontUnblanked(env: Protocol, s: Registry, steps: seq<Step>)
    requires Unblanked(env, s, steps) && steps != []
    ensures Unblanked(env, s, steps[..|steps| - 1])
    ensures !BlankStep(Run(env, s, steps[..|steps| - 1]), steps[|steps| - 1])
  {
    hide Run, BlankStep;
    var front := steps[..|steps| - 1];
    assert forall i :: 0 <= i < |front| ==> front[..i] == steps[..i] && front[i] == steps[i];
  }

  lemma {:induction false} RunsKeepIndex(env: Protocol, s: Registry, steps: seq<Step>)
    requires WellFormed(env, s) && IndexCurrent(s) && Unblanked(env, s, steps)
    ensures IndexCurrent(Run(env, s, steps))
  {
    if steps != [] {
      var front, n := steps[..|steps| - 1], |steps| - 1;
      assert steps[..n] == front;
      hide WellFormed, IndexCurrent, Do, BlankStep;
      FrontUnblanked(env, s, steps);
      RunsKeepIndex(env, s, front);
      RunsKeep(env, s, front);
      StepIndexExact(env, Run(env, s, front), steps[n]);
    }
  }

  /** No observation of the run carries a triple member that is blank without being empty. */
  ghost predicate NoBlankMembers(steps: seq<Step>)
  {
    forall i :: 0 <= i < |steps| && Observation(steps[i]).Some? ==>
      var info := Observation(steps[i]).value;
      !Blank(info.manufacturer) && !Blank(info.deviceID) && !Blank(info.serial)
  }

  /** A condition on the inputs alone: without blank members, every run from the empty registry keeps every claimed
      key owned by exactly its claimant. */
  lemma UnblankedInputsKeepIndex(env: Protocol, steps: seq<Step>)
    requires NoBlankMembers(steps)
    ensures IndexCurrent(Run(env, EMPTY_REGISTRY, steps))
  {
    hide Run, Blank, WellFormed, Do;
    EmptyWellFormed(env);
    RunsKeepIndex(env, EMPTY_REGISTRY, steps);
  }

  // ---- a blank refresh does break the index ---------------------------------------------

  const FULL := DeviceInfo(8, "Vaillant", "BAI00", "4711", "", "", "")
  const SPARSE := DeviceInfo(8, " ", "", "", "", "", "")

  lemma FullQualified()
    ensures Key(Canonical(FULL)) != "" && Key(Canonical(SPARSE)) == "" && Blank(" ")
  {
    assert TrimLeft(" ") == "" by { assert " "[1..] == ""; }
    assert Normalize(" ") == "";
    var p := Canonical(FULL);
    assert p.manufacturer != "" && p.deviceID != "";
    assert p.serial == "4711";
    assert Normalize("4711") == "4711";
    assert TrimZeros("4711") == "4711";
    assert !InvalidSerialSentinel("4711");
  }

  /** One complete observation, then one whose manufacturer is a space. */
  lemma BlankRefreshBreaks(env: Protocol, now: Time)
    ensures var s := Run(env, EMPTY_REGISTRY, [Observe(FULL, now)]);
      IndexCurrent(s) && BlankRefresh(s, SPARSE) &&
      !IndexCurrent(Run(env, EMPTY_REGISTRY, [Observe(FULL, now), Observe(SPARSE, now)]))
  {
    var first := [Observe(FULL, now)];
    var both := [Observe(FULL, now), Observe(SPARSE, now)];
    var s := Run(env, EMPTY_REGISTRY, first);
    assert first[..0] == [] && both[..1] == first;
    assert Run(env, EMPTY_REGISTRY, []) == EMPTY_REGISTRY;
    assert s == Register(env, EMPTY_REGISTRY, FULL, now);
    FullQualified();
    EmptyWellFormed(env);
    FirstRegistration(env, FULL, now);
    hide Register, Canonical, Key, Blank, WellFormed;
    RunsKeep(env, EMPTY_REGISTRY, first);
    SparseAgrees(SPARSE, At(s, s.entries[8]));
    RegisterIndexExact(env, s, SPARSE, now);
  }

  lemma SparseAgrees(info: DeviceInfo, d: DeviceEntry)
    requires info == SPARSE && d.identityKey != "" && Key(d.physical) == d.identityKey
    ensures PreservesAuthority(info, d)
  {
    assert TrimLeft(" ") == "" by { assert " "[1..] == ""; }
    hide Key;
  }

  /** The first complete observation of an empty registry publishes its triple. */
  lemma FirstRegistration(env: Protocol, info: DeviceInfo, now: Time)
    requires Key(Canonical(info)) != ""
    ensures var s := Register(env, EMPTY_REGISTRY, info, now);
      info.address in s.entries && IndexCurrent(s) &&
      At(s, s.entries[info.address]).identityKey == Key(Canonical(info)) &&
      Key(At(s, s.entries[info.address]).physical) == Key(Canonical(info))
  {
    EmptyWellFormed(env);
    var d := Decide(EMPTY_REGISTRY, info);
    hide Canonical, Key;
    assert d == Decision(None, None, None, false, false, false);
    RegisterIndexExact(env, EMPTY_REGISTRY, info, now);
    RegisterAfterAdmit(env, EMPTY_REGISTRY, info, now);
    AdmitKeeps(EMPTY_REGISTRY, info);
    FirstAdmission(info);
    hide Admit, Register;
    var t, s := Admit(EMPTY_REGISTRY, info), Register(env, EMPTY_REGISTRY, info, now);
    var e := AdmittedEntry(EMPTY_REGISTRY, info);
    assert s.entries[info.address] == e;
    assert At(s, e).identityKey == At(t, e).identityKey;
    assert Owned(s.identity, s.arena, e);
  }

  lemma FirstAdmission(info: DeviceInfo)
    requires Key(Canonical(info)) != "" && Decide(EMPTY_REGISTRY, info) == Decision(None, None, None, false, false, false)
    ensures var e := AdmittedEntry(EMPTY_REGISTRY, info);
      At(Admit(EMPTY_REGISTRY, info), e).identityKey == Key(Canonical(info))
  {
    hide Canonical, Key, StoredInfo, RetainBinding;
  }

  // ---- provenance of keys -------------------------------------------------------------

  function RunKeys(steps: seq<Step>): set<string>
  {
    if steps == [] then {} else RunKeys(steps[..|steps| - 1]) + StepKeys(steps[|steps| - 1])
  }

  lemma {:induction false} RunKeysObserved(steps: seq<Step>, k: string)
    requires k in RunKeys(steps)
    ensures exists i :: 0 <= i < |steps| && Observation(steps[i]).Some? &&
                        Key(Canonical(Observation(steps[i]).value)) == k
  {
    var n := |steps| - 1;
    if k in StepKeys(steps[n]) {
      hide Key, Canonical;
      assert Observation(steps[n]).Some?;
    } else {
      RunKeysObserved(steps[..n], k);
      hide Key, Canonical;
      var i :| 0 <= i < n && Observation(steps[..n][i]).Some? && Key(Canonical(Observation(steps[..n][i]).value)) == k;
      assert steps[i] == steps[..n][i];
    }
  }

  lemma {:induction false} RunClaimsObserved(env: Protocol, steps: seq<Step>)
    ensures ClaimsWithin(Run(env, EMPTY_REGISTRY, steps), RunKeys(steps))
  {
    if steps != [] {
      var n := |steps| - 1;
      EmptyWellFormed(env);
      hide WellFormed, Do, ClaimsWithin;
      RunClaimsObserved(env, steps[..n]);
      RunsKeep(env, EMPTY_REGISTRY, steps[..n]);
      StepProvenance(env, Run(env, EMPTY_REGISTRY, steps[..n]), steps[n], RunKeys(steps[..n]));
    }
  }

  /** Every published row is the complete triple of one past observation. */
  lemma RowsWereObserved(env: Protocol, steps: seq<Step>, k: string)
    requires k in Run(env, EMPTY_REGISTRY, steps).identity
    ensures exists i :: 0 <= i < |steps| && Observation(steps[i]).Some? &&
                        Key(Canonical(Observation(steps[i]).value)) == k
  {
    EmptyWellFormed(env);
    RunsKeep(env, EMPTY_REGISTRY, steps);
    RunClaimsObserved(env, steps);
    var s := Run(env, EMPTY_REGISTRY, steps);
    hide Run, RunKeys, Canonical, Key;
    assert At(s, s.identity[k]).identityKey == k && k != "";
    RunKeysObserved(steps, k);
  }

  // ---- rows of bystanders ----------------------------------------------------------------

  function Operands(step: Step): set<Addr>
  {
    match step
    case Observe(info, _) => {info.address}
    case Seed(info, _, _) => {info.address}
    case Passive(info, _, _) => {info.address}
    case Alias(a, b) => {a, b}
    case _ => {}
  }

  ghost predicate KeepsClaim(s: Registry, t: Registry, e: EntryId)
  {
    e in t.order && At(t, e).identityKey == At(s, e).identityKey
  }

  lemma AdmitKeepsClaim(s: Registry, info: DeviceInfo, e: EntryId)
    requires Core(s) && IndexCurrent(s) && !Decide(s, info).retained
    requires e in s.order && info.address !in At(s, e).addresses
    ensures KeepsClaim(s, Admit(s, info), e)
  {
    AdmitClaims(s, info);
    AdmitIndex(s, info);
    DecisionFacts(s, info);
    AdmitKeeps(s, info);
    if Decide(s, info).incumbent == Some(e) { IncumbentKey(s, Key(Canonical(info)), e); }
    TargetCases(s, info);
    hide Core, Sound, Decide, Admit, AdmittedEntry, IndexCurrent, BlankRefresh, Canonical, Key, CurrentOwner;
  }

  // A target that is not the incumbent is the address's own entry or a new one.
  lemma TargetCases(s: Registry, info: DeviceInfo)
    requires Core(s) && !Decide(s, info).retained
    ensures var d := Decide(s, info); var e := AdmittedEntry(s, info);
      (d.target.Some? ==> e == d.target.value) && (d.target.None? ==> e !in s.order)
  {
    SettleFresh(s, info);
    hide Decide, Settle, Core;
  }

  lemma SettleFresh(s: Registry, info: DeviceInfo)
    requires Core(s)
    ensures Settle(s, info, Decide(s, info)).next == s.next && s.next !in s.order
  {
    hide Decide, Key, Canonical, CurrentOwner, Detach, MergeGroup;
    var d := Decide(s, info);
    var s0 := if Key(Canonical(info)) == "" then s else DropStale(s, Key(Canonical(info)));
    if d.existing.Some? && d.existing != d.target {
      DetachNext(s0, d.existing.value, info.address);
      if d.target.Some? { MergeNext(s0, d.target.value, d.existing.value); }
    }
  }

  lemma DetachNext(s: Registry, e: EntryId, a: Addr)
    ensures Detach(s, e, a).next == s.next
  {
    hide RetainBinding, Without, FacesOf, AdoptSlots, ForgetAddress;
  }

  lemma MergeNext(s: Registry, dst: EntryId, src: EntryId)
    ensures MergeGroup(s, dst, src).next == s.next
  {
    hide Absorb, RetainBinding, MoveAll, MoveSlots, IncludingAll, Without;
  }

  lemma JoinKeepsClaim(s: Registry, canonical: EntryId, a: Addr, e: EntryId)
    requires Core(s) && e in s.order && canonical != e && (a in s.entries ==> s.entries[a] != e)
    ensures KeepsClaim(s, JoinAlias(s, canonical, a), e)
  {
    JoinClaims(s, canonical, a);
    hide Core, JoinAlias;
  }

  lemma OtherGroup(s: Registry, a: Addr, e: EntryId)
    requires Core(s) && e in s.order && a !in At(s, e).addresses && a in s.entries
    ensures s.entries[a] != e
  {}

  lemma AliasKeepsClaim(env: Protocol, s: Registry, a: Addr, b: Addr, e: EntryId)
    requires WellFormed(env, s) && e in s.order && a !in At(s, e).addresses && b !in At(s, e).addresses
    ensures KeepsClaim(s, AliasAddresses(env, s, a, b), e)
  {
    hide WellFormed, Core, AliasGroups, JoinAlias, EnsureSlot, AliasAddresses, RecordEdge;
    WellFormedCore(env, s);
    if a in s.entries { OtherGroup(s, a, e); }
    if b in s.entries { OtherGroup(s, b, e); }
    AliasCases(env, s, a, b);
    AliasFrame(env, s, a, b);
    var s0 := EnsureSlot(EnsureSlot(s, a), b);
    WellFormedCore(env, s0);
    if a in s.entries {
      JoinKeepsClaim(s0, s.entries[a], b, e);
    } else if b in s.entries {
      JoinKeepsClaim(s0, s.entries[b], a, e);
    }
  }

  lemma SameAuthorityClaim(s: Registry, t: Registry, u: Registry, e: EntryId)
    requires KeepsClaim(s, t, e) && SameAuthority(t, u) && u.order == t.order
    ensures KeepsClaim(s, u, e)
  {}

  lemma ObservationKeepsClaim(env: Protocol, s: Registry, step: Step, e: EntryId)
    requires WellFormed(env, s) && IndexCurrent(s) && Observation(step).Some?
    requires e in s.order && Operands(step) !! (set x | x in At(s, e).addresses)
    ensures KeepsClaim(s, Do(env, s, step), e)
  {
    hide WellFormed, Core, Admit, Decide, Register, RegisterMarked, SameAuthority, KeepsClaim, IndexCurrent;
    hide MarkSlot, ConfirmScan, AliasAddresses, AdmitCompanion;
    var info := Observation(step).value;
    assert info.address !in At(s, e).addresses by { assert info.address in Operands(step); }
    WellFormedCore(env, s);
    if !Decide(s, info).retained {
      AdmitKeepsClaim(s, info, e);
      match step {
        case Observe(_, now) =>
          RegisterAfterAdmit(env, s, info, now);
          SameAuthorityClaim(s, Admit(s, info), Register(env, s, info, now), e);
        case Seed(_, role, at) =>
          MarkedAfterAdmit(env, s, info, SeedMark(role, at));
          SameAuthorityClaim(s, Admit(s, info), RegisterMarked(env, s, info, SeedMark(role, at)), e);
        case Passive(_, role, at) =>
          MarkedAfterAdmit(env, s, info, PassiveMark(role, at));
          SameAuthorityClaim(s, Admit(s, info), RegisterMarked(env, s, info, PassiveMark(role, at)), e);
      }
    } else {
      RetainedIdle(env, s, info, 0);
      RetainedStep(env, s, step);
      ClaimIdle(s, e);
    }
  }

  lemma RetainedStep(env: Protocol, s: Registry, step: Step)
    requires Observation(step).Some? && Decide(s, Observation(step).value).retained
    ensures Do(env, s, step) == s
  {
    hide Decide, Admit, MarkSlot, ConfirmScan, AliasAddresses, AdmitCompanion, Reconcile, SyncFaces, RecordWitness;
  }

  lemma ObservationTicks(env: Protocol, s: Registry, step: Step)
    requires Observation(step).Some? && !Decide(s, Observation(step).value).retained
    ensures Do(env, s, step).observationGeneration == s.observationGeneration + 1
  {
    var info := Observation(step).value;
    AdmitFrame(s, info);
    hide Decide, Admit, AdmittedEntry, Canonical, Qualified, WitnessCurrent, RecordWitness, Register, Settled;
    match step
    case Observe(_, now) =>
      var complete := Qualified(Canonical(info));
      var stamp := Observed(if complete then CONFIRMED else CANDIDATE, now);
      var u := Settled(Admit(s, info), info.address, AdmittedEntry(s, info), stamp, complete);
      SettledFrame(Admit(s, info), info.address, AdmittedEntry(s, info), stamp, complete);
      RegisterForm(env, s, info, now);
      RecordFrame(env, Reconcile(env, u), info, AdmittedEntry(s, info));
    case Seed(_, role, at) => MarkedTicks(env, s, info, SeedMark(role, at));
    case Passive(_, role, at) => MarkedTicks(env, s, info, PassiveMark(role, at));
  }

  lemma MarkedTicks(env: Protocol, s: Registry, info: DeviceInfo, stamp: Stamp)
    requires !Decide(s, info).retained
    ensures RegisterMarked(env, s, info, stamp).observationGeneration == s.observationGeneration + 1
  {
    hide Decide, Admit, AdmittedEntry, WitnessCurrent, SyncFaces, Stamped;
    AdmitFrame(s, info);
    SettledFrame(Admit(s, info), info.address, AdmittedEntry(s, info), stamp, false);
    assert RegisterMarked(env, s, info, stamp) ==
           Reconcile(env, Settled(Admit(s, info), info.address, AdmittedEntry(s, info), stamp, false));
    hide Settled;
  }

  /** An observation changes nothing at all if and only if its address is known and the current owner of its
      complete triple contradicts its serial or MAC address. */
  lemma ContradictionsChangeNothing(env: Protocol, s: Registry, step: Step)
    requires Observation(step).Some?
    ensures var info := Observation(step).value;
      Do(env, s, step) == s <==> info.address in s.entries && Contradicted(s, info)
  {
    hide Contradicted, Do, Candidate, CanMerge, CompatibleEnrichment, Key, Canonical, Regroups, Kept;
    if Decide(s, Observation(step).value).retained { RetainedStep(env, s, step); } else { ObservationTicks(env, s, step); }
  }

  /** A step leaves alone the claim of every entry that holds none of its operands. */
  lemma StepKeepsClaim(env: Protocol, s: Registry, step: Step, e: EntryId)
    requires WellFormed(env, s) && IndexCurrent(s)
    requires e in s.order && Operands(step) !! (set x | x in At(s, e).addresses)
    ensures KeepsClaim(s, Do(env, s, step), e)
  {
    hide WellFormed, Register, RegisterMarked, MarkSlot, ConfirmScan, AliasAddresses, AdmitCompanion, SameAuthority, IndexCurrent,
      KeepsClaim;
    if Observation(step).Some? {
      ObservationKeepsClaim(env, s, step, e);
    } else {
      assert KeepsClaim(s, s, e) by { ClaimIdle(s, e); }
      match step
      case AddProvider => TickKeepsClaim(s, e);
      case MarkSeed(a, role, at) =>
        MarkSlotAuthority(env, s, a, SeedMark(role, at));
        SameAuthorityClaim(s, s, MarkSlot(s, a, SeedMark(role, at)), e);
      case MarkPassive(a, role, at) =>
        MarkSlotAuthority(env, s, a, PassiveMark(role, at));
        SameAuthorityClaim(s, s, MarkSlot(s, a, PassiveMark(role, at)), e);
      case Confirm(a, now) =>
        ConfirmScanAuthority(env, s, a, now);
        SameAuthorityClaim(s, s, ConfirmScan(s, a, now), e);
      case Alias(a, b) =>
        assert a in Operands(step) && b in Operands(step);
        AliasKeepsClaim(env, s, a, b, e);
      case Companion(source, at) =>
        CompanionAuthority(env, s, source, at);
        SameAuthorityClaim(s, s, AdmitCompanion(env, s, source, at), e);
    }
  }

  lemma ClaimIdle(s: Registry, e: EntryId)
    requires e in s.order
    ensures KeepsClaim(s, s, e)
  {}

  lemma TickKeepsClaim(s: Registry, e: EntryId)
    requires e in s.order
    ensures KeepsClaim(s, Tick(s), e)
  {}

  /** No step takes a row from a live owner that it neither observes nor aliases. */
  lemma RowsAreNotTaken(env: Protocol, s: Registry, step: Step, k: string)
    requires WellFormed(env, s) && IndexCurrent(s) && !BlankStep(s, step)
    requires k in s.identity && Operands(step) !! (set x | x in At(s, s.identity[k]).addresses)
    ensures var t := Do(env, s, step); k in t.identity && t.identity[k] == s.identity[k]
  {
    StepIndexExact(env, s, step);
    WellFormedCore(env, s);
    assert s.identity[k] in s.order && At(s, s.identity[k]).identityKey == k && k != "";
    StepKeepsClaim(env, s, step, s.identity[k]);
    hide Do, WellFormed, Core, Key;
    assert Owned(Do(env, s, step).identity, Do(env, s, step).arena, s.identity[k]);
  }

  // ---- witnesses ---------------------------------------------------------------------------

  /** Looking a witness up succeeds exactly where a record is stored. */
  ghost predicate LookupSucceeds(env: Protocol, s: Registry, a: Addr)
  {
    exists w :: WitnessCurrent(env, s, a, w)
  }

  lemma WitnessLookup(env: Protocol, s: Registry, a: Addr)
    requires WitnessesOk(env, s)
    ensures LookupSucceeds(env, s, a) <==> a in s.witnesses
  {
    hide Key, StableKey, AuthorityOf;
  }

  /** Two witnessed addresses belong to one entry exactly when their witnesses carry one triple. */
  lemma WitnessesPartitionByTriple(env: Protocol, s: Registry, a: Addr, b: Addr)
    requires WitnessesOk(env, s) && a in s.witnesses && b in s.witnesses
    ensures a in s.entries && b in s.entries
    ensures s.entries[a] == s.entries[b] <==>
            SameTriple(AuthorityOf(s.witnesses[a].proof), AuthorityOf(s.witnesses[b].proof))
  {
    var p, q := AuthorityOf(s.witnesses[a].proof), AuthorityOf(s.witnesses[b].proof);
    assert WitnessCurrent(env, s, a, s.witnesses[a].proof) && WitnessCurrent(env, s, b, s.witnesses[b].proof);
    KeyInjective(p, q);
    KeyInjective(q, p);
    KeyFacts(p);
    KeyFacts(q);
    hide Key, AuthorityOf, StableKey;
  }

  // The steps that recorded a witness for address a with this authority.
  ghost predicate DirectlyObserved(steps: seq<Step>, a: Addr, w: Witness)
  {
    exists i :: 0 <= i < |steps| && steps[i].Observe? && steps[i].info.address == a &&
                SameTriple(AuthorityOf(w), Canonical(steps[i].info))
  }

  /** A registration keeps a witness as it was, or records one for its own address: the observed triple under
      the next proof number and the next observation generation. */
  lemma RegisterWitnesses(env: Protocol, s: Registry, info: DeviceInfo, now: Time, a: Addr)
    requires a in Register(env, s, info, now).witnesses
    ensures var w := Register(env, s, info, now).witnesses[a];
      (a in s.witnesses && w == s.witnesses[a]) ||
      (a == info.address && SameTriple(AuthorityOf(w.proof), Canonical(info)) &&
       w.proof.proofGeneration == s.proofGeneration + 1 && w.proof.observationGeneration == s.observationGeneration + 1)
  {
    if !Decide(s, info).retained {
      var complete := Qualified(Canonical(info));
      var stamp := Observed(if complete then CONFIRMED else CANDIDATE, now);
      var e := AdmittedEntry(s, info);
      var t := Settled(Admit(s, info), info.address, e, stamp, complete);
      AdmitFrame(s, info);
      SettledFrame(Admit(s, info), info.address, e, stamp, complete);
      hide Decide, Admit, AdmittedEntry, Qualified, ConfirmTopology, SyncFaces, WitnessCurrent, Key;
      assert Register(env, s, info, now) == RecordWitness(env, Reconcile(env, t), info, e);
      hide Settled;
      var u := Reconcile(env, t);
      hide Reconcile, Register;
      ReconcileSubset(env, t);
      if RecordWitness(env, u, info, e) != u {
        RecordedAuthority(env, u, info, e);
        RecordFrame(env, u, info, e);
      }
    }
  }

  // The row an admitted complete observation ends up with: its own, unless the triple is disputed.
  lemma AdmittedRow(s: Registry, info: DeviceInfo)
    requires Core(s) && IndexCurrent(s) && !Decide(s, info).retained && Key(Canonical(info)) != ""
    ensures var t, e, k := Admit(s, info), AdmittedEntry(s, info), Key(Canonical(info));
      ExistingAt(t, info.address) == Some(e) &&
      if Contradicted(s, info) then !CurrentKey(t, e, k)
      else CurrentKey(t, e, k) && k in t.identity && t.identity[k] == e
  {
    hide Core, Sound, Admit, Decide, AdmittedEntry, Key, Canonical, Contradicted, StableKey, Blank, TopologyOk;
    AdmitKeeps(s, info);
    AdmitIndex(s, info);
    KeyFacts(Canonical(info));
    var t, e := Admit(s, info), AdmittedEntry(s, info);
    assert IndexCurrent(t);
    assert Owned(t.identity, t.arena, e);
  }

  lemma RowCarries(s: Registry, t: Registry, e: EntryId, k: string, a: Addr)
    requires SameAuthority(s, t)
    ensures CurrentKey(t, e, k) == CurrentKey(s, e, k) && t.identity == s.identity && ExistingAt(t, a) == ExistingAt(s, a)
  {
    hide Key, StableKey;
  }

  // Whether a witness is recorded, and which.
  lemma RecordsWhen(env: Protocol, s: Registry, info: DeviceInfo, e: EntryId)
    ensures var t, k := RecordWitness(env, s, info, e), Key(Canonical(info));
      if WitnessAddress(env, info.address) && k != "" && ExistingAt(s, info.address) == Some(e) && CurrentKey(s, e, k) &&
         k in s.identity && s.identity[k] == e
      then t.proofGeneration == s.proofGeneration + 1 && info.address in t.witnesses &&
           t.witnesses[info.address].proof.proofGeneration == t.proofGeneration
      else t == s
  {
    hide Key, Canonical, CurrentKey, WitnessAddress;
  }

  /** A registration records a witness at its address if and only if the observed triple is complete, the address
      is of a master or slave class, and no current owner of the triple contradicts the observation; the witness
      then carries the newest proof number. Otherwise no proof number is used. */
  lemma WitnessRecordedExactly(env: Protocol, s: Registry, info: DeviceInfo, now: Time)
    requires WellFormed(env, s) && IndexCurrent(s)
    ensures var t := Register(env, s, info, now);
      if Qualified(Canonical(info)) && WitnessAddress(env, info.address) && !Contradicted(s, info)
      then t.proofGeneration == s.proofGeneration + 1 && info.address in t.witnesses &&
           t.witnesses[info.address].proof.proofGeneration == t.proofGeneration &&
           SameTriple(AuthorityOf(t.witnesses[info.address].proof), Canonical(info))
      else t.proofGeneration == s.proofGeneration
  {
    hide WellFormed, Core, Admit, Decide, AdmittedEntry, Key, Canonical, Contradicted, CurrentKey, WitnessAddress, AuthorityOf,
      Qualified, RecordWitness, Reconcile, Settled, SameTriple, SameAuthority, IndexCurrent, ExistingAt, Register;
    KeyFacts(Canonical(info));
    WellFormedCore(env, s);
    if Decide(s, info).retained {
      RetainedContradicts(s, info);
      RetainedStep(env, s, Observe(info, now));
      ObserveIsRegister(env, s, info, now);
    } else {
      var complete := Qualified(Canonical(info));
      var stamp := Observed(if complete then CONFIRMED else CANDIDATE, now);
      var e, k := AdmittedEntry(s, info), Key(Canonical(info));
      var u := Settled(Admit(s, info), info.address, e, stamp, complete);
      var r := Reconcile(env, u);
      AdmitFrame(s, info);
      SettledFrame(Admit(s, info), info.address, e, stamp, complete);
      AdmittedFrame(env, s, info, stamp, complete);
      ReconcileFields(env, u);
      RegisterForm(env, s, info, now);
      RecordsWhen(env, r, info, e);
      if k != "" {
        AdmittedRow(s, info);
        RowCarries(Admit(s, info), u, e, k, info.address);
        RowCarries(u, r, e, k, info.address);
        if RecordWitness(env, r, info, e) != r { RecordedAuthority(env, r, info, e); }
      }
    }
  }

  lemma RetainedContradicts(s: Registry, info: DeviceInfo)
    requires Decide(s, info).retained
    ensures Contradicted(s, info)
  {
    hide Contradicted, CompatibleEnrichment;
  }

  lemma ObserveIsRegister(env: Protocol, s: Registry, info: DeviceInfo, now: Time)
    ensures Do(env, s, Observe(info, now)) == Register(env, s, info, now)
  {
    hide Register, RegisterMarked, MarkSlot, ConfirmScan, AliasAddresses, AdmitCompanion;
  }

  lemma ReconcileFields(env: Protocol, s: Registry)
    ensures var t := Reconcile(env, s); t == s.(witnesses := t.witnesses) && SameAuthority(s, t)
  {
    hide WitnessCurrent;
  }

  lemma ReconcileSubset(env: Protocol, s: Registry)
    ensures forall a: Addr :: a in Reconcile(env, s).witnesses ==>
      a in s.witnesses && Reconcile(env, s).witnesses[a] == s.witnesses[a]
  {
    hide WitnessCurrent;
  }

  lemma RecordedAuthority(env: Protocol, s: Registry, info: DeviceInfo, e: EntryId)
    requires RecordWitness(env, s, info, e) != s
    ensures var t := RecordWitness(env, s, info, e);
      info.address in t.witnesses && SameTriple(AuthorityOf(t.witnesses[info.address].proof), Canonical(info)) &&
      t.witnesses[info.address].proof.proofGeneration == s.proofGeneration + 1 &&
      t.witnesses[info.address].proof.observationGeneration == s.observationGeneration
  {
    NormalizedAuthority(info, RecordWitness(env, s, info, e).witnesses[info.address].proof);
    hide Key, CurrentKey, AuthorityOf, Canonical;
  }

  // Every other step only retires records.
  lemma OtherStepWitnesses(env: Protocol, s: Registry, step: Step, a: Addr)
    requires WellFormed(env, s) && !step.Observe? && a in Do(env, s, step).witnesses
    ensures a in s.witnesses && Do(env, s, step).witnesses[a] == s.witnesses[a]
  {
    hide WellFormed, Register, RegisterMarked, MarkSlot, ConfirmScan, AliasAddresses, WitnessCurrent;
    match step
    case AddProvider =>
    case Seed(info, role, at) => MarkedWitnesses(env, s, info, SeedMark(role, at), a);
    case Passive(info, role, at) => MarkedWitnesses(env, s, info, PassiveMark(role, at), a);
    case MarkSeed(b, role, at) => MarkWitnesses(env, s, b, SeedMark(role, at));
    case MarkPassive(b, role, at) => MarkWitnesses(env, s, b, PassiveMark(role, at));
    case Confirm(b, now) => ConfirmWitnesses(env, s, b, now);
    case Alias(b, c) => AliasWitnesses(env, s, b, c, a);
    case Companion(source, at) =>
      if AdmitsCompanion(env, s, source, at) {
        MarkWitnesses(env, s, env.companionOf(source).value, PassiveMark(RoleSlave, at));
      }
  }

  lemma MarkedWitnesses(env: Protocol, s: Registry, info: DeviceInfo, stamp: Stamp, a: Addr)
    requires a in RegisterMarked(env, s, info, stamp).witnesses
    ensures a in s.witnesses && RegisterMarked(env, s, info, stamp).witnesses[a] == s.witnesses[a]
  {
    if !Decide(s, info).retained {
      var t := Settled(Admit(s, info), info.address, AdmittedEntry(s, info), stamp, false);
      AdmitFrame(s, info);
      SettledFrame(Admit(s, info), info.address, AdmittedEntry(s, info), stamp, false);
      hide Decide, Admit, AdmittedEntry, SyncFaces, WitnessCurrent;
      assert RegisterMarked(env, s, info, stamp) == Reconcile(env, t);
      hide Settled, RegisterMarked, Reconcile;
      ReconcileSubset(env, t);
    }
  }

  lemma MarkWitnesses(env: Protocol, s: Registry, a: Addr, stamp: Stamp)
    requires WellFormed(env, s)
    ensures MarkSlot(s, a, stamp).witnesses == s.witnesses
  {
    MarkSlotKeeps(env, s, a, stamp);
    hide MarkSlot, WellFormed;
    if a in s.entries { SettledFrame(s, a, s.entries[a], stamp, false); }
    hide Settled;
  }

  lemma ConfirmScanIdle(s: Registry, a: Addr, now: Time)
    ensures a !in s.entries ==> ConfirmScan(s, a, now) == s
  {
    hide SyncFaces, ConfirmTopology;
  }

  lemma ConfirmWitnesses(env: Protocol, s: Registry, a: Addr, now: Time)
    requires WellFormed(env, s)
    ensures ConfirmScan(s, a, now).witnesses == s.witnesses
  {
    ConfirmScanIdle(s, a, now);
    hide ConfirmScan, Settled, WellFormed;
    ConfirmScanKeeps(env, s, a, now);
    if a in s.entries {
      SettledFrame(s, a, s.entries[a], Observed(CONFIRMED, now), true);
    }
  }

  lemma AliasWitnesses(env: Protocol, s: Registry, a: Addr, b: Addr, x: Addr)
    requires WellFormed(env, s) && x in AliasAddresses(env, s, a, b).witnesses
    ensures x in s.witnesses && AliasAddresses(env, s, a, b).witnesses[x] == s.witnesses[x]
  {
    AliasGroupsKeeps(env, s, a, b);
    hide WellFormed, AliasGroups, WitnessCurrent, RecordEdge, Core;
  }

  /** Every witness of every run carries the triple of a direct observation of its own address. */
  lemma {:induction false} WitnessesWereObserved(env: Protocol, steps: seq<Step>, a: Addr)
    requires a in Run(env, EMPTY_REGISTRY, steps).witnesses
    ensures DirectlyObserved(steps, a, Run(env, EMPTY_REGISTRY, steps).witnesses[a].proof)
  {
    var n := |steps| - 1;
    var s := Run(env, EMPTY_REGISTRY, steps[..n]);
    var w := Run(env, EMPTY_REGISTRY, steps).witnesses[a].proof;
    EmptyWellFormed(env);
    RunsKeep(env, EMPTY_REGISTRY, steps[..n]);
    assert Run(env, EMPTY_REGISTRY, steps) == Do(env, s, steps[n]);
    hide WellFormed, AuthorityOf, Canonical;
    if steps[n].Observe? {
      RegisterWitnesses(env, s, steps[n].info, steps[n].now, a);
    } else {
      OtherStepWitnesses(env, s, steps[n], a);
    }
    hide Do, Run, Register;
    if !(steps[n].Observe? && a == steps[n].info.address && SameTriple(AuthorityOf(w), Canonical(steps[n].info))) {
      assert a in s.witnesses && s.witnesses[a].proof == w;
      WitnessesWereObserved(env, steps[..n], a);
      EarlierObserved(steps, n, a, w);
    }
  }

  lemma EarlierObserved(steps: seq<Step>, n: nat, a: Addr, w: Witness)
    requires n <= |steps| && DirectlyObserved(steps[..n], a, w)
    ensures DirectlyObserved(steps, a, w)
  {
    hide AuthorityOf, Canonical;
    var i :| 0 <= i < n && steps[..n][i].Observe? && steps[..n][i].info.address == a &&
             SameTriple(AuthorityOf(w), Canonical(steps[..n][i].info));
    assert steps[i] == steps[..n][i];
  }
}
