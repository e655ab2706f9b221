// When the topology graph stays inside the address groups.
module RegistryTopology {
  import opened Numerals
  import opened Identity
  import opened RegistryState
  import opened RegistryInvariant
  import opened RegistrySteps
  import opened RegistryAliasSteps
  import opened RegistryIndexRuns
  import opened RegistryProvenance
  import opened RegistrySlots
  import opened RegistryTheorems
  import opened RegistryGroups

  /** Every topology edge joins two addresses of one entry. */
  ghost predicate EdgesInside(s: Registry)
  {
    forall x: Addr, y: Addr :: y in Edges(s.topology, x) ==> ExistingAt(s, x) == ExistingAt(s, y)
  }

  /** An alias that takes an address with edges of its own out of another entry. */
  ghost predicate Severs(s: Registry, step: Step)
  {
    step.Alias? && step.a in s.entries && step.b in s.entries && s.entries[step.a] != s.entries[step.b] &&
    Edges(s.topology, step.b) != {}
  }

  lemma EdgesRegistered(topology: map<Addr, set<Addr>>, entries: map<Addr, EntryId>, x: Addr, y: Addr)
    requires TopologyOk(topology, entries) && y in Edges(topology, x)
    ensures x in entries && y in entries && x != y && x in Edges(topology, y)
  {
    assert x in Edges(topology, y);
  }

  lemma InsideAt(s: Registry, x: Addr, y: Addr)
    requires TopologyOk(s.topology, s.entries) && EdgesInside(s) && y in Edges(s.topology, x)
    ensures x in s.entries && y in s.entries && x != y && s.entries[x] == s.entries[y]
  {
    hide Edges, TopologyOk;
    EdgesRegistered(s.topology, s.entries, x, y);
    assert ExistingAt(s, x) == ExistingAt(s, y);
  }

  // An edge between two addresses that resolve to one entry.
  lemma EdgeHeld(s: Registry, x: Addr, y: Addr)
    requires x in s.entries && y in s.entries && s.entries[x] == s.entries[y]
    ensures ExistingAt(s, x) == ExistingAt(s, y)
  {}

  lemma SameEdges(s: Registry, t: Registry)
    requires EdgesInside(s) && t.topology == s.topology && t.entries == s.entries
    ensures EdgesInside(t)
  {
    hide Edges;
    forall x: Addr, y: Addr | y in Edges(t.topology, x) ensures ExistingAt(t, x) == ExistingAt(t, y) {
      assert ExistingAt(s, x) == ExistingAt(s, y);
    }
  }

  // ---- observations ------------------------------------------------------------------

  lemma ObservationTopology(env: Protocol, s: Registry, step: Step)
    requires WellFormed(env, s) && Observation(step).Some? && !Decide(s, Observation(step).value).retained
    ensures Do(env, s, step).topology ==
      if Detaches(s, Observation(step).value) then ForgetAddress(s.topology, Observation(step).value.address) else s.topology
  {
    hide WellFormed, Core, Admit, Decide, Register, RegisterMarked, Detaches, ForgetAddress, SlotsGrow, SameAuthority;
    hide MarkSlot, ConfirmScan, AliasAddresses, AdmitCompanion;
    var info := Observation(step).value;
    WellFormedCore(env, s);
    AdmitSlots(s, info);
    match step {
      case Observe(_, now) => RegisterAfterAdmit(env, s, info, now);
      case Seed(_, role, at) => MarkedAfterAdmit(env, s, info, SeedMark(role, at));
      case Passive(_, role, at) => MarkedAfterAdmit(env, s, info, PassiveMark(role, at));
    }
  }

  lemma RegroupedEdge(s: Registry, info: DeviceInfo, x: Addr, y: Addr)
    requires Core(s) && !Decide(s, info).retained && x in s.entries && y in s.entries && s.entries[x] == s.entries[y]
    requires Detaches(s, info) ==> info.address !in {x, y}
    ensures x in Regrouped(s, info) && y in Regrouped(s, info) && Regrouped(s, info)[x] == Regrouped(s, info)[y]
  {
    hide Decide, Core, Detaches, Regrouped;
    RegroupedKeys(s, info);
    if Regrouped(s, info)[x] != Regrouped(s, info)[y] { RegroupedSplits(s, info, x, y); }
  }

  lemma RegroupedKeys(s: Registry, info: DeviceInfo)
    ensures Regrouped(s, info).Keys == s.entries.Keys + {info.address}
  {
    hide Decide;
  }

  lemma ObservationInside(env: Protocol, s: Registry, step: Step)
    requires WellFormed(env, s) && Observation(step).Some? && EdgesInside(s)
    ensures EdgesInside(Do(env, s, step))
  {
    hide WellFormed, Core, Do, Decide, Regrouped, Detaches, Edges, TopologyOk, ForgetAddress, ExistingAt;
    WellFormedCore(env, s);
    TopologyOf(s);
    var info := Observation(step).value;
    if Decide(s, info).retained {
      RetainedStep(env, s, step);
    } else {
      ObservationTopology(env, s, step);
      ObservationGroups(env, s, step);
      RegroupedKeys(s, info);
      ForgetKeeps(s.topology, s.entries, info.address);
      var t := Do(env, s, step);
      forall x: Addr, y: Addr | y in Edges(t.topology, x) ensures ExistingAt(t, x) == ExistingAt(t, y) {
        assert y in Edges(s.topology, x);
        InsideAt(s, x, y);
        RegroupedEdge(s, info, x, y);
        EdgeHeld(t, x, y);
      }
    }
  }

  // ---- aliases -----------------------------------------------------------------------

  lemma YieldTopology(s: Registry, canonical: EntryId, secondary: EntryId, a: Addr)
    ensures Yield(s, canonical, secondary, a).topology == s.topology
  {
    hide Without, RetainBinding, FacesOf, AdoptSlots, Absorb, PublishedKey, PublishedRows, Canonical, Key;
  }

  lemma JoinTopology(s: Registry, canonical: EntryId, a: Addr)
    ensures JoinAlias(s, canonical, a).topology == s.topology
  {
    hide Yield, FacesOf, AdoptSlots, Including;
    var device := SlotAt(s.table, a).device;
    if device.Some? && device.value != canonical { YieldTopology(s, canonical, device.value, a); }
  }

  /** The edges after an alias: its own is recorded exactly when either operand resolves. */
  lemma AliasTopology(env: Protocol, s: Registry, a: Addr, b: Addr)
    requires WellFormed(env, s)
    ensures AliasAddresses(env, s, a, b).topology ==
      if a in s.entries || b in s.entries then RecordEdge(s.topology, a, b) else s.topology
  {
    hide WellFormed, AliasGroups, JoinAlias, EnsureSlot, AliasAddresses, RecordEdge;
    AliasCases(env, s, a, b);
    AliasFrame(env, s, a, b);
    var s0 := EnsureSlot(EnsureSlot(s, a), b);
    if a in s.entries {
      JoinEntries(s0, s.entries[a], b);
      JoinTopology(s0, s.entries[a], b);
    } else if b in s.entries {
      JoinEntries(s0, s.entries[b], a);
      JoinTopology(s0, s.entries[b], a);
    }
  }

  lemma RecordedEdges(topology: map<Addr, set<Addr>>, a: Addr, b: Addr, x: Addr)
    ensures Edges(RecordEdge(topology, a, b), x) ==
      Edges(topology, x) + (if a == b then {} else if x == a then {b} else if x == b then {a} else {})
  {}

  // What an alias does to one edge that was inside an entry.
  lemma AliasedEdge(s: Registry, a: Addr, b: Addr, x: Addr, y: Addr)
    requires TopologyOk(s.topology, s.entries) && EdgesInside(s) && y in Edges(s.topology, x)
    requires a in s.entries && b in s.entries && s.entries[a] != s.entries[b] ==> Edges(s.topology, b) == {}
    ensures x in Aliased(s, a, b) && y in Aliased(s, a, b) && Aliased(s, a, b)[x] == Aliased(s, a, b)[y]
  {
    hide Edges, TopologyOk;
    InsideAt(s, x, y);
    EdgesRegistered(s.topology, s.entries, x, y);
  }

  lemma AliasInside(env: Protocol, s: Registry, step: Step)
    requires WellFormed(env, s) && step.Alias? && EdgesInside(s) && !Severs(s, step)
    ensures EdgesInside(Do(env, s, step))
  {
    hide WellFormed, Core, Do, Edges, TopologyOk, RecordEdge, Aliased, ExistingAt;
    var a, b, t := step.a, step.b, Do(env, s, step);
    WellFormedCore(env, s);
    TopologyOf(s);
    AliasStep(env, s, step);
    AliasEntries(env, s, a, b);
    AliasTopology(env, s, a, b);
    forall x: Addr, y: Addr | y in Edges(t.topology, x) ensures ExistingAt(t, x) == ExistingAt(t, y) {
      RecordedEdges(s.topology, a, b, x);
      if y in Edges(s.topology, x) { AliasedEdge(s, a, b, x, y); } else { AliasedPair(s, a, b); }
      EdgeHeld(t, x, y);
    }
  }

  lemma AliasedPair(s: Registry, a: Addr, b: Addr)
    requires a in s.entries || b in s.entries
    ensures var t := Aliased(s, a, b); a in t && b in t && t[a] == t[b]
  {}

  lemma AliasSevers(env: Protocol, s: Registry, step: Step)
    requires WellFormed(env, s) && EdgesInside(s) && Severs(s, step)
    ensures !EdgesInside(Do(env, s, step))
  {
    hide WellFormed, Core, Do, Edges, TopologyOk, RecordEdge;
    var a, b, t := step.a, step.b, Do(env, s, step);
    WellFormedCore(env, s);
    TopologyOf(s);
    AliasStep(env, s, step);
    AliasEntries(env, s, a, b);
    AliasTopology(env, s, a, b);
    var c :| c in Edges(s.topology, b);
    InsideAt(s, b, c);
    RecordedEdges(s.topology, a, b, b);
    assert c in Edges(t.topology, b);
    assert ExistingAt(t, b) == Some(s.entries[a]) && ExistingAt(t, c) == Some(s.entries[b]);
  }

  // ---- every step, every run ----------------------------------------------------------------

  lemma QuietTopology(env: Protocol, s: Registry, step: Step)
    requires WellFormed(env, s) && Observation(step).None? && !step.Alias?
    ensures Do(env, s, step).topology == s.topology
  {
    hide WellFormed, MarkSlot, ConfirmScan, AdmitCompanion, Register, RegisterMarked, AliasAddresses;
    match step
    case AddProvider =>
    case MarkSeed(a, role, at) => MarkSlotAuthority(env, s, a, SeedMark(role, at));
    case MarkPassive(a, role, at) => MarkSlotAuthority(env, s, a, PassiveMark(role, at));
    case Confirm(a, now) => ConfirmScanAuthority(env, s, a, now);
    case Companion(source, at) => CompanionAuthority(env, s, source, at);
  }

  /** A step keeps every edge inside one entry if and only if it is not an alias that takes an address with edges
      of its own out of another entry. */
  lemma StepEdgesExact(env: Protocol, s: Registry, step: Step)
    requires WellFormed(env, s) && EdgesInside(s)
    ensures EdgesInside(Do(env, s, step)) <==> !Severs(s, step)
  {
    hide WellFormed, Do, Edges, EdgesInside;
    if Observation(step).Some? {
      ObservationInside(env, s, step);
    } else if Severs(s, step) {
      AliasSevers(env, s, step);
    } else if step.Alias? {
      AliasInside(env, s, step);
    } else {
      QuietGroups(env, s, step);
      QuietTopology(env, s, step);
      SameEdges(s, Do(env, s, step));
    }
  }

  /** No alias of the run severs an edge in the state it meets. */
  ghost predicate Unsevered(env: Protocol, s: Registry, steps: seq<Step>)
  {
    forall i :: 0 <= i < |steps| ==> !Severs(Run(env, s, steps[..i]), steps[i])
  }

  lemma FrontUnsevered(env: Protocol, s: Registry, steps: seq<Step>)
    requires Unsevered(env, s, steps) && steps != []
    ensures Unsevered(env, s, steps[..|steps| - 1])
    ensures !Severs(Run(env, s, steps[..|steps| - 1]), steps[|steps| - 1])
  {
    hide Run, Severs;
    var front := steps[..|steps| - 1];
    assert forall i :: 0 <= i < |front| ==> front[..i] == steps[..i] && front[i] == steps[i];
  }

  /** Over a run without such aliases every edge stays inside one entry. */
  lemma {:induction false} RunsKeepEdgesInside(env: Protocol, s: Registry, steps: seq<Step>)
    requires WellFormed(env, s) && EdgesInside(s) && Unsevered(env, s, steps)
    ensures EdgesInside(Run(env, s, steps))
  {
    if steps != [] {
      hide WellFormed, Do, Severs, EdgesInside;
      var n := |steps| - 1;
      FrontUnsevered(env, s, steps);
      RunsKeepEdgesInside(env, s, steps[..n]);
      RunsKeep(env, s, steps[..n]);
      StepEdgesExact(env, Run(env, s, steps[..n]), steps[n]);
    }
  }

  // ---- a run that leaves an edge across two entries ---------------------------------------------

  function Sparse(address: Addr): DeviceInfo
  {
    DeviceInfo(address, "", "", "", "", "", "")
  }

  lemma SparseHasNoKey(address: Addr)
    ensures Key(Canonical(Sparse(address))) == ""
  {
    NormalizeIdempotent("");
  }

  // A sparse observation of an unknown address opens an entry of its own.
  lemma SparseOpens(env: Protocol, s: Registry, address: Addr, now: Time)
    requires WellFormed(env, s) && address !in s.entries
    ensures var t := Do(env, s, Observe(Sparse(address), now));
      WellFormed(env, t) && t.topology == s.topology && t.entries == s.entries[address := s.next]
  {
    hide WellFormed, Core, Do, Key, Canonical, Admit, ForgetAddress;
    var step := Observe(Sparse(address), now);
    SparseHasNoKey(address);
    StepKeeps(env, s, step);
    OpensDecision(s, Sparse(address));
    hide Decide;
    ObservationGroups(env, s, step);
    ObservationTopology(env, s, step);
  }

  lemma OpensDecision(s: Registry, info: DeviceInfo)
    requires Key(Canonical(info)) == "" && info.address !in s.entries
    ensures !Decide(s, info).retained && !Detaches(s, info) && Decide(s, info).target.None? && !Decide(s, info).merge
  {
    hide Key, Canonical;
  }

  lemma NewHandle(env: Protocol, s: Registry, a: Addr)
    requires WellFormed(env, s) && a in s.entries
    ensures s.entries[a] != s.next
  {
    hide Core;
    WellFormedCore(env, s);
    NextIsNew(s, a);
  }

  function SeveringRun(now: Time): seq<Step>
  {
    [Observe(Sparse(1), now), Alias(1, 2), Observe(Sparse(3), now), Alias(3, 1)]
  }

  lemma FourSteps(env: Protocol, w: Step, x: Step, y: Step, z: Step)
    ensures Run(env, EMPTY_REGISTRY, [w, x, y, z]) ==
            Do(env, Do(env, Do(env, Do(env, EMPTY_REGISTRY, w), x), y), z)
  {
    hide Do;
    assert [w, x, y, z][..3] == [w, x, y] && [w, x, y][..2] == [w, x] && [w, x][..1] == [w] && [w][..0] == [];
    assert Run(env, EMPTY_REGISTRY, []) == EMPTY_REGISTRY;
    assert Run(env, EMPTY_REGISTRY, [w]) == Do(env, EMPTY_REGISTRY, w);
    assert Run(env, EMPTY_REGISTRY, [w, x]) == Do(env, Do(env, EMPTY_REGISTRY, w), x);
  }

  // The first two steps: one entry for 1 and 2, and their edge.
  lemma PairAliased(env: Protocol, now: Time)
    ensures var s := Do(env, Do(env, EMPTY_REGISTRY, Observe(Sparse(1), now)), Alias(1, 2));
      WellFormed(env, s) && s.entries.Keys == {1, 2} && s.entries[1] == s.entries[2] && 2 in Edges(s.topology, 1)
  {
    hide WellFormed, Do, RecordEdge, Edges;
    EmptyWellFormed(env);
    SparseOpens(env, EMPTY_REGISTRY, 1, now);
    var s1 := Do(env, EMPTY_REGISTRY, Observe(Sparse(1), now));
    StepKeeps(env, s1, Alias(1, 2));
    AliasStep(env, s1, Alias(1, 2));
    AliasEntries(env, s1, 1, 2);
    AliasTopology(env, s1, 1, 2);
    RecordedEdges(s1.topology, 1, 2, 1);
  }

  // Then an address of its own takes 1 away.
  lemma OneTaken(env: Protocol, s: Registry, now: Time)
    requires WellFormed(env, s) && s.entries.Keys == {1, 2} && s.entries[1] == s.entries[2] && 2 in Edges(s.topology, 1)
    ensures var t := Do(env, Do(env, s, Observe(Sparse(3), now)), Alias(3, 1));
      2 in Edges(t.topology, 1) && 1 in t.entries && 2 in t.entries && t.entries[1] != t.entries[2]
  {
    hide WellFormed, Do, RecordEdge, Edges;
    NewHandle(env, s, 1);
    SparseOpens(env, s, 3, now);
    var t := Do(env, s, Observe(Sparse(3), now));
    AliasStep(env, t, Alias(3, 1));
    AliasEntries(env, t, 3, 1);
    AliasTopology(env, t, 3, 1);
    RecordedEdges(t.topology, 3, 1, 1);
  }

  /** Aliasing 1 and 2, then 3 and 1, leaves 1 with 3 and its edge to 2 behind. */
  lemma SeveredEdge(env: Protocol, now: Time)
    ensures var s := Run(env, EMPTY_REGISTRY, SeveringRun(now));
      2 in Edges(s.topology, 1) && 1 in s.entries && 2 in s.entries && s.entries[1] != s.entries[2] && !EdgesInside(s)
  {
    hide WellFormed, Do, Edges, Run;
    PairAliased(env, now);
    OneTaken(env, Do(env, Do(env, EMPTY_REGISTRY, Observe(Sparse(1), now)), Alias(1, 2)), now);
    FourSteps(env, Observe(Sparse(1), now), Alias(1, 2), Observe(Sparse(3), now), Alias(3, 1));
    var s := Run(env, EMPTY_REGISTRY, SeveringRun(now));
    assert ExistingAt(s, 1) != ExistingAt(s, 2);
  }
}
