// What a run may do to a slot, to the set of resolving addresses and to topology.
module RegistrySlots {
  import opened Numerals
  import opened Identity
  import opened RegistryState
  import opened RegistryInvariant
  import opened RegistrySteps
  import opened RegistryAliasSteps
  import opened RegistryIndexRuns
  import opened RegistryProvenance
  import opened RegistryTheorems

  /** Confidence only rises; a known source, role or first observation never changes. */
  ghost predicate SlotGrows(x: AddressSlot, y: AddressSlot)
  {
    x.verification <= y.verification &&
    (x.source != SourceUnknown ==> y.source == x.source) &&
    (x.role != RoleUnknown ==> y.role == x.role) &&
    (x.first != 0 ==> y.first == x.first)
  }

  ghost predicate SlotsGrow(s: map<Addr, AddressSlot>, t: map<Addr, AddressSlot>, gone: set<Addr>)
  {
    forall a: Addr :: a in s && a !in gone ==> a in t && SlotGrows(s[a], t[a])
  }

  // ---- registrations ------------------------------------------------------------------

  /** The registration takes the address out of a group it shares with nothing it observed. */
  ghost predicate Detaches(s: Registry, info: DeviceInfo)
  {
    var d := Decide(s, info);
    !d.retained && d.existing.Some? && d.existing != d.target && !d.merge
  }

  /** Only a complete triple detaches, and only one that contradicts the group's stored identity or
      belongs to another group that the address's group cannot join. */
  lemma DetachNeedsConflict(s: Registry, info: DeviceInfo)
    requires Core(s) && Detaches(s, info)
    ensures Qualified(Canonical(info)) && info.address in s.entries
    ensures var known := At(s, s.entries[info.address]);
      (CurrentOwner(s, Key(Canonical(info))).None? && !CanMerge(info, known.info)) ||
      (CurrentOwner(s, Key(Canonical(info))).Some? &&
       (var owner := CurrentOwner(s, Key(Canonical(info))).value;
        owner != s.entries[info.address] &&
        !(CompatibleEnrichment(info, known) && CompatibleEnrichment(At(s, owner).info, known))))
  {
    KeyFacts(Canonical(info));
    hide Canonical, Key, CanMerge, CompatibleEnrichment, CurrentOwner, Core, Qualified;
  }

  // What leaving a group does to slots, addresses and topology.
  ghost predicate SettledEffect(s: Registry, t: Registry, a: Addr, detached: bool)
  {
    SlotsGrow(s.table, t.table, if detached then {a} else {}) &&
    s.entries.Keys - {a} <= t.entries.Keys &&
    t.topology == (if detached then ForgetAddress(s.topology, a) else s.topology)
  }

  lemma SettleSlots(s: Registry, info: DeviceInfo)
    requires Core(s) && !Decide(s, info).retained
    ensures SettledEffect(s, Settle(s, info, Decide(s, info)), info.address, Detaches(s, info))
  {
    DecisionFacts(s, info);
    hide Decide, Core, Sound, Key, Canonical, CurrentOwner, SettledEffect, Detach, MergeGroup, DropStale;
    var d := Decide(s, info);
    var s0 := if Key(Canonical(info)) == "" then s else DropStale(s, Key(Canonical(info)));
    DropStaleCore(s, Key(Canonical(info)));
    EffectOf(s, s0, s0, info.address);
    if d.existing.Some? && d.existing != d.target {
      if d.merge {
        MergeSlots(s0, d.target.value, d.existing.value, info.address);
        EffectOf(s, s0, MergeGroup(s0, d.target.value, d.existing.value), info.address);
      } else {
        DetachSlots(s0, d.existing.value, info.address);
        EffectOf(s, s0, Detach(s0, d.existing.value, info.address), info.address);
      }
    }
  }

  lemma DropStaleCore(s: Registry, k: string)
    requires Core(s)
    ensures var t := DropStale(s, k); Core(t) && t.table == s.table && t.entries == s.entries && t.topology == s.topology
  {
    hide Sound, CurrentOwner, TopologyOk;
    DropStaleKeeps(s, k, {});
  }

  lemma EffectOf(s: Registry, s0: Registry, t: Registry, a: Addr)
    requires s0.table == s.table && s0.entries == s.entries && s0.topology == s.topology
    ensures SettledEffect(s0, t, a, false) ==> SettledEffect(s, t, a, false)
    ensures SettledEffect(s0, t, a, true) ==> SettledEffect(s, t, a, true)
    ensures SettledEffect(s, s0, a, false)
  {
    hide ForgetAddress;
  }

  lemma DetachSlots(s: Registry, e: EntryId, a: Addr)
    requires Core(s) && a in s.entries && s.entries[a] == e
    ensures SettledEffect(s, Detach(s, e, a), a, true)
  {
    hide Core, Detach, ForgetAddress;
    DetachKeeps(s, e, a);
  }

  lemma MergeSlots(s: Registry, dst: EntryId, src: EntryId, a: Addr)
    ensures SettledEffect(s, MergeGroup(s, dst, src), a, false)
  {
    hide Absorb, RetainBinding, IncludingAll, Without, ForgetAddress;
  }

  lemma PlacedSlots(s: Registry, a: Addr, d: Decision)
    ensures var t := Place(s, a, d);
      SlotsGrow(s.table, t.table, {}) && s.entries.Keys + {a} == t.entries.Keys && t.topology == s.topology
  {
    hide Place, TargetOf, SlotsGrow;
    var e := TargetOf(s, d);
    PlaceFrame(s, a, d);
    JoinedGrows(s.table, a, e);
  }

  lemma AdmitSlots(s: Registry, info: DeviceInfo)
    requires Core(s) && !Decide(s, info).retained
    ensures var t := Admit(s, info);
      SlotsGrow(s.table, t.table, if Detaches(s, info) then {info.address} else {}) &&
      s.entries.Keys + {info.address} <= t.entries.Keys &&
      t.topology == (if Detaches(s, info) then ForgetAddress(s.topology, info.address) else s.topology)
  {
    hide Decide, Settle, Core, Detaches, SlotsGrow, Refresh, Place, TargetOf, ForgetAddress;
    SettleSlots(s, info);
    var d := Decide(s, info);
    var s1 := Settle(s, info, d);
    var s2, e := Place(s1, info.address, d), TargetOf(s1, d);
    PlacedSlots(s1, info.address, d);
    GrowsThen(s.table, s1.table, s2.table, if Detaches(s, info) then {info.address} else {});
    RefreshFrame(s2, e, info, d);
  }

  lemma RefreshFrame(s: Registry, e: EntryId, info: DeviceInfo, d: Decision)
    ensures var t := Refresh(s, e, info, d); t == s.(identity := t.identity, arena := t.arena)
  {
    hide StoredInfo, AuthorityKey, PublishedRows, PublishedKey, Canonical;
  }

  lemma ConfirmSlots(s: Registry, a: Addr, e: EntryId)
    ensures SlotsGrow(s.table, ConfirmTopology(s, a, e).table, {})
  {
    hide Reaches;
  }

  lemma StampedGrows(s: Registry, a: Addr, stamp: Stamp)
    ensures SlotsGrow(s.table, Stamped(s, a, stamp).table, {})
  {}

  lemma SettledSlots(s: Registry, a: Addr, e: EntryId, stamp: Stamp, confirm: bool)
    requires Sound(s, {e}) && Homed(s, a, e) && At(s, e).physical == Canonical(At(s, e).info)
    ensures SlotsGrow(s.table, Settled(s, a, e, stamp, confirm).table, {})
    ensures Settled(s, a, e, stamp, confirm).entries == s.entries
  {
    hide Sound, Canonical, ConfirmTopology, FacesOf, SyncFaces, SlotsGrow, StampSlot;
    SlotOwner(s, a, e);
    StampOwner(s, a, e, stamp);
    StampKeeps(s, a, e, StampSlot(SlotAt(s.table, a), stamp));
    var s1 := Stamped(s, a, stamp);
    StampedGrows(s, a, stamp);
    ConfirmFrame(s1, a, e);
    ConfirmKeeps(s1, a, e);
    ConfirmSlots(s1, a, e);
    GrowsThen(s.table, s1.table, ConfirmTopology(s1, a, e).table, {});
    SyncKeeps(if confirm then ConfirmTopology(s1, a, e) else s1, e);
  }

  // ---- the operations --------------------------------------------------------------------

  lemma RegisterSlots(env: Protocol, s: Registry, info: DeviceInfo, now: Time)
    requires WellFormed(env, s)
    ensures var t := Register(env, s, info, now);
      SlotsGrow(s.table, t.table, if Detaches(s, info) then {info.address} else {}) &&
      s.entries.Keys <= t.entries.Keys
  {
    if Decide(s, info).retained {
      SlotsGrowIdle(s.table);
    } else {
      var complete := Qualified(Canonical(info));
      var stamp := Observed(if complete then CONFIRMED else CANDIDATE, now);
      var e, t := AdmittedEntry(s, info), Admit(s, info);
      AdmitKeeps(s, info);
      AdmitSlots(s, info);
      hide Decide, Admit, AdmittedEntry, Qualified, Canonical, Sound, TopologyOk, WitnessesOk, Detaches, SlotsGrow;
      SettledSlots(t, info.address, e, stamp, complete);
      var u := Settled(t, info.address, e, stamp, complete);
      assert Register(env, s, info, now) == RecordWitness(env, Reconcile(env, u), info, e);
      hide Settled, Register, Reconcile, RecordWitness;
      RecordFrame(env, Reconcile(env, u), info, e);
      ReconcileGenerations(env, u);
      GrowsThen(s.table, t.table, u.table, if Detaches(s, info) then {info.address} else {});
    }
  }

  lemma SlotsGrowIdle(s: map<Addr, AddressSlot>)
    ensures forall gone :: SlotsGrow(s, s, gone)
  {}

  lemma GrowsThen(s: map<Addr, AddressSlot>, t: map<Addr, AddressSlot>, u: map<Addr, AddressSlot>, gone: set<Addr>)
    requires SlotsGrow(s, t, gone) && SlotsGrow(t, u, {})
    ensures SlotsGrow(s, u, gone)
  {}

  lemma MarkedSlots(env: Protocol, s: Registry, info: DeviceInfo, stamp: Stamp)
    requires WellFormed(env, s)
    ensures var t := RegisterMarked(env, s, info, stamp);
      SlotsGrow(s.table, t.table, if Detaches(s, info) then {info.address} else {}) &&
      s.entries.Keys <= t.entries.Keys
  {
    if Decide(s, info).retained {
      SlotsGrowIdle(s.table);
    } else {
      var e, t := AdmittedEntry(s, info), Admit(s, info);
      AdmitKeeps(s, info);
      AdmitSlots(s, info);
      hide Decide, Admit, AdmittedEntry, Canonical, Sound, TopologyOk, WitnessesOk, Detaches, SlotsGrow;
      SettledSlots(t, info.address, e, stamp, false);
      var u := Settled(t, info.address, e, stamp, false);
      assert RegisterMarked(env, s, info, stamp) == Reconcile(env, u);
      hide Settled, RegisterMarked, Reconcile;
      ReconcileGenerations(env, u);
      GrowsThen(s.table, t.table, u.table, if Detaches(s, info) then {info.address} else {});
    }
  }

  lemma EntrySettledSlots(env: Protocol, s: Registry, a: Addr, stamp: Stamp, confirm: bool)
    requires WellFormed(env, s) && a in s.entries
    ensures var t := Settled(s, a, s.entries[a], stamp, confirm);
      SlotsGrow(s.table, t.table, {}) && t.entries == s.entries
  {
    InOrder(s.order, s.arena, s.entries, a);
    SkipMore(s, s.entries[a]);
    EntryCanonical(s, s.entries[a]);
    hide Sound, TopologyOk, Settled, Canonical, WitnessesOk;
    SettledSlots(s, a, s.entries[a], stamp, confirm);
  }

  lemma MarkSlots(env: Protocol, s: Registry, a: Addr, stamp: Stamp)
    requires WellFormed(env, s)
    ensures SlotsGrow(s.table, MarkSlot(s, a, stamp).table, {}) && MarkSlot(s, a, stamp).entries == s.entries
  {
    hide MarkSlot, WellFormed, SlotsGrow, Settled, Stamped;
    MarkSlotKeeps(env, s, a, stamp);
    if a in s.entries {
      EntrySettledSlots(env, s, a, stamp, false);
    } else {
      StampedGrows(s, a, stamp);
      StampedFrame(s, a, stamp);
    }
  }

  lemma StampedFrame(s: Registry, a: Addr, stamp: Stamp)
    ensures Stamped(s, a, stamp) == s.(table := Stamped(s, a, stamp).table)
  {}

  lemma ConfirmScanSlots(env: Protocol, s: Registry, a: Addr, now: Time)
    requires WellFormed(env, s)
    ensures SlotsGrow(s.table, ConfirmScan(s, a, now).table, {}) && ConfirmScan(s, a, now).entries == s.entries
  {
    ConfirmScanKeeps(env, s, a, now);
    if a in s.entries {
      EntrySettledSlots(env, s, a, Observed(CONFIRMED, now), true);
      hide ConfirmScan, Settled, WellFormed;
    }
  }

  lemma JoinedGrows(s: map<Addr, AddressSlot>, a: Addr, e: EntryId)
    ensures SlotsGrow(s, s[a := SlotAt(s, a).(device := Some(e))], {})
  {}

  lemma EnsuredGrows(s: map<Addr, AddressSlot>, t: map<Addr, AddressSlot>)
    requires s.Keys <= t.Keys && forall a: Addr :: SlotAt(t, a) == SlotAt(s, a)
    ensures SlotsGrow(s, t, {})
  {
    forall a: Addr | a in s
      ensures SlotGrows(s[a], t[a])
    {
      assert SlotAt(t, a) == SlotAt(s, a);
    }
  }

  lemma AliasSlots(env: Protocol, s: Registry, a: Addr, b: Addr)
    requires WellFormed(env, s)
    ensures var t := AliasAddresses(env, s, a, b);
      SlotsGrow(s.table, t.table, {}) && s.entries.Keys <= t.entries.Keys
  {
    var s0 := EnsureSlot(EnsureSlot(s, a), b);
    assert s.table.Keys <= s0.table.Keys;
    hide WellFormed, Core, AliasGroups, JoinAlias, EnsureSlot, AliasAddresses, RecordEdge, SlotsGrow;
    AliasCases(env, s, a, b);
    AliasFrame(env, s, a, b);
    EnsuredGrows(s.table, s0.table);
    WellFormedCore(env, s0);
    if a in s.entries {
      JoinAliasKeeps(s0, s.entries[a], b);
      JoinedGrows(s0.table, b, s.entries[a]);
      GrowsThen(s.table, s0.table, JoinAlias(s0, s.entries[a], b).table, {});
    } else if b in s.entries {
      JoinAliasKeeps(s0, s.entries[b], a);
      JoinedGrows(s0.table, a, s.entries[b]);
      GrowsThen(s.table, s0.table, JoinAlias(s0, s.entries[b], a).table, {});
    }
  }

  /** The step's registration detaches this address. */
  ghost predicate DetachesAt(s: Registry, step: Step, a: Addr)
  {
    Observation(step).Some? && Observation(step).value.address == a && Detaches(s, Observation(step).value)
  }

  /** Resolving addresses stay resolved, and a slot only grows unless its address is detached. */
  lemma StepSlots(env: Protocol, s: Registry, step: Step, a: Addr)
    requires WellFormed(env, s)
    ensures s.entries.Keys <= Do(env, s, step).entries.Keys
    ensures a in s.table && !DetachesAt(s, step, a) ==>
      a in Do(env, s, step).table && SlotGrows(s.table[a], Do(env, s, step).table[a])
  {
    hide WellFormed, Register, RegisterMarked, MarkSlot, ConfirmScan, AliasAddresses, Detaches, SlotGrows;
    match step
    case AddProvider => SlotsGrowIdle(s.table); assert SlotsGrow(s.table, s.table, {});
    case Observe(info, now) => RegisterSlots(env, s, info, now);
    case Seed(info, role, at) => MarkedSlots(env, s, info, SeedMark(role, at));
    case Passive(info, role, at) => MarkedSlots(env, s, info, PassiveMark(role, at));
    case MarkSeed(b, role, at) => MarkSlots(env, s, b, SeedMark(role, at));
    case MarkPassive(b, role, at) => MarkSlots(env, s, b, PassiveMark(role, at));
    case Confirm(b, now) => ConfirmScanSlots(env, s, b, now);
    case Alias(b, c) => AliasSlots(env, s, b, c);
    case Companion(source, at) =>
      SlotsGrowIdle(s.table); assert SlotsGrow(s.table, s.table, {});
      if AdmitsCompanion(env, s, source, at) {
        MarkSlots(env, s, env.companionOf(source).value, PassiveMark(RoleSlave, at));
      }
  }

  /** No step of the run detaches this address in the state it meets. */
  ghost predicate Undetached(env: Protocol, s: Registry, steps: seq<Step>, a: Addr)
  {
    forall i :: 0 <= i < |steps| ==> !DetachesAt(Run(env, s, steps[..i]), steps[i], a)
  }

  /** Over a whole run: addresses never stop resolving, and a slot that is never detached only grows. */
  lemma {:induction false} RunSlots(env: Protocol, s: Registry, steps: seq<Step>, a: Addr)
    requires WellFormed(env, s)
    ensures s.entries.Keys <= Run(env, s, steps).entries.Keys
    ensures a in s.table && Undetached(env, s, steps, a) ==>
      a in Run(env, s, steps).table && SlotGrows(s.table[a], Run(env, s, steps).table[a])
  {
    if steps != [] {
      hide WellFormed, Do, DetachesAt;
      var n := |steps| - 1;
      var front := steps[..n];
      RunSlots(env, s, front, a);
      RunsKeep(env, s, front);
      StepSlots(env, Run(env, s, front), steps[n], a);
      if Undetached(env, s, steps, a) { FrontUndetached(env, s, steps, a); }
    }
  }

  lemma FrontUndetached(env: Protocol, s: Registry, steps: seq<Step>, a: Addr)
    requires Undetached(env, s, steps, a) && steps != []
    ensures Undetached(env, s, steps[..|steps| - 1], a)
    ensures !DetachesAt(Run(env, s, steps[..|steps| - 1]), steps[|steps| - 1], a)
  {
    hide Run, DetachesAt;
    var front := steps[..|steps| - 1];
    assert forall i :: 0 <= i < |front| ==> front[..i] == steps[..i] && front[i] == steps[i];
  }

  // ---- topology ---------------------------------------------------------------------------

  lemma TopologyOf(s: Registry)
    requires Core(s)
    ensures TopologyOk(s.topology, s.entries)
  {}

  lemma DetachNotRetained(s: Registry, info: DeviceInfo)
    requires Detaches(s, info)
    ensures !Decide(s, info).retained
  {}

  lemma DetachedTopology(env: Protocol, s: Registry, step: Step, a: Addr)
    requires WellFormed(env, s) && DetachesAt(s, step, a)
    ensures Do(env, s, step).topology == ForgetAddress(s.topology, a)
  {
    hide Register, RegisterMarked, Admit, ForgetAddress, Decide, Core, Detaches, SlotsGrow, SameAuthority, WitnessesOk;
    var info := Observation(step).value;
    DetachNotRetained(s, info);
    AdmitSlots(s, info);
    match step {
      case Observe(_, now) => RegisterAfterAdmit(env, s, info, now);
      case Seed(_, role, at) => MarkedAfterAdmit(env, s, info, SeedMark(role, at));
      case Passive(_, role, at) => MarkedAfterAdmit(env, s, info, PassiveMark(role, at));
    }
  }

  /** An address detached by a registration has no edges left, in either direction. */
  lemma DetachedHasNoEdges(env: Protocol, s: Registry, step: Step, a: Addr)
    requires WellFormed(env, s) && DetachesAt(s, step, a)
    ensures Edges(Do(env, s, step).topology, a) == {}
    ensures forall b: Addr :: a !in Edges(Do(env, s, step).topology, b)
  {
    hide Do, DetachesAt, Edges, ForgetAddress, WellFormed, TopologyOk;
    DetachedTopology(env, s, step, a);
    WellFormedCore(env, s);
    TopologyOf(s);
    ForgetKeeps(s.topology, s.entries, a);
  }

  /** Confirming from an address raises exactly the addresses it reaches inside the entry. */
  lemma ConfirmExactly(s: Registry, start: Addr, e: EntryId, a: Addr)
    requires Sound(s, {e}) && e in s.order && a in s.table
    ensures var t := ConfirmTopology(s, start, e);
      a in t.table && t.table[a] == s.table[a].(verification := t.table[a].verification) &&
      (Reaches(s, e, start, a) ==> t.table[a].verification == CONFIRMED && ExistingAt(s, a) == Some(e)) &&
      (!Reaches(s, e, start, a) ==> t.table[a].verification == s.table[a].verification)
  {
    ReachedResolve(s, e, start);
    hide Reaches, Sound;
  }

  // ---- faces ------------------------------------------------------------------------------

  /** The first address of the group whose slot has the role, else the first unknown one whose class has it. */
  function RoleByTable(env: Protocol, table: map<Addr, AddressSlot>, addresses: seq<Addr>, role: SlotRole): Option<Addr>
  {
    match FirstWithRole(table, addresses, role)
    case Some(a) => Some(a)
    case None => FirstInferred(env, table, addresses, role)
  }

  function FirstWithRole(table: map<Addr, AddressSlot>, addresses: seq<Addr>, role: SlotRole): Option<Addr>
  {
    if addresses == [] then None
    else if SlotAt(table, addresses[0]).role == role then Some(addresses[0])
    else FirstWithRole(table, addresses[1..], role)
  }

  predicate ClassHasRole(env: Protocol, a: Addr, role: SlotRole)
  {
    (env.classOf(a) == ClassMaster && role == RoleMaster) || (env.classOf(a) == ClassSlave && role == RoleSlave)
  }

  function FirstInferred(env: Protocol, table: map<Addr, AddressSlot>, addresses: seq<Addr>, role: SlotRole): Option<Addr>
  {
    if addresses == [] then None
    else if SlotAt(table, addresses[0]).role == RoleUnknown && ClassHasRole(env, addresses[0], role)
    then Some(addresses[0])
    else FirstInferred(env, table, addresses[1..], role)
  }

  function RoleByFaces(env: Protocol, faces: seq<BusFace>, role: SlotRole): Option<Addr>
  {
    match FirstFaceWithRole(faces, role)
    case Some(a) => Some(a)
    case None => FirstInferredFace(env, faces, role)
  }

  function FirstFaceWithRole(faces: seq<BusFace>, role: SlotRole): Option<Addr>
  {
    if faces == [] then None
    else if faces[0].role == role then Some(faces[0].addr)
    else FirstFaceWithRole(faces[1..], role)
  }

  function FirstInferredFace(env: Protocol, faces: seq<BusFace>, role: SlotRole): Option<Addr>
  {
    if faces == [] then None
    else if faces[0].role == RoleUnknown && ClassHasRole(env, faces[0].addr, role) then Some(faces[0].addr)
    else FirstInferredFace(env, faces[1..], role)
  }

  lemma {:induction false} FacesTell(env: Protocol, table: map<Addr, AddressSlot>, addresses: seq<Addr>, role: SlotRole)
    ensures FirstFaceWithRole(FacesOf(addresses, table), role) == FirstWithRole(table, addresses, role)
    ensures FirstInferredFace(env, FacesOf(addresses, table), role) == FirstInferred(env, table, addresses, role)
  {
    if addresses != [] {
      assert FacesOf(addresses, table)[1..] == FacesOf(addresses[1..], table);
      FacesTell(env, table, addresses[1..], role);
    }
  }

  /** In every well-formed registry AddressByRole agrees with a scan of the address table. */
  lemma AddressByRoleScansTable(env: Protocol, s: Registry, e: EntryId, role: SlotRole)
    requires WellFormed(env, s) && e in s.order
    ensures RoleByFaces(env, At(s, e).faces, role) == RoleByTable(env, s.table, At(s, e).addresses, role)
  {
    FacesTell(env, s.table, At(s, e).addresses, role);
    hide FacesOf, WitnessesOk, Partition, IndexRows, Canon, TopologyOk, SlotsAgree;
    assert At(s, e).faces == FacesOf(At(s, e).addresses, s.table);
  }
}
