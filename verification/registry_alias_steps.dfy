// AliasAddresses keeps the registry well formed: an address moves into another
// group while its old group survives, or merges away entirely.
module RegistryAliasSteps {
  import opened Numerals
  import opened Identity
  import opened RegistryState
  import opened RegistryInvariant
  import opened RegistrySteps

  // The state with address a in transit: no longer in a group, not yet in another.
  ghost function InTransit(s: Registry, a: Addr): Registry
  {
    s.(entries := s.entries - {a}, table := s.table[a := SlotAt(s.table, a).(device := None)])
  }

  lemma TransitSlots(s: Registry, a: Addr)
    requires SlotsAgree(s.entries, s.table)
    ensures SlotsAgree(InTransit(s, a).entries, InTransit(s, a).table)
  {}

  lemma TransitFaces(addresses: seq<Addr>, s: Registry, a: Addr)
    requires a in s.table
    ensures FacesOf(addresses, InTransit(s, a).table) == FacesOf(addresses, s.table)
  {
    forall x: Addr
      ensures FaceOf(x, SlotAt(InTransit(s, a).table, x)) == FaceOf(x, SlotAt(s.table, x))
    {}
  }

  lemma TransitDerived(s: Registry, a: Addr)
    requires FacesSynced(s.order, s.arena, s.table, {}) && a in s.table
    ensures FacesSynced(s.order, s.arena, InTransit(s, a).table, {})
  {
    forall e | e in s.order
      ensures FacesOf(Look(s.arena, e).addresses, InTransit(s, a).table) == FacesOf(Look(s.arena, e).addresses, s.table)
    {
      TransitFaces(Look(s.arena, e).addresses, s, a);
    }
    hide FacesOf;
  }

  // Publishing looks at the index and the arena only.
  lemma PublishElsewhere(s: Registry, t: Registry, e: EntryId, k: string)
    requires t.identity == s.identity && t.arena == s.arena
    ensures Publish(t, e, k).identity == Publish(s, e, k).identity
    ensures Publish(t, e, k).arena == Publish(s, e, k).arena
  {
    SameOwner(s, t, k);
    SameRefusal(s, t, e, k);
    hide Refused, DropStale, RetainBinding, CurrentOwner;
  }

  lemma SameRefusal(s: Registry, t: Registry, e: EntryId, k: string)
    requires t.arena == s.arena && t.identity == s.identity && CurrentOwner(t, k) == CurrentOwner(s, k)
    ensures Refused(t, e, k) == Refused(s, e, k)
    ensures DropStale(t, k).identity == DropStale(s, k).identity
  {
    hide CurrentOwner, CanMerge;
  }

  lemma SameOwner(s: Registry, t: Registry, k: string)
    requires t.arena == s.arena && t.identity == s.identity
    ensures CurrentOwner(t, k) == CurrentOwner(s, k)
  {
    hide Key, StableKey;
  }

  lemma AbsorbedEntry(s: Registry, e: EntryId, d: DeviceEntry)
    requires Sound(s, {}) && e in s.order && SameGroup(At(s, e), d)
    requires d.identityKey == At(s, e).identityKey && d.faces == At(s, e).faces && d.physical == Canonical(d.info)
    ensures Sound(WithEntry(s, e, d), {})
  {
    assert d.faces == FacesOf(d.addresses, s.table);
    hide Canonical, FacesOf, StableKey;
    RewriteKeepsPartition(s.order, s.arena, s.entries, e, d);
    RewriteKeepsRows(s.identity, s.order, s.arena, e, d);
    RewriteKeepsDerived(s.order, s.arena, s.table, {}, e, d);
    assert {} - {e} == {};
  }

  // The group of a disappears: its only address leaves.
  lemma EmptiedKeeps(s: Registry, e: EntryId, a: Addr, d: DeviceEntry)
    requires Core(s) && a in s.entries && s.entries[a] == e
    requires d.addresses == [] && Without(At(s, e).addresses, a) == []
    ensures var t := InTransit(s, a);
      Sound(t.(arena := s.arena[e := d], identity := RetainBinding(s.identity, e, ""), order := Without(s.order, e)), {})
  {
    hide Canonical, StableKey, FacesOf, Without, RetainBinding;
    InOrder(s.order, s.arena, s.entries, a);
    assert a in s.table;
    TransitSlots(s, a);
    TransitDerived(s, a);
    EmptyKeepsPartition(s.order, s.arena, s.entries, e, a, d);
    hide Partition, SlotsAgree;
    OrderDistinct(s);
    FacesSkip(s.order, s.arena, InTransit(s, a).table, e);
    RetireKeeps(InTransit(s, a), e, d);
  }

  lemma OrderDistinct(s: Registry)
    requires Partition(s.order, s.arena, s.entries)
    ensures Distinct(s.order)
  {}

  lemma FacesSkip(order: seq<EntryId>, arena: Arena, table: map<Addr, AddressSlot>, e: EntryId)
    requires FacesSynced(order, arena, table, {})
    ensures FacesSynced(order, arena, table, {e})
  {}

  lemma MergeRemovedKeeps(s: Registry, canonical: EntryId, secondary: EntryId, a: Addr, d: DeviceEntry)
    requires Core(s) && a in s.entries && s.entries[a] == secondary && canonical in s.order && canonical != secondary
    requires d == At(s, secondary).(addresses := Without(At(s, secondary).addresses, a)) && d.addresses == []
    ensures var y := MergeRemoved(WithEntry(s, secondary, d), canonical, secondary);
      Sound(InTransit(y, a), {}) && canonical in y.order &&
      y == s.(identity := y.identity, arena := y.arena, order := y.order)
  {
    EmptiedKeeps(s, secondary, a, d);
    WithoutMembers(s.order, secondary) by { OrderDistinct(s); }
    hide Without, RetainBinding, Sound, StableKey, Core;
    var s0 := WithEntry(s, secondary, d);
    var t := InTransit(s, a).(arena := s0.arena, identity := RetainBinding(s.identity, secondary, ""),
                              order := Without(s.order, secondary));
    var absorbed := Absorb(At(s0, canonical), At(s0, secondary));
    var n := absorbed.(physical := Canonical(absorbed.info));
    AbsorbFrame(At(s0, canonical), At(s0, secondary));
    hide Absorb, Canonical;
    AbsorbedEntry(t, canonical, n);
    var key := if At(s0, canonical).identityKey == "" then At(s0, secondary).identityKey
               else At(s0, canonical).identityKey;
    var k := if Key(n.physical) == key then key else "";
    KeyFacts(n.physical);
    hide Key;
    PublishKeeps(WithEntry(t, canonical, n), canonical, k, {});
    var s1 := RemoveBindings(WithEntry(s0, canonical, n), secondary);
    PublishElsewhere(s1, WithEntry(t, canonical, n), canonical, k);
    PublishFrame(s1, canonical, k);
    PublishFrame(WithEntry(t, canonical, n), canonical, k);
    hide Publish;
    assert MergeRemoved(s0, canonical, secondary) == Publish(s1, canonical, k).(order := Without(s.order, secondary));
  }

  lemma SurvivorKeeps(s: Registry, e: EntryId, a: Addr)
    requires Core(s) && a in s.entries && s.entries[a] == e && Without(At(s, e).addresses, a) != []
    ensures var y := SyncFaces(WithEntry(s, e, Rehomed(At(s, e).(addresses := Without(At(s, e).addresses, a)), a)), e);
      Sound(InTransit(y, a), {}) && y == s.(arena := y.arena)
  {
    var r := Rehomed(At(s, e).(addresses := Without(At(s, e).addresses, a)), a);
    InOrder(s.order, s.arena, s.entries, a);
    assert a in s.table;
    DetachedPrimary(At(s, e), a);
    TransitSlots(s, a);
    TransitDerived(s, a);
    SurvivorAdopts(s, e, a, r);
    hide Partition, SlotsAgree, IndexRows, Canon, Canonical, Without, Rehomed, AdoptSlots;
    FacesSkip(s.order, s.arena, InTransit(s, a).table, e);
    ShrunkKeeps(InTransit(s, a), s.entries, e, a, r);
    TransitFaces(r.addresses, s, a);
    hide Sound, FacesOf;
    assert InTransit(SyncFaces(WithEntry(s, e, r), e), a) == SyncFaces(WithEntry(InTransit(s, a), e, r), e);
  }

  lemma SurvivorAdopts(s: Registry, e: EntryId, a: Addr, r: DeviceEntry)
    requires Core(s) && a in s.entries && s.entries[a] == e && r.addresses == Without(At(s, e).addresses, a)
    ensures AdoptSlots(s.table, r.addresses, e) == s.table
  {
    hide IndexRows, Canon, FacesSynced, TopologyOk, Without;
    WithoutMembers(At(s, e).addresses, a);
    assert forall x :: x in r.addresses ==> x in Look(s.arena, e).addresses;
  }

  // ---- the whole move ---------------------------------------------------------------

  lemma YieldKeeps(s: Registry, canonical: EntryId, secondary: EntryId, a: Addr)
    requires Core(s) && a in s.entries && s.entries[a] == secondary && canonical in s.order && canonical != secondary
    ensures var y := Yield(s, canonical, secondary, a);
      Sound(InTransit(y, a), {}) && canonical in y.order &&
      y == s.(identity := y.identity, arena := y.arena, order := y.order)
  {
    var d := At(s, secondary).(addresses := Without(At(s, secondary).addresses, a));
    hide Core, Sound, InTransit, MergeRemoved, SyncFaces, Without;
    if d.addresses == [] {
      MergeRemovedKeeps(s, canonical, secondary, a, d);
    } else {
      SurvivorKeeps(s, secondary, a);
    }
  }

  // The last part of a move: the address enters the group and its faces are rebuilt.
  ghost function Enter(s: Registry, e: EntryId, a: Addr): Registry
  {
    var s2 := WithSlot(s, a, SlotAt(s.table, a).(device := Some(e)));
    var d := At(s2, e).(addresses := Including(At(s2, e).addresses, a));
    SyncFaces(WithEntry(s2, e, d).(entries := s2.entries[a := e]), e)
  }

  lemma EnterKeeps(s: Registry, e: EntryId, a: Addr)
    requires Sound(s, {}) && e in s.order && (a in s.entries ==> s.entries[a] == e)
    ensures var t := Enter(s, e, a);
      Sound(t, {}) && t == s.(entries := s.entries[a := e], table := t.table, arena := t.arena) &&
      t.table == s.table[a := SlotAt(s.table, a).(device := Some(e))]
  {
    var d := At(s, e).(addresses := Including(At(s, e).addresses, a));
    var s2 := s.(entries := s.entries[a := e], table := s.table[a := SlotAt(s.table, a).(device := Some(e))],
                 arena := s.arena[e := d]);
    EntryCanonical(s, e);
    if a in s.entries {
      SkipMore(s, e);
      PlaceIdle(s, a, e);
    } else {
      PlaceKeeps(s, a, e);
    }
    hide Sound, Canonical, Including;
    SyncKeeps(s2, e);
  }

  lemma EntryCanonical(s: Registry, e: EntryId)
    requires Sound(s, {}) && e in s.order
    ensures At(s, e).physical == Canonical(At(s, e).info)
  {
    hide Partition, SlotsAgree, IndexRows, FacesSynced, Canonical;
  }

  lemma TransitEnters(s: Registry, e: EntryId, a: Addr)
    ensures Enter(InTransit(s, a), e, a) == Enter(s, e, a)
  {
    hide SyncFaces, Including;
    var p, q := InTransit(s, a), s;
    assert SlotAt(p.table, a).(device := Some(e)) == SlotAt(q.table, a).(device := Some(e));
    assert p.table[a := SlotAt(p.table, a).(device := Some(e))] == q.table[a := SlotAt(q.table, a).(device := Some(e))];
    assert p.entries[a := e] == q.entries[a := e];
  }

  lemma JoinShape(s: Registry, e: EntryId, a: Addr)
    requires SlotsAgree(s.entries, s.table)
    ensures JoinAlias(s, e, a) ==
      Enter(if a in s.entries && s.entries[a] != e then Yield(s, e, s.entries[a], a) else s, e, a)
  {
    DeviceIsEntry(s, a);
    hide Yield, SyncFaces, Including;
  }

  lemma TransitCollapses(s: Registry, e: EntryId, a: Addr)
    ensures var t := InTransit(s, a);
      t.entries[a := e] == s.entries[a := e] &&
      t.table[a := SlotAt(t.table, a).(device := Some(e))] == s.table[a := SlotAt(s.table, a).(device := Some(e))]
  {}

  lemma JoinAliasKeeps(s: Registry, e: EntryId, a: Addr)
    requires Core(s) && e in s.order
    ensures var t := JoinAlias(s, e, a);
      Core(t) && t.entries == s.entries[a := e] && t.topology == s.topology && SameRecords(s, t) &&
      t.table == s.table[a := SlotAt(s.table, a).(device := Some(e))]
  {
    JoinShape(s, e, a);
    TopologyGrows(s.topology, s.entries, a, e);
    hide Sound, TopologyOk, Yield, Enter, JoinAlias;
    if a in s.entries && s.entries[a] != e {
      var y := Yield(s, e, s.entries[a], a);
      YieldKeeps(s, e, s.entries[a], a);
      TransitEnters(y, e, a);
      TransitCollapses(y, e, a);
      assert a !in InTransit(y, a).entries;
      EnterKeeps(InTransit(y, a), e, a);
      TransitRest(y, a);
      hide InTransit;
    } else {
      EnterKeeps(s, e, a);
    }
  }

  lemma TransitRest(s: Registry, a: Addr)
    ensures InTransit(s, a) == s.(entries := InTransit(s, a).entries, table := InTransit(s, a).table)
  {}

  lemma EnsureKeeps(env: Protocol, s: Registry, a: Addr)
    requires WellFormed(env, s)
    ensures WellFormed(env, EnsureSlot(s, a)) && EnsureSlot(s, a) == s.(table := EnsureSlot(s, a).table)
    ensures forall x: Addr :: SlotAt(EnsureSlot(s, a).table, x) == SlotAt(s.table, x)
  {
    DeviceIsEntry(s, a);
    hide WellFormed, Sound, Core, WitnessesOk, TopologyOk;
    if a in s.table {
      assert s.table[a := SlotAt(s.table, a)] == s.table;
    } else {
      FreeSlotKeeps(env, s, a, EMPTY_SLOT);
    }
  }

  // The two slots exist; one side's group, if there is one, gains the other address.
  lemma AliasCases(env: Protocol, s: Registry, a: Addr, b: Addr)
    requires WellFormed(env, s)
    ensures var s0 := EnsureSlot(EnsureSlot(s, a), b);
      WellFormed(env, s0) && s0 == s.(table := s0.table) &&
      (forall x: Addr :: SlotAt(s0.table, x) == SlotAt(s.table, x)) &&
      (a in s.entries ==> s.entries[a] in s.order) && (b in s.entries ==> s.entries[b] in s.order) &&
      AliasGroups(s, a, b) == (if a in s.entries then JoinAlias(s0, s.entries[a], b)
                               else if b in s.entries then JoinAlias(s0, s.entries[b], a)
                               else s0)
  {
    EnsureKeeps(env, s, a);
    EnsureKeeps(env, EnsureSlot(s, a), b);
    var s0 := EnsureSlot(EnsureSlot(s, a), b);
    DeviceIsEntry(s0, a);
    DeviceIsEntry(s0, b);
    if a in s.entries { InOrder(s.order, s.arena, s.entries, a); }
    if b in s.entries { InOrder(s.order, s.arena, s.entries, b); }
    hide WellFormed, JoinAlias, EnsureSlot;
  }

  /** What an alias does to the groups: nothing, or one side's group gains the other address. */
  lemma AliasGroupsKeeps(env: Protocol, s: Registry, a: Addr, b: Addr)
    requires WellFormed(env, s)
    ensures var t := AliasGroups(s, a, b);
      Core(t) && t.topology == s.topology && SameRecords(s, t) &&
      t.entries == (if a in s.entries then s.entries[b := s.entries[a]]
                    else if b in s.entries then s.entries[a := s.entries[b]]
                    else s.entries)
  {
    AliasCases(env, s, a, b);
    hide Core, AliasGroups, JoinAlias, WitnessesOk, EnsureSlot;
    var s0 := EnsureSlot(EnsureSlot(s, a), b);
    if a in s.entries {
      JoinAliasKeeps(s0, s.entries[a], b);
    } else if b in s.entries {
      JoinAliasKeeps(s0, s.entries[b], a);
    }
  }

  lemma AliasKeeps(env: Protocol, s: Registry, a: Addr, b: Addr)
    requires WellFormed(env, s)
    ensures WellFormed(env, AliasAddresses(env, s, a, b))
  {
    hide AliasGroups, WitnessCurrent, Core, WitnessesOk, RecordEdge, Numbered;
    var s1 := AliasGroups(s, a, b);
    AliasGroupsKeeps(env, s, a, b);
    var s2 := if ExistingAt(s1, a).Some? && ExistingAt(s1, a) == ExistingAt(s1, b)
              then s1.(topology := RecordEdge(s1.topology, a, b)) else s1;
    AliasedCore(s1, a, b);
    StillNumbered(env, s, Tick(s2));
    ReconcileKeeps(env, Tick(s2));
    WitnessFieldsKept(env, Tick(s2));
  }

  lemma AliasedCore(s: Registry, a: Addr, b: Addr)
    requires Core(s)
    ensures Core(Tick(s))
    ensures a in s.entries && b in s.entries ==> Core(Tick(s.(topology := RecordEdge(s.topology, a, b))))
  {
    if a in s.entries && b in s.entries { RecordEdgeKeeps(s.topology, s.entries, a, b); }
    hide Partition, SlotsAgree, IndexRows, Canon, FacesSynced, RecordEdge, TopologyOk;
  }

  lemma CompanionKeeps(env: Protocol, s: Registry, source: Addr, at: Time)
    requires WellFormed(env, s)
    ensures WellFormed(env, AdmitCompanion(env, s, source, at))
  {
    hide WellFormed, MarkSlot, WitnessCurrent;
    if AdmitsCompanion(env, s, source, at) {
      MarkSlotKeeps(env, s, env.companionOf(source).value, PassiveMark(RoleSlave, at));
    }
  }

  /** Every public step keeps the registry well formed. */
  lemma StepKeeps(env: Protocol, s: Registry, step: Step)
    requires WellFormed(env, s)
    ensures WellFormed(env, Do(env, s, step))
  {
    hide WellFormed, Register, RegisterMarked, MarkSlot, ConfirmScan, AliasAddresses, AdmitCompanion;
    match step
    case AddProvider => TickWellFormed(env, s);
    case Observe(info, now) => RegisterKeeps(env, s, info, now);
    case Seed(info, role, at) => RegisterMarkedKeeps(env, s, info, SeedMark(role, at));
    case Passive(info, role, at) => RegisterMarkedKeeps(env, s, info, PassiveMark(role, at));
    case MarkSeed(a, role, at) => MarkSlotKeeps(env, s, a, SeedMark(role, at));
    case MarkPassive(a, role, at) => MarkSlotKeeps(env, s, a, PassiveMark(role, at));
    case Confirm(a, now) => ConfirmScanKeeps(env, s, a, now);
    case Alias(a, b) => AliasKeeps(env, s, a, b);
    case Companion(source, at) => CompanionKeeps(env, s, source, at);
  }

  lemma EmptyWellFormed(env: Protocol)
    ensures WellFormed(env, EMPTY_REGISTRY)
  {}

  /** Hence every reachable registry is well formed. */
  lemma {:induction false} RunsKeep(env: Protocol, s: Registry, steps: seq<Step>)
    requires WellFormed(env, s)
    ensures WellFormed(env, Run(env, s, steps))
  {
    hide WellFormed, Do;
    if steps != [] {
      RunsKeep(env, s, steps[..|steps| - 1]);
      StepKeeps(env, Run(env, s, steps[..|steps| - 1]), steps[|steps| - 1]);
    }
  }
}
