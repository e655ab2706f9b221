// Every public operation keeps the registry well formed.
module RegistrySteps {
  import opened Numerals
  import opened Identity
  import opened RegistryState
  import opened RegistryInvariant

  // ---- registerLocked ----------------------------------------------------------

  lemma DecisionFacts(s: Registry, info: DeviceInfo)
    requires Core(s)
    ensures var d := Decide(s, info);
      d.existing == ExistingAt(s, info.address) &&
      (d.existing.Some? ==> d.existing.value in s.order && info.address in At(s, d.existing.value).addresses) &&
      (d.incumbent.Some? ==> d.target == d.incumbent && Key(Canonical(info)) != "" &&
                             CurrentOwner(s, Key(Canonical(info))) == d.incumbent) &&
      (d.target.Some? ==> d.target.value in s.order && (d.target == d.incumbent || d.target == d.existing)) &&
      (d.merge ==> d.existing.Some? && d.target.Some? && d.target != d.existing && d.incumbent == d.target)
  {
    hide CanMerge, CompatibleEnrichment, Canon, FacesSynced, TopologyOk, SlotsAgree, Canonical, Key, StableKey;
    if info.address in s.entries { InOrder(s.order, s.arena, s.entries, info.address); }
  }

  /** The branch guarding evidenced alias groups is never taken. */
  lemma RegroupUnreachable(s: Registry, info: DeviceInfo)
    ensures !Regroups(s, info, ExistingAt(s, info.address), Kept(s, info))
  {}

  ghost predicate Homed(s: Registry, a: Addr, e: EntryId)
  {
    e in s.order && a in s.entries && s.entries[a] == e
  }

  lemma SettleKeeps(s: Registry, info: DeviceInfo)
    requires Core(s) && !Decide(s, info).retained
    ensures var d := Decide(s, info); var s1 := Settle(s, info, d);
      TopologyOk(s1.topology, s1.entries) &&
      (if d.merge then Sound(s1, {d.target.value}) && Homed(s1, info.address, d.target.value)
       else Sound(s1, {}) && (d.target.Some? ==> d.target.value in s1.order) &&
            (info.address in s1.entries ==> d.target.Some? && d.target == ExistingAt(s1, info.address)))
  {
    var d := Decide(s, info);
    DecisionFacts(s, info);
    hide Decide, TopologyOk, Key, Canonical;
    var s0 := if Key(Canonical(info)) == "" then s else DropStale(s, Key(Canonical(info)));
    DropStaleKeeps(s, Key(Canonical(info)), {});
    assert Core(s0);
    if d.existing.Some? && d.existing != d.target {
      if d.merge {
        SettleByMerge(s0, info.address, d.target.value, d.existing.value);
      } else {
        SettleByDetach(s0, info.address, d.existing.value, d.target);
      }
    }
  }

  lemma SettleByMerge(s: Registry, a: Addr, dst: EntryId, src: EntryId)
    requires Core(s) && dst in s.order && src in s.order && dst != src && a in At(s, src).addresses
    ensures var s1 := MergeGroup(s, dst, src);
      TopologyOk(s1.topology, s1.entries) && Sound(s1, {dst}) && Homed(s1, a, dst)
  {
    hide Sound, Absorb, IncludingAll, Without, RetainBinding;
    MergeGroupKeeps(s, dst, src);
  }

  lemma SettleByDetach(s: Registry, a: Addr, e: EntryId, target: Option<EntryId>)
    requires Core(s) && a in s.entries && s.entries[a] == e
    requires target.Some? ==> target.value in s.order && target.value != e
    ensures var s1 := Detach(s, e, a);
      TopologyOk(s1.topology, s1.entries) && Sound(s1, {}) && a !in s1.entries &&
      (target.Some? ==> target.value in s1.order)
  {
    DetachKeeps(s, e, a);
    hide Sound, ForgetAddress, RetainBinding, Rehomed, SyncFaces;
    if target.Some? { DetachOrder(s, e, a, target.value); }
  }

  lemma DetachOrder(s: Registry, e: EntryId, a: Addr, x: EntryId)
    requires Distinct(s.order) && x in s.order && x != e
    ensures x in Detach(s, e, a).order
  {
    hide ForgetAddress, RetainBinding, AdoptSlots, FacesOf;
    WithoutMembers(s.order, e);
  }

  lemma StampKeeps(s: Registry, a: Addr, e: EntryId, slot: AddressSlot)
    requires Sound(s, {e}) && Homed(s, a, e) && slot.device == Some(e)
    ensures Sound(WithSlot(s, a, slot), {e})
  {
    hide Canonical, StableKey, FacesOf, IndexRows, Canon;
    assert s.arena == s.arena[e := s.arena[e]];
    PlaceKeepsFaces(s.order, s.arena, s.entries, s.table, a, e, s.arena[e], slot);
  }

  lemma PlaceStep(s: Registry, a: Addr, d: Decision)
    requires TopologyOk(s.topology, s.entries)
    requires if d.merge then d.target.Some? && Sound(s, {d.target.value}) && Homed(s, a, d.target.value)
             else Sound(s, {}) && (d.target.Some? ==> d.target.value in s.order) &&
                  (a in s.entries ==> d.target.Some? && d.target == ExistingAt(s, a))
    ensures var t := Place(s, a, d); var e := TargetOf(s, d);
      TopologyOk(t.topology, t.entries) && Sound(t, {e}) && Homed(t, a, e)
  {
    var e := TargetOf(s, d);
    hide Including, TopologyOk, Sound, NewEntry;
    TopologyGrows(s.topology, s.entries, a, e);
    if a in s.entries {
      SkipMore(s, e);
      PlaceIdle(s, a, e);
    } else {
      if d.target.Some? {
        PlaceKeeps(s, a, e);
      } else {
        CreateKeeps(s, a);
        assert e in s.order + [e];
      }
    }
  }

  lemma TopologyGrows(topology: map<Addr, set<Addr>>, entries: map<Addr, EntryId>, a: Addr, e: EntryId)
    requires TopologyOk(topology, entries)
    ensures TopologyOk(topology, entries[a := e])
  {}

  // Placing an address where it already is changes nothing.
  lemma PlaceIdle(s: Registry, a: Addr, e: EntryId)
    requires Sound(s, {e}) && a in s.entries && s.entries[a] == e
    ensures Homed(s, a, e) && s.entries[a := e] == s.entries
    ensures s.table[a := SlotAt(s.table, a).(device := Some(e))] == s.table
    ensures s.arena[e := At(s, e).(addresses := Including(At(s, e).addresses, a))] == s.arena
  {
    hide IndexRows, Canon, FacesSynced;
  }

  lemma SkipMore(s: Registry, e: EntryId)
    ensures Sound(s, {}) ==> Sound(s, {e})
  {
    hide Partition, SlotsAgree, IndexRows, Canonical, FacesOf;
  }

  lemma AuthorityKeyStable(info: DeviceInfo, d: DeviceEntry, conflict: bool)
    ensures AuthorityKey(info, d, conflict) == "" || StableKey(AuthorityKey(info, d, conflict))
  {
    hide Canonical, Qualified, AgreesOrMissing;
    KeyFacts(Canonical(info));
    KeyFacts(d.physical);
  }

  lemma RefreshKeeps(s: Registry, e: EntryId, info: DeviceInfo, d: Decision)
    requires Sound(s, {e}) && e in s.order
    ensures var t := Refresh(s, e, info, d);
      Sound(t, {e}) && At(t, e).physical == Canonical(At(t, e).info) &&
      t == s.(identity := t.identity, arena := s.arena[e := At(t, e)])
    ensures SameGroup(At(s, e), At(Refresh(s, e, info, d), e))
  {
    var stored := StoredInfo(info, At(s, e), d.incumbent.Some? && d.incumbent != d.existing);
    var key := AuthorityKey(info, At(s, e), d.conflict);
    AuthorityKeyStable(info, At(s, e), d.conflict);
    hide Canonical, StableKey, FacesOf, AuthorityKey;
    var n := At(s, e).(info := stored, physical := Canonical(stored));
    assert stored.address == At(s, e).info.address;
    RewriteKeepsPartition(s.order, s.arena, s.entries, e, n);
    RewriteKeepsRows(s.identity, s.order, s.arena, e, n);
    RewriteKeepsDerived(s.order, s.arena, s.table, {e}, e, n);
    assert {e} + {e} == {e};
    PublishKeeps(WithEntry(s, e, n), e, key, {e});
    PublishFrame(WithEntry(s, e, n), e, key);
  }

  /** registerLocked leaves only the faces of the admitted entry to be rebuilt. */
  lemma AdmitKeeps(s: Registry, info: DeviceInfo)
    requires Core(s) && !Decide(s, info).retained
    ensures var t := Admit(s, info); var e := AdmittedEntry(s, info);
      Sound(t, {e}) && TopologyOk(t.topology, t.entries) && Homed(t, info.address, e) &&
      At(t, e).physical == Canonical(At(t, e).info)
  {
    var d := Decide(s, info);
    SettleKeeps(s, info);
    hide Decide, Settle, Sound, TopologyOk, Canonical;
    var s1 := Settle(s, info, d);
    DecisionTarget(s, info);
    PlaceStep(s1, info.address, d);
    var s2 := Place(s1, info.address, d);
    hide Place, TargetOf;
    RefreshKeeps(s2, AdmittedEntry(s, info), info, d);
    hide Refresh;
  }

  lemma DecisionTarget(s: Registry, info: DeviceInfo)
    ensures Decide(s, info).merge ==> Decide(s, info).target.Some?
  {
    hide Kept, Candidate, Contradicted, CompatibleEnrichment, Regroups;
  }

  // ---- topology confirmation ----------------------------------------------------

  lemma ReachedResolve(s: Registry, e: EntryId, start: Addr)
    ensures forall a :: Reaches(s, e, start, a) ==> ExistingAt(s, a) == Some(e)
  {}

  lemma ConfirmKeeps(s: Registry, start: Addr, e: EntryId)
    requires Sound(s, {e}) && e in s.order
    ensures Sound(ConfirmTopology(s, start, e), {e})
    ensures ConfirmTopology(s, start, e).table.Keys == s.table.Keys
  {
    ReachedResolve(s, e, start);
    hide Canonical, StableKey, Reaches, IndexRows, Canon;
    var t := ConfirmTopology(s, start, e);
    assert t.table.Keys == s.table.Keys;
    forall x | x in s.order && x != e
      ensures FacesOf(Look(s.arena, x).addresses, t.table) == FacesOf(Look(s.arena, x).addresses, s.table)
    {
      ConfirmKeepsFaces(s, start, e, x);
    }
    hide FacesOf;
  }

  lemma ConfirmKeepsFaces(s: Registry, start: Addr, e: EntryId, x: EntryId)
    requires Partition(s.order, s.arena, s.entries) && SlotsAgree(s.entries, s.table) && x in s.order && x != e
    ensures FacesOf(At(s, x).addresses, ConfirmTopology(s, start, e).table) == FacesOf(At(s, x).addresses, s.table)
  {
    ReachedResolve(s, e, start);
    hide Reaches;
    forall a | a in At(s, x).addresses
      ensures SlotAt(ConfirmTopology(s, start, e).table, a) == SlotAt(s.table, a)
    {
      assert ExistingAt(s, a) == Some(x);
    }
  }

  // ---- witnesses ------------------------------------------------------------------

  // What the currentness of a witness depends on.
  ghost predicate SameAuthority(s: Registry, t: Registry)
  {
    t.entries == s.entries && t.identity == s.identity &&
    forall e: EntryId :: At(t, e).identityKey == At(s, e).identityKey && At(t, e).physical == At(s, e).physical
  }

  ghost predicate Numbered(s: Registry)
  {
    (forall a: Addr :: a in s.witnesses ==>
       s.witnesses[a].proof.proofGeneration <= s.proofGeneration &&
       s.witnesses[a].proof.observationGeneration <= s.observationGeneration) &&
    (forall a: Addr, b: Addr :: a in s.witnesses && b in s.witnesses && a != b ==>
       s.witnesses[a].proof.proofGeneration != s.witnesses[b].proof.proofGeneration)
  }

  lemma CurrentnessFrame(env: Protocol, s: Registry, t: Registry, a: Addr, w: Witness)
    requires SameAuthority(s, t) && a in t.witnesses && (a in s.witnesses ==> t.witnesses[a] == s.witnesses[a])
    requires WitnessCurrent(env, s, a, w)
    ensures WitnessCurrent(env, t, a, w)
  {
    hide AuthorityOf, Key, StableKey;
  }

  lemma WitnessesFrame(env: Protocol, s: Registry, t: Registry)
    requires WitnessesOk(env, s) && SameAuthority(s, t) && t.witnesses == s.witnesses
    requires t.observationGeneration >= s.observationGeneration && t.proofGeneration >= s.proofGeneration
    ensures WitnessesOk(env, t)
  {
    hide WitnessCurrent;
    forall a: Addr | a in t.witnesses
      ensures WitnessCurrent(env, t, a, t.witnesses[a].proof)
    {
      CurrentnessFrame(env, s, t, a, s.witnesses[a].proof);
    }
  }

  /** Reconciling retires exactly the records that are no longer current. */
  lemma ReconcileKeeps(env: Protocol, s: Registry)
    requires Numbered(s)
    ensures WitnessesOk(env, Reconcile(env, s))
    ensures forall a: Addr :: a in Reconcile(env, s).witnesses <==>
                              a in s.witnesses && WitnessCurrent(env, s, a, s.witnesses[a].proof)
  {
    var t := Reconcile(env, s);
    hide WitnessCurrent;
    forall a: Addr | a in t.witnesses
      ensures WitnessCurrent(env, t, a, t.witnesses[a].proof)
    {
      CurrentnessFrame(env, s, t, a, s.witnesses[a].proof);
    }
  }

  lemma NormalizedAuthority(info: DeviceInfo, w: Witness)
    requires var p := Canonical(info);
      w.manufacturer == p.manufacturer && w.deviceID == p.deviceID && w.serial == p.serial
    ensures var p := AuthorityOf(w);
      Key(p) == Key(Canonical(info)) &&
      p.manufacturer == w.manufacturer && p.deviceID == w.deviceID && p.serial == w.serial
  {
    NormalizeIdempotent(info.manufacturer);
    NormalizeIdempotent(info.deviceID);
    NormalizeIdempotent(info.serial);
    hide Normalize, InvalidSerialSentinel, EncodeTriple;
  }

  // One more record leaves the others as current as they were.
  lemma OtherWitnesses(env: Protocol, s: Registry, t: Registry, recorded: Addr)
    requires WitnessesOk(env, s) && SameAuthority(s, t) && recorded in t.witnesses
    requires forall a: Addr :: a in t.witnesses && a != recorded ==> a in s.witnesses && t.witnesses[a] == s.witnesses[a]
    ensures forall a: Addr :: a in t.witnesses && a != recorded ==> WitnessCurrent(env, t, a, t.witnesses[a].proof)
  {
    forall a: Addr | a in t.witnesses && a != recorded
      ensures WitnessCurrent(env, t, a, t.witnesses[a].proof)
    {
      hide WitnessCurrent;
      CurrentnessFrame(env, s, t, a, s.witnesses[a].proof);
    }
  }

  lemma FreshWitness(env: Protocol, s: Registry, info: DeviceInfo, e: EntryId)
    requires RecordWitness(env, s, info, e) != s && s.observationGeneration > 0
    ensures var t := RecordWitness(env, s, info, e);
      info.address in t.witnesses && t.proofGeneration == s.proofGeneration + 1 &&
      (var w := t.witnesses[info.address].proof;
       WitnessCurrent(env, t, info.address, w) && SameTriple(AuthorityOf(w), Canonical(info)) &&
       w.proofGeneration == t.proofGeneration && w.observationGeneration == s.observationGeneration)
  {
    var w := RecordWitness(env, s, info, e).witnesses[info.address].proof;
    NormalizedAuthority(info, w);
    hide Canonical, Key, StableKey, AuthorityOf;
  }

  /** A recorded witness is current at once and disturbs no other. */
  lemma RecordKeeps(env: Protocol, s: Registry, info: DeviceInfo, e: EntryId)
    requires WitnessesOk(env, s) && s.observationGeneration > 0
    ensures WitnessesOk(env, RecordWitness(env, s, info, e))
  {
    hide RecordWitness, WitnessCurrent, AuthorityOf, Canonical, SameTriple;
    var t := RecordWitness(env, s, info, e);
    if t != s {
      FreshWitness(env, s, info, e);
      RecordFrame(env, s, info, e);
      assert SameAuthority(s, t);
      OtherWitnesses(env, s, t, info.address);
    }
  }

  lemma RecordFrame(env: Protocol, s: Registry, info: DeviceInfo, e: EntryId)
    ensures var t := RecordWitness(env, s, info, e);
      t == s.(proofGeneration := t.proofGeneration, witnesses := t.witnesses) &&
      t.proofGeneration >= s.proofGeneration &&
      forall a: Addr :: a in t.witnesses && a != info.address ==> a in s.witnesses && t.witnesses[a] == s.witnesses[a]
  {
    hide Canonical, Key, CurrentKey;
  }

  // ---- the operations ----------------------------------------------------------------

  // Stamping, confirming and syncing what registerLocked admitted.
  ghost function Settled(s: Registry, a: Addr, e: EntryId, stamp: Stamp, confirm: bool): Registry
  {
    var s1 := Stamped(s, a, stamp);
    Tick(SyncFaces(if confirm then ConfirmTopology(s1, a, e) else s1, e))
  }

  lemma SettledKeeps(s: Registry, a: Addr, e: EntryId, stamp: Stamp, confirm: bool)
    requires Sound(s, {e}) && TopologyOk(s.topology, s.entries) && Homed(s, a, e)
    requires At(s, e).physical == Canonical(At(s, e).info)
    ensures Core(Settled(s, a, e, stamp, confirm))
    ensures SameAuthority(s, Settled(s, a, e, stamp, confirm))
    ensures Settled(s, a, e, stamp, confirm).witnesses == s.witnesses
  {
    hide Sound, TopologyOk, Canonical, ConfirmTopology, SyncFaces, Stamped, SameAuthority, FacesOf, Homed;
    var s1 := Stamped(s, a, stamp);
    StampedSound(s, a, e, stamp);
    ConfirmKeeps(s1, a, e);
    ConfirmFrame(s1, a, e);
    var s2 := if confirm then ConfirmTopology(s1, a, e) else s1;
    SyncKeeps(s2, e);
    TickKeeps(SyncFaces(s2, e));
    FacedAuthority(s, s2, e, FacesOf(At(s2, e).addresses, s2.table));
  }

  lemma StampedSound(s: Registry, a: Addr, e: EntryId, stamp: Stamp)
    requires Sound(s, {e}) && Homed(s, a, e)
    ensures var t := Stamped(s, a, stamp); Sound(t, {e}) && e in t.order && t == s.(table := t.table)
  {
    SlotOwner(s, a, e);
    StampOwner(s, a, e, stamp);
    hide Sound, StampSlot;
    StampKeeps(s, a, e, StampSlot(SlotAt(s.table, a), stamp));
  }

  // Rebuilding faces leaves every claim and identity alone.
  lemma FacedAuthority(s: Registry, t: Registry, e: EntryId, faces: seq<BusFace>)
    requires t == s.(table := t.table)
    ensures SameAuthority(s, Tick(WithEntry(t, e, At(t, e).(faces := faces))))
    ensures Tick(WithEntry(t, e, At(t, e).(faces := faces))).witnesses == s.witnesses
    ensures Tick(WithEntry(t, e, At(t, e).(faces := faces))).topology == s.topology
    ensures Tick(WithEntry(t, e, At(t, e).(faces := faces))).entries == s.entries
  {}

  lemma StampOwner(s: Registry, a: Addr, e: EntryId, stamp: Stamp)
    requires SlotAt(s.table, a).device == Some(e)
    ensures StampSlot(SlotAt(s.table, a), stamp).device == Some(e)
  {}

  lemma SlotOwner(s: Registry, a: Addr, e: EntryId)
    requires Sound(s, {e}) && Homed(s, a, e)
    ensures SlotAt(s.table, a).device == Some(e) && a in s.table
  {
    hide Partition, IndexRows, Canon, FacesSynced;
  }

  lemma ConfirmFrame(s: Registry, a: Addr, e: EntryId)
    ensures var t := ConfirmTopology(s, a, e); t == s.(table := t.table)
  {}

  lemma TickKeeps(s: Registry)
    requires Sound(s, {})
    ensures Sound(Tick(s), {})
  {
    hide Partition, SlotsAgree, IndexRows, Canon, FacesSynced;
  }

  lemma WitnessFieldsKept(env: Protocol, s: Registry)
    requires Core(s)
    ensures Core(Reconcile(env, s))
  {
    hide Partition, SlotsAgree, IndexRows, Canon, FacesSynced, TopologyOk, WitnessCurrent;
  }

  lemma RecordFieldsKept(env: Protocol, s: Registry, info: DeviceInfo, e: EntryId)
    requires Core(s)
    ensures Core(RecordWitness(env, s, info, e))
  {
    RecordFrame(env, s, info, e);
    hide Partition, SlotsAgree, IndexRows, Canon, FacesSynced, TopologyOk, RecordWitness;
  }

  ghost predicate SameRecords(s: Registry, t: Registry)
  {
    t.witnesses == s.witnesses && t.observationGeneration == s.observationGeneration &&
    t.proofGeneration == s.proofGeneration
  }

  lemma DetachFrame(s: Registry, e: EntryId, a: Addr)
    ensures SameRecords(s, Detach(s, e, a))
  {
    hide RetainBinding, AdoptSlots, FacesOf, ForgetAddress, Without;
  }

  lemma MergeFrame(s: Registry, dst: EntryId, src: EntryId)
    ensures SameRecords(s, MergeGroup(s, dst, src))
  {
    hide Absorb, RetainBinding, MoveAll, MoveSlots, Without, IncludingAll;
  }

  lemma SettleFrame(s: Registry, info: DeviceInfo, d: Decision)
    ensures SameRecords(s, Settle(s, info, d))
  {
    hide Key, Canonical, Detach, MergeGroup, CurrentKey;
    var s0 := if Key(Canonical(info)) == "" then s else DropStale(s, Key(Canonical(info)));
    if d.existing.Some? && d.existing != d.target {
      DetachFrame(s0, d.existing.value, info.address);
      if d.target.Some? { MergeFrame(s0, d.target.value, d.existing.value); }
    }
  }

  // Placing an address touches the address map, the table, the arena and the order.
  lemma PlaceFrame(s: Registry, a: Addr, d: Decision)
    ensures var t, e := Place(s, a, d), TargetOf(s, d);
      t == s.(entries := s.entries[a := e], table := s.table[a := SlotAt(s.table, a).(device := Some(e))],
              arena := t.arena, order := t.order, next := t.next)
  {
    hide Including, NewEntry, Look, TargetOf, SlotAt;
  }

  lemma AdmitFrame(s: Registry, info: DeviceInfo)
    ensures SameRecords(s, Admit(s, info))
  {
    var d := Decide(s, info);
    SettleFrame(s, info, d);
    hide Decide, Settle, Key, Canonical, StoredInfo, AuthorityKey, Publish, Place, TargetOf;
    var s1 := Settle(s, info, d);
    var e := TargetOf(s1, d);
    var s2 := Place(s1, info.address, d);
    PlaceFrame(s1, info.address, d);
    var stored := StoredInfo(info, At(s2, e), d.incumbent.Some? && d.incumbent != d.existing);
    PublishFrame(WithEntry(s2, e, At(s2, e).(info := stored, physical := Canonical(stored))), e,
                 AuthorityKey(info, At(s2, e), d.conflict));
  }

  lemma SettledFrame(s: Registry, a: Addr, e: EntryId, stamp: Stamp, confirm: bool)
    ensures var t := Settled(s, a, e, stamp, confirm);
      t == s.(table := t.table, arena := t.arena, observationGeneration := s.observationGeneration + 1)
  {
    hide ConfirmTopology, StampSlot, FacesOf, AdoptSlots;
    ConfirmFrame(Stamped(s, a, stamp), a, e);
  }

  // What a registration does once its entry is admitted, short of a new witness.
  lemma AdmittedSettles(env: Protocol, s: Registry, info: DeviceInfo, stamp: Stamp, confirm: bool)
    requires WellFormed(env, s) && !Decide(s, info).retained
    ensures var t := Reconcile(env, Settled(Admit(s, info), info.address, AdmittedEntry(s, info), stamp, confirm));
      WellFormed(env, t) && t.observationGeneration > 0
  {
    var t, e := Admit(s, info), AdmittedEntry(s, info);
    var u := Settled(t, info.address, e, stamp, confirm);
    AdmitKeeps(s, info);
    AdmitFrame(s, info);
    hide Decide, Admit, AdmittedEntry, Canonical, Sound, TopologyOk;
    SettledKeeps(t, info.address, e, stamp, confirm);
    SettledFrame(t, info.address, e, stamp, confirm);
    hide Settled, Core, Homed;
    StillNumbered(env, s, u);
    hide Numbered, WitnessCurrent, WitnessesOk;
    ReconcileKeeps(env, u);
    WitnessFieldsKept(env, u);
    ReconcileGenerations(env, u);
  }

  lemma StillNumbered(env: Protocol, s: Registry, u: Registry)
    requires WitnessesOk(env, s) && u.witnesses == s.witnesses
    requires u.proofGeneration >= s.proofGeneration && u.observationGeneration >= s.observationGeneration
    ensures Numbered(u)
  {
    hide WitnessCurrent;
  }

  lemma RegisterKeeps(env: Protocol, s: Registry, info: DeviceInfo, now: Time)
    requires WellFormed(env, s)
    ensures WellFormed(env, Register(env, s, info, now))
  {
    if !Decide(s, info).retained {
      var e := AdmittedEntry(s, info);
      var complete := Qualified(Canonical(info));
      var stamp := Observed(if complete then CONFIRMED else CANDIDATE, now);
      AdmittedSettles(env, s, info, stamp, complete);
      hide Decide, Admit, AdmittedEntry, Canonical, Qualified, ConfirmTopology, SyncFaces, Reconcile;
      hide Core, WitnessesOk, RecordWitness;
      var u := Reconcile(env, Settled(Admit(s, info), info.address, e, stamp, complete));
      RecordKeeps(env, u, info, e);
      RecordFieldsKept(env, u, info, e);
    }
  }

  lemma RegisterMarkedKeeps(env: Protocol, s: Registry, info: DeviceInfo, stamp: Stamp)
    requires WellFormed(env, s)
    ensures WellFormed(env, RegisterMarked(env, s, info, stamp))
  {
    if !Decide(s, info).retained {
      AdmittedSettles(env, s, info, stamp, false);
      hide Decide, Admit, AdmittedEntry, SyncFaces, Reconcile, WellFormed;
    }
  }

  lemma ReconcileGenerations(env: Protocol, s: Registry)
    ensures var t := Reconcile(env, s);
      t == s.(witnesses := t.witnesses)
  {
    hide WitnessCurrent;
  }

  lemma SettledWellFormed(env: Protocol, s: Registry, a: Addr, stamp: Stamp, confirm: bool)
    requires WellFormed(env, s) && a in s.entries
    ensures WellFormed(env, Settled(s, a, s.entries[a], stamp, confirm))
  {
    var e := s.entries[a];
    var t := Settled(s, a, e, stamp, confirm);
    InOrder(s.order, s.arena, s.entries, a);
    SkipMore(s, e);
    assert At(s, e).physical == Canonical(At(s, e).info);
    hide Sound, TopologyOk, Settled, Canonical;
    SettledKeeps(s, a, e, stamp, confirm);
    SettledFrame(s, a, e, stamp, confirm);
    hide Core, Homed;
    WitnessesFrame(env, s, t);
  }

  // A slot that belongs to no device.
  lemma FreeSlotKeeps(env: Protocol, s: Registry, a: Addr, slot: AddressSlot)
    requires WellFormed(env, s) && a !in s.entries && slot.device == None
    ensures WellFormed(env, WithSlot(s, a, slot))
  {
    hide Canonical, StableKey, IndexRows, Canon, TopologyOk, WitnessesOk;
    var table := s.table[a := slot];
    forall x | x in s.order
      ensures FacesOf(Look(s.arena, x).addresses, table) == FacesOf(Look(s.arena, x).addresses, s.table)
    {
      assert a !in Look(s.arena, x).addresses;
    }
    hide FacesOf;
    FreeSlotWitnesses(env, s, a, slot);
  }

  lemma FreeSlotWitnesses(env: Protocol, s: Registry, a: Addr, slot: AddressSlot)
    requires WitnessesOk(env, s)
    ensures WitnessesOk(env, WithSlot(s, a, slot))
  {
    WitnessesFrame(env, s, WithSlot(s, a, slot));
  }

  lemma TickWellFormed(env: Protocol, s: Registry)
    requires WellFormed(env, s)
    ensures WellFormed(env, Tick(s))
  {
    hide Partition, SlotsAgree, IndexRows, Canon, FacesSynced, TopologyOk;
    WitnessesFrame(env, s, Tick(s));
  }

  lemma DeviceIsEntry(s: Registry, a: Addr)
    requires SlotsAgree(s.entries, s.table)
    ensures SlotAt(s.table, a).device == ExistingAt(s, a)
  {}

  lemma MarkSlotKeeps(env: Protocol, s: Registry, a: Addr, stamp: Stamp)
    requires WellFormed(env, s)
    ensures WellFormed(env, MarkSlot(s, a, stamp))
    ensures ExistingAt(s, a).Some? ==> MarkSlot(s, a, stamp) == Settled(s, a, s.entries[a], stamp, false)
    ensures ExistingAt(s, a).None? ==> MarkSlot(s, a, stamp) == Tick(Stamped(s, a, stamp))
  {
    DeviceIsEntry(s, a);
    hide WellFormed, SyncFaces;
    if a in s.entries {
      SettledWellFormed(env, s, a, stamp, false);
    } else {
      FreeSlotKeeps(env, s, a, StampSlot(SlotAt(s.table, a), stamp));
      TickWellFormed(env, Stamped(s, a, stamp));
    }
  }

  lemma ConfirmScanKeeps(env: Protocol, s: Registry, a: Addr, now: Time)
    requires WellFormed(env, s)
    ensures WellFormed(env, ConfirmScan(s, a, now))
    ensures a in s.entries ==> ConfirmScan(s, a, now) == Settled(s, a, s.entries[a], Observed(CONFIRMED, now), true)
  {
    DeviceIsEntry(s, a);
    hide WellFormed, SyncFaces, ConfirmTopology;
    if a in s.entries {
      assert SlotAt(s.table, a).(device := Some(s.entries[a])) == SlotAt(s.table, a);
      SettledWellFormed(env, s, a, Observed(CONFIRMED, now), true);
    }
  }
}
