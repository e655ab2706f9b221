// The identity index over whole runs: current claims, row retention, provenance.
module RegistryIndexRuns {
  import opened Numerals
  import opened Identity
  import opened RegistryState
  import opened RegistryInvariant
  import opened RegistrySteps
  import opened RegistryAliasSteps
  import opened RegistryIndexTheorems

  // ---- steps that publish nothing ---------------------------------------------------

  lemma SameAuthorityIndex(s: Registry, t: Registry)
    requires SameAuthority(s, t) && t.order == s.order
    ensures IndexCurrent(t) <==> IndexCurrent(s)
  {
    hide Key;
    forall e
      ensures Owned(t.identity, t.arena, e) <==> Owned(s.identity, s.arena, e)
    {
      assert At(t, e).identityKey == At(s, e).identityKey && At(t, e).physical == At(s, e).physical;
    }
  }

  // ---- registrations -----------------------------------------------------------------

  // After admission, a registration touches slots, faces, witnesses and counters only.
  lemma RegisterAfterAdmit(env: Protocol, s: Registry, info: DeviceInfo, now: Time)
    requires WellFormed(env, s) && !Decide(s, info).retained
    ensures SameAuthority(Admit(s, info), Register(env, s, info, now))
    ensures Register(env, s, info, now).order == Admit(s, info).order
    ensures Register(env, s, info, now).topology == Admit(s, info).topology
  {
    hide Decide, Admit, AdmittedEntry, Canonical, Qualified, Reconcile, RecordWitness, WellFormed, Register, Settled;
    var complete := Qualified(Canonical(info));
    var stamp := Observed(if complete then CONFIRMED else CANDIDATE, now);
    AdmittedFrame(env, s, info, stamp, complete);
    var u := Settled(Admit(s, info), info.address, AdmittedEntry(s, info), stamp, complete);
    RegisterForm(env, s, info, now);
    ReconcileGenerations(env, u);
    RecordFrame(env, Reconcile(env, u), info, AdmittedEntry(s, info));
  }

  lemma RegisterForm(env: Protocol, s: Registry, info: DeviceInfo, now: Time)
    requires !Decide(s, info).retained
    ensures var complete := Qualified(Canonical(info));
      var stamp := Observed(if complete then CONFIRMED else CANDIDATE, now);
      var u := Settled(Admit(s, info), info.address, AdmittedEntry(s, info), stamp, complete);
      Register(env, s, info, now) == RecordWitness(env, Reconcile(env, u), info, AdmittedEntry(s, info))
  {
    hide Decide, Admit, AdmittedEntry, Canonical, Qualified, Reconcile, RecordWitness, ConfirmTopology, SyncFaces, Stamped;
  }

  lemma MarkedAfterAdmit(env: Protocol, s: Registry, info: DeviceInfo, stamp: Stamp)
    requires WellFormed(env, s) && !Decide(s, info).retained
    ensures SameAuthority(Admit(s, info), RegisterMarked(env, s, info, stamp))
    ensures RegisterMarked(env, s, info, stamp).order == Admit(s, info).order
    ensures RegisterMarked(env, s, info, stamp).topology == Admit(s, info).topology
  {
    AdmittedFrame(env, s, info, stamp, false);
    var u := Settled(Admit(s, info), info.address, AdmittedEntry(s, info), stamp, false);
    hide Decide, Admit, AdmittedEntry, SyncFaces, Reconcile, WellFormed;
    ReconcileGenerations(env, u);
    assert RegisterMarked(env, s, info, stamp) == Reconcile(env, u);
    hide RegisterMarked, Settled;
  }

  lemma AdmittedFrame(env: Protocol, s: Registry, info: DeviceInfo, stamp: Stamp, confirm: bool)
    requires WellFormed(env, s) && !Decide(s, info).retained
    ensures var t := Admit(s, info); var u := Settled(t, info.address, AdmittedEntry(s, info), stamp, confirm);
      SameAuthority(t, u) && u.order == t.order && u.topology == t.topology && u.entries == t.entries
  {
    AdmitKeeps(s, info);
    hide Decide, Admit, AdmittedEntry, Settled, Canonical, Sound, TopologyOk;
    SettledKeeps(Admit(s, info), info.address, AdmittedEntry(s, info), stamp, confirm);
    SettledFrame(Admit(s, info), info.address, AdmittedEntry(s, info), stamp, confirm);
  }

  lemma RetainedNotBlank(s: Registry, info: DeviceInfo)
    requires Decide(s, info).retained
    ensures !BlankRefresh(s, info) && Key(Canonical(info)) != ""
  {
    hide Canonical, Key, CanMerge, CurrentOwner, CompatibleEnrichment;
  }

  /** An active registration keeps the index current exactly when it is not a blank refresh. */
  lemma RegisterIndexExact(env: Protocol, s: Registry, info: DeviceInfo, now: Time)
    requires WellFormed(env, s) && IndexCurrent(s)
    ensures IndexCurrent(Register(env, s, info, now)) <==> !BlankRefresh(s, info)
  {
    if Decide(s, info).retained {
      RetainedNotBlank(s, info);
      hide BlankRefresh;
    } else {
      AdmitIndex(s, info);
      RegisterAfterAdmit(env, s, info, now);
      hide Register, Admit, IndexCurrent, BlankRefresh, Decide;
      SameAuthorityIndex(Admit(s, info), Register(env, s, info, now));
    }
  }

  /** So do the passive and the seeding registration. */
  lemma RegisterMarkedIndexExact(env: Protocol, s: Registry, info: DeviceInfo, stamp: Stamp)
    requires WellFormed(env, s) && IndexCurrent(s)
    ensures IndexCurrent(RegisterMarked(env, s, info, stamp)) <==> !BlankRefresh(s, info)
  {
    if Decide(s, info).retained {
      RetainedNotBlank(s, info);
      hide BlankRefresh;
    } else {
      AdmitIndex(s, info);
      MarkedAfterAdmit(env, s, info, stamp);
      hide RegisterMarked, Admit, IndexCurrent, BlankRefresh, Decide;
      SameAuthorityIndex(Admit(s, info), RegisterMarked(env, s, info, stamp));
    }
  }

  // ---- slot operations ------------------------------------------------------------------

  lemma StampedAuthority(s: Registry, a: Addr, stamp: Stamp)
    ensures var t := Tick(Stamped(s, a, stamp));
      SameAuthority(s, t) && t.order == s.order && t.topology == s.topology
  {
    hide StampSlot;
  }

  lemma MarkSlotAuthority(env: Protocol, s: Registry, a: Addr, stamp: Stamp)
    requires WellFormed(env, s)
    ensures SameAuthority(s, MarkSlot(s, a, stamp)) && MarkSlot(s, a, stamp).order == s.order
    ensures MarkSlot(s, a, stamp).topology == s.topology
  {
    hide MarkSlot, Settled, WellFormed, SameAuthority;
    MarkSlotKeeps(env, s, a, stamp);
    if a in s.entries { SettledAuthority(env, s, a, stamp, false); } else { StampedAuthority(s, a, stamp); }
  }

  lemma SettledAuthority(env: Protocol, s: Registry, a: Addr, stamp: Stamp, confirm: bool)
    requires WellFormed(env, s) && a in s.entries
    ensures var t := Settled(s, a, s.entries[a], stamp, confirm);
      SameAuthority(s, t) && t.order == s.order && t.topology == s.topology
  {
    InOrder(s.order, s.arena, s.entries, a);
    SkipMore(s, s.entries[a]);
    EntryCanonical(s, s.entries[a]);
    hide Sound, TopologyOk, Settled, Canonical, WitnessesOk;
    SettledKeeps(s, a, s.entries[a], stamp, confirm);
    SettledFrame(s, a, s.entries[a], stamp, confirm);
  }

  lemma ConfirmScanAuthority(env: Protocol, s: Registry, a: Addr, now: Time)
    requires WellFormed(env, s)
    ensures SameAuthority(s, ConfirmScan(s, a, now)) && ConfirmScan(s, a, now).order == s.order
    ensures ConfirmScan(s, a, now).topology == s.topology
  {
    ConfirmScanKeeps(env, s, a, now);
    if a in s.entries {
      hide ConfirmScan, Settled, WellFormed;
      SettledAuthority(env, s, a, Observed(CONFIRMED, now), true);
    }
  }

  // ---- aliases -----------------------------------------------------------------------------

  lemma RemovedMergeIndex(s: Registry, canonical: EntryId, secondary: EntryId, a: Addr, d: DeviceEntry)
    requires Core(s) && IndexCurrent(s) && a in s.entries && s.entries[a] == secondary
    requires canonical in s.order && canonical != secondary
    requires d == At(s, secondary).(addresses := Without(At(s, secondary).addresses, a)) && d.addresses == []
    ensures IndexCurrent(MergeRemoved(WithEntry(s, secondary, d), canonical, secondary))
    ensures var s0 := WithEntry(s, secondary, d);
      var key := if At(s, canonical).identityKey == "" then At(s, secondary).identityKey else At(s, canonical).identityKey;
      At(MergeRemoved(s0, canonical, secondary), canonical).identityKey ==
        if Key(Canonical(Absorb(At(s0, canonical), At(s0, secondary)).info)) == key then key else ""
  {
    hide Without, RetainBinding, Sound, StableKey, Core, Absorb, Canonical, Key, Publish, IndexCurrent, InTransit;
    var s0 := WithEntry(s, secondary, d);
    var t0 := s0.(identity := RetainBinding(s.identity, secondary, ""), order := Without(s.order, secondary));
    var absorbed := Absorb(At(s0, canonical), At(s0, secondary));
    var n := absorbed.(physical := Canonical(absorbed.info));
    var t := WithEntry(t0, canonical, n);
    var key := if At(s0, canonical).identityKey == "" then At(s0, secondary).identityKey
               else At(s0, canonical).identityKey;
    var k := if Key(n.physical) == key then key else "";
    AbsorbFrame(At(s0, canonical), At(s0, secondary));
    KeyFacts(n.physical);
    RemovedRows(s, t0, canonical, secondary, a, d, n);
    PublishIndex(t, canonical, k);
    var s1 := RemoveBindings(WithEntry(s0, canonical, n), secondary);
    PublishElsewhere(s1, t, canonical, k);
    PublishFrame(s1, canonical, k);
    PublishFrame(t, canonical, k);
    SameIndexAs(Publish(t, canonical, k), Publish(s1, canonical, k).(order := Without(s.order, secondary)));
  }

  lemma RemovedRows(s: Registry, t: Registry, canonical: EntryId, secondary: EntryId, a: Addr,
                    d: DeviceEntry, n: DeviceEntry)
    requires Core(s) && IndexCurrent(s) && a in s.entries && s.entries[a] == secondary
    requires canonical in s.order && canonical != secondary
    requires d == At(s, secondary).(addresses := Without(At(s, secondary).addresses, a)) && d.addresses == []
    requires t == WithEntry(s, secondary, d).(identity := RetainBinding(s.identity, secondary, ""),
                                              order := Without(s.order, secondary))
    requires n.identityKey == At(s, canonical).identityKey
    ensures canonical in t.order
    ensures IndexRows(t.identity, t.order, t.arena[canonical := n])
    ensures var key := if At(t, canonical).identityKey == "" then At(t, secondary).identityKey
                       else At(t, canonical).identityKey;
      (key != "" ==> NoOtherClaim(WithEntry(t, canonical, n), canonical, key)) &&
      (forall x :: x in t.order && x != canonical ==> Owned(t.identity, WithEntry(t, canonical, n).arena, x))
  {
    hide Without, RetainBinding, Sound, Core, Key, IndexCurrent, StableKey, Owned, IndexRows, NoOtherClaim;
    RemovedStillIndexed(s, t, canonical, secondary, a, d);
    EmptiedKeeps(s, secondary, a, d);
    hide InTransit;
    AbsorbedClaims(s, t, canonical, secondary, n);
    MergedRows(InTransit(s, a), t, canonical, n);
  }

  lemma RemovedStillIndexed(s: Registry, t: Registry, canonical: EntryId, secondary: EntryId, a: Addr, d: DeviceEntry)
    requires Core(s) && IndexCurrent(s) && a in s.entries && s.entries[a] == secondary
    requires canonical in s.order && canonical != secondary
    requires d == At(s, secondary).(addresses := d.addresses)
    requires t == WithEntry(s, secondary, d).(identity := RetainBinding(s.identity, secondary, ""),
                                              order := Without(s.order, secondary))
    ensures IndexCurrent(t) && secondary in s.order && canonical in t.order
    ensures forall x :: x in t.order ==> x in s.order && x != secondary
    ensures forall x: EntryId :: At(t, x).identityKey == At(s, x).identityKey
  {
    hide Without, RetainBinding, Core, Key, IndexCurrent;
    CoreInOrder(s, a);
    WithoutMembers(s.order, secondary);
    assert At(t, secondary).physical == At(s, secondary).physical;
    assert SameClaims(s, t);
    hide SameClaims;
    RetiredIndex(s, t, secondary);
  }

  lemma CoreInOrder(s: Registry, a: Addr)
    requires Core(s) && a in s.entries
    ensures s.entries[a] in s.order && Distinct(s.order)
  {
    InOrder(s.order, s.arena, s.entries, a);
    CoreOrder(s);
  }

  lemma SameIndexAs(s: Registry, t: Registry)
    requires IndexCurrent(s) && t.identity == s.identity && t.arena == s.arena && t.order == s.order
    ensures IndexCurrent(t)
  {
    hide Owned;
  }

  lemma MergedRows(s: Registry, t: Registry, canonical: EntryId, n: DeviceEntry)
    requires Sound(s.(arena := t.arena, identity := t.identity, order := t.order), {})
    requires n.identityKey == At(t, canonical).identityKey
    ensures IndexRows(t.identity, t.order, t.arena[canonical := n])
  {
    hide Partition, SlotsAgree, Canon, FacesSynced;
    RewriteKeepsRows(t.identity, t.order, t.arena, canonical, n);
  }

  lemma AbsorbedOthers(t: Registry, canonical: EntryId, n: DeviceEntry)
    requires IndexCurrent(t)
    ensures forall x :: x in t.order && x != canonical ==> Owned(t.identity, WithEntry(t, canonical, n).arena, x)
  {
    hide Key;
    forall x | x in t.order && x != canonical
      ensures Owned(t.identity, WithEntry(t, canonical, n).arena, x)
    {
      assert Owned(t.identity, t.arena, x);
    }
  }

  // Once the secondary's rows are gone nobody but the canonical entry can claim its key.
  lemma AbsorbedClaims(s: Registry, t: Registry, canonical: EntryId, secondary: EntryId, n: DeviceEntry)
    requires IndexCurrent(s) && IndexCurrent(t) && canonical in s.order && secondary in s.order && canonical != secondary
    requires canonical in t.order && forall x :: x in t.order ==> x in s.order && x != secondary
    requires forall x: EntryId :: At(t, x).identityKey == At(s, x).identityKey
    requires n.identityKey == At(t, canonical).identityKey
    ensures var key := if At(t, canonical).identityKey == "" then At(t, secondary).identityKey
                       else At(t, canonical).identityKey;
      (key != "" ==> NoOtherClaim(WithEntry(t, canonical, n), canonical, key)) &&
      (forall x :: x in t.order && x != canonical ==> Owned(t.identity, WithEntry(t, canonical, n).arena, x))
  {
    hide Key;
    AbsorbedOthers(t, canonical, n);
    assert Owned(s.identity, s.arena, canonical) && Owned(s.identity, s.arena, secondary);
    var key := if At(t, canonical).identityKey == "" then At(t, secondary).identityKey
               else At(t, canonical).identityKey;
    forall x | key != "" && x in t.order && x != canonical
      ensures At(WithEntry(t, canonical, n), x).identityKey != key
    {
      assert Owned(s.identity, s.arena, x);
      assert At(t, x).identityKey == At(s, x).identityKey;
      assert At(t, secondary).identityKey == At(s, secondary).identityKey;
      assert At(t, canonical).identityKey == At(s, canonical).identityKey;
    }
  }

  lemma YieldIndex(s: Registry, canonical: EntryId, secondary: EntryId, a: Addr)
    requires Core(s) && IndexCurrent(s) && a in s.entries && s.entries[a] == secondary
    requires canonical in s.order && canonical != secondary
    ensures IndexCurrent(Yield(s, canonical, secondary, a))
  {
    var d := At(s, secondary).(addresses := Without(At(s, secondary).addresses, a));
    if d.addresses == [] {
      hide Core, IndexCurrent, MergeRemoved, SyncFaces, Without;
      RemovedMergeIndex(s, canonical, secondary, a, d);
    } else {
      hide Core, Without, MergeRemoved, AdoptSlots, FacesOf;
      SameAuthorityIndex(s, Yield(s, canonical, secondary, a));
    }
  }

  lemma EnterAuthority(s: Registry, e: EntryId, a: Addr)
    ensures var t := Enter(s, e, a);
      t.order == s.order && t.identity == s.identity &&
      forall x: EntryId :: At(t, x).identityKey == At(s, x).identityKey && At(t, x).physical == At(s, x).physical
  {
    hide Including, AdoptSlots, FacesOf;
  }

  lemma EnterIndex(s: Registry, e: EntryId, a: Addr)
    requires IndexCurrent(s)
    ensures IndexCurrent(Enter(s, e, a))
  {
    EnterAuthority(s, e, a);
    hide Enter, IndexCurrent;
    var z := Enter(s, e, a).(entries := s.entries);
    SameAuthorityIndex(s, z);
    SameIndexAs(z, Enter(s, e, a));
  }

  lemma JoinIndex(s: Registry, e: EntryId, a: Addr)
    requires Core(s) && IndexCurrent(s) && e in s.order
    ensures IndexCurrent(JoinAlias(s, e, a))
  {
    JoinShape(s, e, a);
    hide Core, Yield, IndexCurrent, JoinAlias, Enter;
    if a in s.entries && s.entries[a] != e {
      YieldIndex(s, e, s.entries[a], a);
      EnterIndex(Yield(s, e, s.entries[a], a), e, a);
    } else {
      EnterIndex(s, e, a);
    }
  }

  lemma AliasFrame(env: Protocol, s: Registry, a: Addr, b: Addr)
    ensures var t, u := AliasAddresses(env, s, a, b), AliasGroups(s, a, b);
      t == u.(observationGeneration := t.observationGeneration, topology := t.topology, witnesses := t.witnesses) &&
      t.topology == (if ExistingAt(u, a).Some? && ExistingAt(u, a) == ExistingAt(u, b)
                     then RecordEdge(u.topology, a, b) else u.topology)
  {
    hide AliasGroups, WitnessCurrent, RecordEdge;
  }

  /** Aliasing keeps the index current, whatever the two sides held. */
  lemma AliasIndex(env: Protocol, s: Registry, a: Addr, b: Addr)
    requires WellFormed(env, s) && IndexCurrent(s)
    ensures IndexCurrent(AliasAddresses(env, s, a, b))
  {
    hide Core, AliasGroups, JoinAlias, WitnessesOk, EnsureSlot, IndexCurrent, AliasAddresses, RecordEdge;
    AliasCases(env, s, a, b);
    AliasFrame(env, s, a, b);
    var s0 := EnsureSlot(EnsureSlot(s, a), b);
    SameIndexAs(s, s0);
    if a in s.entries {
      JoinIndex(s0, s.entries[a], b);
    } else if b in s.entries {
      JoinIndex(s0, s.entries[b], a);
    }
    SameIndexAs(AliasGroups(s, a, b), AliasAddresses(env, s, a, b));
  }
}
