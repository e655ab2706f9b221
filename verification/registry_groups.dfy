// Which addresses share an entry after a step, and what a registration remembers.
module RegistryGroups {
  import opened Numerals
  import opened Identity
  import opened RegistryState
  import opened RegistryInvariant
  import opened RegistrySteps
  import opened RegistryAliasSteps
  import opened RegistryIndexTheorems
  import opened RegistryIndexRuns
  import opened RegistryProvenance
  import opened RegistrySlots
  import opened RegistryTheorems

  // ---- registrations ---------------------------------------------------------------

  /** The address groups after a registration: its address joins the selected entry, alone or with its group. */
  ghost function Regrouped(s: Registry, info: DeviceInfo): map<Addr, EntryId>
  {
    var d := Decide(s, info);
    var e := if d.target.Some? then d.target.value else s.next;
    map a: Addr | a in s.entries.Keys + {info.address} ::
      if a == info.address || (d.merge && Some(s.entries[a]) == d.existing) then e else s.entries[a]
  }

  lemma DetachEntries(s: Registry, e: EntryId, a: Addr)
    ensures Detach(s, e, a).entries == s.entries - {a}
  {
    hide Without, RetainBinding, FacesOf, AdoptSlots, ForgetAddress;
  }

  lemma MergeEntries(s: Registry, dst: EntryId, src: EntryId)
    ensures MergeGroup(s, dst, src).entries == MoveAll(s.entries, At(s, src).addresses, dst)
  {
    hide Absorb, IncludingAll, Without, RetainBinding, MoveSlots, MoveAll;
  }

  lemma DropEntries(s: Registry, k: string)
    ensures DropStale(s, k) == s.(identity := DropStale(s, k).identity)
  {
    hide CurrentKey;
  }

  lemma SettleEntries(s: Registry, info: DeviceInfo)
    requires Core(s)
    ensures var d := Decide(s, info);
      Settle(s, info, d).entries ==
        if d.existing.Some? && d.existing != d.target then
          (if d.merge then MoveAll(s.entries, At(s, d.existing.value).addresses, d.target.value) else s.entries - {info.address})
        else s.entries
  {
    DecisionFacts(s, info);
    hide Decide, Key, Canonical, MoveAll, Core, DropStale, Detach, MergeGroup;
    var d := Decide(s, info);
    var key := Key(Canonical(info));
    DropEntries(s, key);
    var s1 := if key == "" then s else DropStale(s, key);
    if d.existing.Some? && d.existing != d.target {
      if d.merge { MergeEntries(s1, d.target.value, d.existing.value); } else { DetachEntries(s1, d.existing.value, info.address); }
    }
  }

  lemma GroupMembers(order: seq<EntryId>, arena: Arena, entries: map<Addr, EntryId>, e: EntryId, a: Addr)
    requires Partition(order, arena, entries) && e in order
    ensures a in Look(arena, e).addresses <==> a in entries && entries[a] == e
  {}

  lemma CorePartition(s: Registry)
    requires Core(s)
    ensures Partition(s.order, s.arena, s.entries)
  {
    hide SlotsAgree, IndexRows, Canon, FacesSynced, TopologyOk;
  }

  lemma MovedGroup(s: Registry, e: EntryId, dst: EntryId)
    requires Core(s) && e in s.order
    ensures MoveAll(s.entries, At(s, e).addresses, dst) ==
            map a: Addr | a in s.entries :: if s.entries[a] == e then dst else s.entries[a]
  {
    hide Core, Partition, Look;
    CorePartition(s);
    forall a: Addr ensures a in At(s, e).addresses <==> a in s.entries && s.entries[a] == e {
      GroupMembers(s.order, s.arena, s.entries, e, a);
    }
  }

  lemma ExistingIs(s: Registry, a: Addr)
    ensures ExistingAt(s, a) == if a in s.entries then Some(s.entries[a]) else None
  {}

  lemma AdmitEntries(s: Registry, info: DeviceInfo)
    requires Core(s) && !Decide(s, info).retained
    ensures Admit(s, info).entries == Regrouped(s, info)
    ensures Regrouped(s, info)[info.address] == AdmittedEntry(s, info)
  {
    hide Decide, Settle, Core, Key, Canonical, Place, Refresh, MoveAll, CurrentOwner, ExistingAt;
    DecisionFacts(s, info);
    SettleEntries(s, info);
    SettleFresh(s, info);
    var d := Decide(s, info);
    if d.merge { MovedGroup(s, d.existing.value, d.target.value); }
    ExistingIs(s, info.address);
    var s1 := Settle(s, info, d);
    PlaceFrame(s1, info.address, d);
    RefreshFrame(Place(s1, info.address, d), TargetOf(s1, d), info, d);
  }

  lemma RegroupedResolves(s: Registry, info: DeviceInfo)
    ensures info.address in Regrouped(s, info)
  {
    hide Decide;
  }

  /** After an observation that is not a retained conflict, exactly these groups. */
  lemma ObservationGroups(env: Protocol, s: Registry, step: Step)
    requires WellFormed(env, s) && Observation(step).Some? && !Decide(s, Observation(step).value).retained
    ensures Do(env, s, step).entries == Regrouped(s, Observation(step).value)
  {
    hide WellFormed, Core, Admit, Decide, Register, RegisterMarked, AdmittedEntry, Regrouped;
    hide MarkSlot, ConfirmScan, AliasAddresses, AdmitCompanion;
    var info := Observation(step).value;
    WellFormedCore(env, s);
    AdmitEntries(s, info);
    match step {
      case Observe(_, now) => RegisterAfterAdmit(env, s, info, now);
      case Seed(_, role, at) => MarkedAfterAdmit(env, s, info, SeedMark(role, at));
      case Passive(_, role, at) => MarkedAfterAdmit(env, s, info, PassiveMark(role, at));
    }
  }

  // ---- aliases -----------------------------------------------------------------------

  lemma YieldEntries(s: Registry, canonical: EntryId, secondary: EntryId, a: Addr)
    ensures Yield(s, canonical, secondary, a).entries == s.entries
  {
    hide Without, RetainBinding, FacesOf, AdoptSlots, Absorb, PublishedKey, PublishedRows, Canonical, Key;
  }

  lemma JoinEntries(s: Registry, canonical: EntryId, a: Addr)
    ensures JoinAlias(s, canonical, a).entries == s.entries[a := canonical]
  {
    hide Yield, FacesOf, AdoptSlots, Including;
    var device := SlotAt(s.table, a).device;
    if device.Some? && device.value != canonical { YieldEntries(s, canonical, device.value, a); }
  }

  /** After an alias only one side moves: the second operand, or the first when only the second is known. */
  ghost function Aliased(s: Registry, a: Addr, b: Addr): map<Addr, EntryId>
  {
    if a in s.entries then s.entries[b := s.entries[a]]
    else if b in s.entries then s.entries[a := s.entries[b]]
    else s.entries
  }

  lemma AliasEntries(env: Protocol, s: Registry, a: Addr, b: Addr)
    requires WellFormed(env, s)
    ensures AliasAddresses(env, s, a, b).entries == Aliased(s, a, b)
  {
    hide WellFormed, AliasGroups, JoinAlias, EnsureSlot, AliasAddresses, RecordEdge;
    AliasCases(env, s, a, b);
    AliasFrame(env, s, a, b);
    var s0 := EnsureSlot(EnsureSlot(s, a), b);
    if a in s.entries { JoinEntries(s0, s.entries[a], b); }
    else if b in s.entries { JoinEntries(s0, s.entries[b], a); }
  }

  lemma QuietGroups(env: Protocol, s: Registry, step: Step)
    requires WellFormed(env, s) && Observation(step).None? && !step.Alias?
    ensures Do(env, s, step).entries == s.entries
  {
    hide WellFormed, MarkSlot, ConfirmScan, AdmitCompanion, Register, RegisterMarked, AliasAddresses;
    match step
    case AddProvider =>
    case MarkSeed(a, role, at) => MarkSlotAuthority(env, s, a, SeedMark(role, at));
    case MarkPassive(a, role, at) => MarkSlotAuthority(env, s, a, PassiveMark(role, at));
    case Confirm(a, now) => ConfirmScanAuthority(env, s, a, now);
    case Companion(source, at) => CompanionAuthority(env, s, source, at);
  }

  // ---- joins and splits -----------------------------------------------------------------

  /** The two entries that a step may bring together: those of an alias's operands, or the entry of a complete
      observation's address and the current owner of its triple. */
  ghost function Evidence(s: Registry, step: Step): set<EntryId>
  {
    if step.Alias? then
      (if step.a in s.entries then {s.entries[step.a]} else {}) + (if step.b in s.entries then {s.entries[step.b]} else {})
    else if Observation(step).Some? && Key(Canonical(Observation(step).value)) != "" then
      var info := Observation(step).value;
      (if info.address in s.entries then {s.entries[info.address]} else {}) +
      (if CurrentOwner(s, Key(Canonical(info))).Some? then {CurrentOwner(s, Key(Canonical(info))).value} else {})
    else {}
  }

  lemma RegroupedJoins(s: Registry, info: DeviceInfo, a: Addr, b: Addr)
    requires Core(s) && a in s.entries && b in s.entries && s.entries[a] != s.entries[b]
    requires Regrouped(s, info)[a] == Regrouped(s, info)[b]
    ensures Key(Canonical(info)) != "" && info.address in s.entries && CurrentOwner(s, Key(Canonical(info))).Some?
    ensures {s.entries[a], s.entries[b]} == {s.entries[info.address], CurrentOwner(s, Key(Canonical(info))).value}
  {
    hide Decide, Core, Key, Canonical, CurrentOwner, ExistingAt;
    DecisionFacts(s, info);
    ExistingIs(s, info.address);
    NextIsNew(s, a);
    NextIsNew(s, b);
  }

  lemma NextIsNew(s: Registry, a: Addr)
    requires Core(s) && a in s.entries
    ensures s.entries[a] != s.next
  {
    CorePartition(s);
    hide SlotsAgree, IndexRows, Canon, FacesSynced, TopologyOk;
    InOrder(s.order, s.arena, s.entries, a);
  }

  /** No step brings two addresses under one entry without evidence: an alias naming both entries, or a complete
      triple observed at an address of one and owned by the other. */
  lemma JoinsNeedEvidence(env: Protocol, s: Registry, step: Step, a: Addr, b: Addr)
    requires WellFormed(env, s) && a in s.entries && b in s.entries && s.entries[a] != s.entries[b]
    requires var t := Do(env, s, step); a in t.entries && b in t.entries && t.entries[a] == t.entries[b]
    ensures Evidence(s, step) == {s.entries[a], s.entries[b]}
  {
    hide WellFormed, Core, Do, Decide, Regrouped, Key, Canonical, CurrentOwner;
    WellFormedCore(env, s);
    if Observation(step).Some? {
      var info := Observation(step).value;
      if Decide(s, info).retained {
        RetainedStep(env, s, step);
      } else {
        ObservationGroups(env, s, step);
        RegroupedJoins(s, info, a, b);
      }
    } else if step.Alias? {
      AliasStep(env, s, step);
      AliasEntries(env, s, step.a, step.b);
    } else {
      QuietGroups(env, s, step);
    }
  }

  lemma AliasStep(env: Protocol, s: Registry, step: Step)
    requires step.Alias?
    ensures Do(env, s, step) == AliasAddresses(env, s, step.a, step.b)
  {
    hide Register, RegisterMarked, MarkSlot, ConfirmScan, AliasAddresses, AdmitCompanion;
  }

  lemma RegroupedSplits(s: Registry, info: DeviceInfo, a: Addr, b: Addr)
    requires Core(s) && !Decide(s, info).retained && a in s.entries && b in s.entries && s.entries[a] == s.entries[b]
    requires Regrouped(s, info)[a] != Regrouped(s, info)[b]
    ensures info.address in {a, b} && Detaches(s, info)
  {
    hide Decide, Core, Key, Canonical, CurrentOwner;
    DecisionFacts(s, info);
  }

  /** No step takes two addresses of one entry apart but a conflicting complete triple observed at one of them,
      or an alias that moves one of them to another entry. */
  lemma SplitsNeedConflict(env: Protocol, s: Registry, step: Step, a: Addr, b: Addr)
    requires WellFormed(env, s) && a in s.entries && b in s.entries && s.entries[a] == s.entries[b]
    requires var t := Do(env, s, step); a in t.entries && b in t.entries && t.entries[a] != t.entries[b]
    ensures (step.Alias? && step.b in {a, b} && step.a in s.entries && s.entries[step.a] != s.entries[step.b]) ||
            DetachesAt(s, step, a) || DetachesAt(s, step, b)
  {
    hide WellFormed, Core, Do, Decide, Regrouped, Detaches, AliasAddresses;
    WellFormedCore(env, s);
    if Observation(step).Some? {
      var info := Observation(step).value;
      if Decide(s, info).retained {
        RetainedStep(env, s, step);
      } else {
        ObservationGroups(env, s, step);
        RegroupedSplits(s, info, a, b);
      }
    } else if step.Alias? {
      AliasStep(env, s, step);
      AliasEntries(env, s, step.a, step.b);
    } else {
      QuietGroups(env, s, step);
    }
  }

  // ---- what is remembered ----------------------------------------------------------------

  /** The same information but for the display address. */
  ghost predicate SameMembers(x: DeviceInfo, y: DeviceInfo)
  {
    x == y.(address := x.address)
  }

  // A known member is replaced only by a heard one, and a heard one is stored.
  ghost predicate Heard(heard: string, known: string, stored: string)
  {
    (heard != "" ==> stored == heard) && (heard == "" && known != "" ==> stored == known)
  }

  /** What an entry stores after an observation, given what it knew: every heard member but the device id as it
      came, nothing known forgotten. A device id is replaced only at its own address's entry. */
  ghost predicate Remembers(info: DeviceInfo, known: DeviceInfo, stored: DeviceInfo, own: bool)
  {
    Heard(info.manufacturer, known.manufacturer, stored.manufacturer) && Heard(info.serial, known.serial, stored.serial) &&
    Heard(info.mac, known.mac, stored.mac) && Heard(info.software, known.software, stored.software) &&
    Heard(info.hardware, known.hardware, stored.hardware) &&
    (own ==> Heard(info.deviceID, known.deviceID, stored.deviceID)) &&
    (!own && known.deviceID != "" ==> stored.deviceID == known.deviceID)
  }

  lemma StoredRemembers(info: DeviceInfo, d: DeviceEntry, preserve: bool)
    ensures Remembers(info, d.info, StoredInfo(info, d, preserve), !preserve)
  {}

  lemma AbsorbedKeepsKnown(dst: DeviceEntry, src: DeviceEntry)
    ensures var i := Absorb(dst, src).info;
      (dst.info.manufacturer != "" ==> i.manufacturer == dst.info.manufacturer) &&
      (dst.info.deviceID != "" ==> i.deviceID == dst.info.deviceID) && (dst.info.serial != "" ==> i.serial == dst.info.serial) &&
      (dst.info.mac != "" ==> i.mac == dst.info.mac) && (dst.info.software != "" ==> i.software == dst.info.software) &&
      (dst.info.hardware != "" ==> i.hardware == dst.info.hardware)
  {}

  lemma DetachMembers(s: Registry, e: EntryId, a: Addr, x: EntryId)
    ensures SameMembers(At(Detach(s, e, a), x).info, At(s, x).info)
  {
    hide Without, RetainBinding, FacesOf, AdoptSlots, ForgetAddress;
  }

  // The information the selected entry holds when the observation reaches it.
  lemma SettledMembers(s: Registry, info: DeviceInfo, x: EntryId)
    requires Core(s)
    ensures var d := Decide(s, info); var after := At(Settle(s, info, d), x).info;
      (if d.merge && d.target == Some(x) then after == Absorb(At(s, x), At(s, d.existing.value)).info
       else SameMembers(after, At(s, x).info))
  {
    hide Decide, Key, Canonical, Core, DropStale, Detach, MergeGroup, Absorb;
    DecisionFacts(s, info);
    var d := Decide(s, info);
    var key := Key(Canonical(info));
    DropEntries(s, key);
    var s1 := if key == "" then s else DropStale(s, key);
    if d.existing.Some? && d.existing != d.target {
      if d.merge { MergeShape(s1, d.target.value, d.existing.value); } else { DetachMembers(s1, d.existing.value, info.address, x); }
    }
  }

  lemma PlacedMembers(s: Registry, a: Addr, d: Decision, x: EntryId)
    ensures x != TargetOf(s, d) || d.target.Some? ==> At(Place(s, a, d), x).info == At(s, x).info
  {
    hide Including;
  }

  lemma RefreshedMembers(s: Registry, e: EntryId, info: DeviceInfo, d: Decision, x: EntryId)
    ensures At(Refresh(s, e, info, d), x).info ==
      if x == e then StoredInfo(info, At(s, e), d.incumbent.Some? && d.incumbent != d.existing) else At(s, x).info
  {
    hide StoredInfo, AuthorityKey, PublishedRows, PublishedKey, Canonical;
  }

  lemma KnownRemembered(info: DeviceInfo, known: DeviceEntry, other: DeviceEntry, placed: DeviceEntry, stored: DeviceInfo, own: bool)
    requires placed.info == Absorb(known, other).info || SameMembers(placed.info, known.info)
    requires Remembers(info, placed.info, stored, own)
    ensures Remembers(info, known.info, stored, own)
  {
    AbsorbedKeepsKnown(known, other);
    hide Absorb;
  }

  /** An admitted observation: the selected entry remembers, every other entry's information stays. */
  lemma AdmitRemembers(s: Registry, info: DeviceInfo, x: EntryId)
    requires Core(s) && !Decide(s, info).retained
    ensures var e := AdmittedEntry(s, info); var stored := At(Admit(s, info), x).info;
      (x == e && e in s.order ==> Remembers(info, At(s, e).info, stored, ExistingAt(s, info.address) == Some(e))) &&
      (x != e && x in s.order ==> SameMembers(stored, At(s, x).info))
  {
    hide Decide, Settle, Core, Key, Canonical, Place, Refresh, CurrentOwner, Absorb, StoredInfo, Remembers, Look;
    DecisionFacts(s, info);
    SettleFresh(s, info);
    SettledMembers(s, info, x);
    var d := Decide(s, info);
    var s1 := Settle(s, info, d);
    var e := TargetOf(s1, d);
    PlacedMembers(s1, info.address, d, x);
    RefreshedMembers(Place(s1, info.address, d), e, info, d, x);
    if x == e && e in s.order {
      var placed := At(Place(s1, info.address, d), e);
      var preserve := d.incumbent.Some? && d.incumbent != d.existing;
      StoredRemembers(info, placed, preserve);
      KnownRemembered(info, At(s, e), if d.existing.Some? then At(s, d.existing.value) else placed, placed,
                      StoredInfo(info, placed, preserve), !preserve);
    }
  }

  // Every entry's information and primary address are as before.
  ghost predicate SameInfo(s: Registry, t: Registry)
  {
    forall e: EntryId :: At(t, e).info == At(s, e).info && At(t, e).primary == At(s, e).primary
  }

  lemma SettledInfo(s: Registry, a: Addr, e: EntryId, stamp: Stamp, confirm: bool)
    ensures SameInfo(s, Settled(s, a, e, stamp, confirm))
  {
    hide FacesOf, AdoptSlots, StampSlot, ConfirmTopology;
    ConfirmFrame(Stamped(s, a, stamp), a, e);
  }

  lemma RegisterInfo(env: Protocol, s: Registry, info: DeviceInfo, now: Time)
    requires !Decide(s, info).retained
    ensures SameInfo(Admit(s, info), Register(env, s, info, now))
  {
    hide Decide, Admit, AdmittedEntry, Canonical, Qualified, WitnessCurrent, RecordWitness, Register, Settled;
    var complete := Qualified(Canonical(info));
    var stamp := Observed(if complete then CONFIRMED else CANDIDATE, now);
    var u := Settled(Admit(s, info), info.address, AdmittedEntry(s, info), stamp, complete);
    SettledInfo(Admit(s, info), info.address, AdmittedEntry(s, info), stamp, complete);
    RegisterForm(env, s, info, now);
    RecordFrame(env, Reconcile(env, u), info, AdmittedEntry(s, info));
  }

  lemma MarkedInfo(env: Protocol, s: Registry, info: DeviceInfo, stamp: Stamp)
    requires !Decide(s, info).retained
    ensures SameInfo(Admit(s, info), RegisterMarked(env, s, info, stamp))
  {
    hide Decide, Admit, AdmittedEntry, WitnessCurrent, SyncFaces, Stamped;
    var u := Settled(Admit(s, info), info.address, AdmittedEntry(s, info), stamp, false);
    SettledInfo(Admit(s, info), info.address, AdmittedEntry(s, info), stamp, false);
    assert RegisterMarked(env, s, info, stamp) == Reconcile(env, u);
    hide Settled;
  }

  /** What an observation leaves in an entry: the one it selects remembers all it heard and knew, and every other
      keeps its information. */
  lemma ObservationRemembers(env: Protocol, s: Registry, step: Step, x: EntryId)
    requires WellFormed(env, s) && Observation(step).Some? && !Decide(s, Observation(step).value).retained && x in s.order
    ensures var info := Observation(step).value;
      var e, stored := AdmittedEntry(s, info), At(Do(env, s, step), x).info;
      if x == e then Remembers(info, At(s, e).info, stored, ExistingAt(s, info.address) == Some(e))
      else SameMembers(stored, At(s, x).info)
  {
    hide WellFormed, Core, Admit, Decide, Register, RegisterMarked, AdmittedEntry, Remembers;
    hide MarkSlot, ConfirmScan, AliasAddresses, AdmitCompanion;
    var info := Observation(step).value;
    WellFormedCore(env, s);
    AdmitRemembers(s, info, x);
    match step {
      case Observe(_, now) => RegisterInfo(env, s, info, now);
      case Seed(_, role, at) => MarkedInfo(env, s, info, SeedMark(role, at));
      case Passive(_, role, at) => MarkedInfo(env, s, info, PassiveMark(role, at));
    }
  }

  /** No member that was known is unknown. */
  ghost predicate KeepsKnown(x: DeviceInfo, y: DeviceInfo)
  {
    (x.manufacturer != "" ==> y.manufacturer != "") && (x.deviceID != "" ==> y.deviceID != "") &&
    (x.serial != "" ==> y.serial != "") && (x.mac != "" ==> y.mac != "") &&
    (x.software != "" ==> y.software != "") && (x.hardware != "" ==> y.hardware != "")
  }

  lemma PublishInfo(s: Registry, e: EntryId, k: string)
    ensures SameInfo(s, Publish(s, e, k)) && Publish(s, e, k).order == s.order
  {
    hide PublishedKey, PublishedRows;
  }

  lemma RemovedInfo(s: Registry, e: EntryId)
    ensures SameInfo(s, RemoveBindings(s, e))
  {
    hide RetainBinding;
  }

  lemma MergeRemovedInfo(s: Registry, canonical: EntryId, secondary: EntryId, x: EntryId)
    ensures var t := MergeRemoved(s, canonical, secondary);
      t.order == Without(s.order, secondary) &&
      At(t, x).info == (if x == canonical then Absorb(At(s, canonical), At(s, secondary)).info else At(s, x).info) &&
      (x != canonical ==> At(t, x).primary == At(s, x).primary)
  {
    hide Without, Publish, RemoveBindings, Canonical, Key, Absorb;
    var absorbed := Absorb(At(s, canonical), At(s, secondary));
    var s0 := WithEntry(s, canonical, absorbed.(physical := Canonical(absorbed.info)));
    var s1 := RemoveBindings(s0, secondary);
    RemovedInfo(s0, secondary);
    var key := if At(s, canonical).identityKey == "" then At(s, secondary).identityKey else At(s, canonical).identityKey;
    var k := if Key(Canonical(absorbed.info)) == key then key else "";
    PublishInfo(s1, canonical, k);
    assert At(Publish(s1, canonical, k), x).info == At(s1, x).info == At(s0, x).info;
    assert At(Publish(s1, canonical, k), x).primary == At(s1, x).primary == At(s0, x).primary;
    assert MergeRemoved(s, canonical, secondary) == Publish(s1, canonical, k).(order := Without(s.order, secondary));
  }

  lemma SyncInfo(s: Registry, e: EntryId)
    ensures SameInfo(s, SyncFaces(s, e)) && SyncFaces(s, e).order == s.order
  {
    hide FacesOf, AdoptSlots;
  }

  lemma RehomedKnown(d: DeviceEntry, gone: Addr)
    requires d.addresses != []
    ensures KeepsKnown(d.info, Rehomed(d, gone).info)
  {}

  lemma YieldInfo(s: Registry, canonical: EntryId, secondary: EntryId, a: Addr, x: EntryId)
    requires canonical != secondary
    ensures var t := Yield(s, canonical, secondary, a);
      if Without(At(s, secondary).addresses, a) == []
      then t.order == Without(s.order, secondary) && (x != secondary ==> KeepsKnown(At(s, x).info, At(t, x).info))
      else t.order == s.order && KeepsKnown(At(s, x).info, At(t, x).info)
  {
    hide Without, MergeRemoved, SyncFaces, Rehomed, Absorb;
    var d := At(s, secondary).(addresses := Without(At(s, secondary).addresses, a));
    if d.addresses == [] {
      var s1 := WithEntry(s, secondary, d);
      MergeRemovedInfo(s1, canonical, secondary, x);
      AbsorbedKeepsKnown(At(s1, canonical), At(s1, secondary));
    } else {
      RehomedKnown(d, a);
      SyncInfo(WithEntry(s, secondary, Rehomed(d, a)), secondary);
    }
  }

  lemma JoinInfo(s: Registry, canonical: EntryId, a: Addr, x: EntryId)
    requires Distinct(s.order) && x in s.order && x in JoinAlias(s, canonical, a).order
    ensures KeepsKnown(At(s, x).info, At(JoinAlias(s, canonical, a), x).info)
  {
    hide Without, SyncFaces, Including, Yield;
    var device := SlotAt(s.table, a).device;
    var s1 := if device.Some? && device.value != canonical then Yield(s, canonical, device.value, a) else s;
    if device.Some? && device.value != canonical {
      YieldInfo(s, canonical, device.value, a, x);
      WithoutMembers(s.order, device.value);
    }
    var s2 := WithSlot(s1, a, SlotAt(s1.table, a).(device := Some(canonical)));
    var d := At(s2, canonical).(addresses := Including(At(s2, canonical).addresses, a));
    SyncInfo(WithEntry(s2, canonical, d).(entries := s2.entries[a := canonical]), canonical);
  }

  lemma AliasInfo(env: Protocol, s: Registry, a: Addr, b: Addr, x: EntryId)
    requires WellFormed(env, s) && x in s.order && x in AliasAddresses(env, s, a, b).order
    ensures KeepsKnown(At(s, x).info, At(AliasAddresses(env, s, a, b), x).info)
  {
    hide WellFormed, Core, AliasGroups, JoinAlias, EnsureSlot, AliasAddresses, RecordEdge;
    AliasCases(env, s, a, b);
    AliasFrame(env, s, a, b);
    var s0 := EnsureSlot(EnsureSlot(s, a), b);
    OrderDistinct(env, s);
    if a in s.entries { JoinInfo(s0, s.entries[a], b, x); }
    else if b in s.entries { JoinInfo(s0, s.entries[b], a, x); }
  }

  lemma OrderDistinct(env: Protocol, s: Registry)
    requires WellFormed(env, s)
    ensures Distinct(s.order)
  {
    hide WitnessesOk, SlotsAgree, IndexRows, Canon, FacesSynced, TopologyOk;
  }

  lemma MarkInfo(s: Registry, a: Addr, stamp: Stamp)
    ensures SameInfo(s, MarkSlot(s, a, stamp))
  {
    hide SyncFaces, StampSlot;
    var s1 := Stamped(s, a, stamp);
    var device := SlotAt(s.table, a).device;
    if device.Some? { SyncInfo(s1, device.value); }
    var t := SyncDevice(s1, device);
    forall e: EntryId
      ensures At(MarkSlot(s, a, stamp), e).info == At(s, e).info && At(MarkSlot(s, a, stamp), e).primary == At(s, e).primary
    {
      assert At(t, e).info == At(s1, e).info && At(t, e).primary == At(s1, e).primary;
    }
  }

  lemma ConfirmInfo(s: Registry, a: Addr, now: Time)
    ensures SameInfo(s, ConfirmScan(s, a, now))
  {
    hide SyncFaces, StampSlot, ConfirmTopology;
    if a in s.entries {
      var s1 := WithSlot(s, a, StampSlot(SlotAt(s.table, a).(device := Some(s.entries[a])), Observed(CONFIRMED, now)));
      ConfirmFrame(s1, a, s.entries[a]);
      var s2 := ConfirmTopology(s1, a, s.entries[a]);
      SyncInfo(s2, s.entries[a]);
      var s3 := SyncFaces(s2, s.entries[a]);
      forall e: EntryId
        ensures At(ConfirmScan(s, a, now), e).info == At(s, e).info && At(ConfirmScan(s, a, now), e).primary == At(s, e).primary
      {
        assert At(s3, e).info == At(s2, e).info && At(s3, e).primary == At(s2, e).primary;
      }
    }
  }

  lemma RememberedKnown(info: DeviceInfo, known: DeviceInfo, stored: DeviceInfo, own: bool)
    requires Remembers(info, known, stored, own)
    ensures KeepsKnown(known, stored)
  {}

  /** No step makes a surviving entry forget a member it knew. */
  lemma StepKeepsKnown(env: Protocol, s: Registry, step: Step, x: EntryId)
    requires WellFormed(env, s) && x in s.order && x in Do(env, s, step).order
    ensures KeepsKnown(At(s, x).info, At(Do(env, s, step), x).info)
  {
    hide WellFormed, Core, Admit, Decide, Register, RegisterMarked, AdmittedEntry, Remembers;
    hide MarkSlot, ConfirmScan, AliasAddresses, WitnessCurrent;
    match step
    case AddProvider =>
    case MarkSeed(a, role, at) => MarkInfo(s, a, SeedMark(role, at));
    case MarkPassive(a, role, at) => MarkInfo(s, a, PassiveMark(role, at));
    case Confirm(a, now) => ConfirmInfo(s, a, now);
    case Companion(source, at) =>
      if AdmitsCompanion(env, s, source, at) { MarkInfo(s, env.companionOf(source).value, PassiveMark(RoleSlave, at)); }
    case Alias(a, b) => AliasInfo(env, s, a, b, x);
    case Observe(info, _) => ObservedKnown(env, s, step, info, x);
    case Seed(info, _, _) => ObservedKnown(env, s, step, info, x);
    case Passive(info, _, _) => ObservedKnown(env, s, step, info, x);
  }

  lemma ObservedKnown(env: Protocol, s: Registry, step: Step, info: DeviceInfo, x: EntryId)
    requires WellFormed(env, s) && Observation(step) == Some(info) && x in s.order
    ensures KeepsKnown(At(s, x).info, At(Do(env, s, step), x).info)
  {
    hide WellFormed, Decide, Do, AdmittedEntry, Remembers;
    if Decide(s, info).retained {
      RetainedStep(env, s, step);
    } else {
      ObservationRemembers(env, s, step, x);
      var stored := At(Do(env, s, step), x).info;
      if x == AdmittedEntry(s, info) {
        RememberedKnown(info, At(s, x).info, stored, ExistingAt(s, info.address) == Some(x));
      }
    }
  }

  // ---- handles of removed entries -------------------------------------------------------------

  ghost predicate SameName(s: Registry, t: Registry, x: EntryId)
  {
    At(t, x).primary == At(s, x).primary && At(t, x).info.address == At(s, x).info.address
  }

  lemma DetachName(s: Registry, e: EntryId, a: Addr, x: EntryId)
    requires x !in Detach(s, e, a).order && (x == e ==> e in s.order && Distinct(s.order))
    ensures SameName(s, Detach(s, e, a), x)
  {
    if x != e { DetachShape(s, e, a); } else { DetachedName(s, e, a); }
    hide Detach;
  }

  // An entry that detaching leaves in the list is not gone; one that it takes out keeps its name.
  lemma DetachedName(s: Registry, e: EntryId, a: Addr)
    ensures Detach(s, e, a).order == s.order || SameName(s, Detach(s, e, a), e)
  {
    hide RetainBinding, SyncFaces, ForgetAddress, Without, Rehomed;
    if a in At(s, e).addresses && Without(At(s, e).addresses, a) != [] {
      var d := At(s, e).(addresses := Without(At(s, e).addresses, a));
      var s1 := s.(entries := s.entries - {a},
                   table := if SlotAt(s.table, a).device == Some(e) then s.table - {a} else s.table,
                   topology := ForgetAddress(s.topology, a));
      SyncInfo(WithEntry(s1, e, Rehomed(d, a)), e);
    }
  }

  lemma SettleName(s: Registry, info: DeviceInfo, x: EntryId)
    requires Core(s) && x !in Settle(s, info, Decide(s, info)).order
    ensures SameName(s, Settle(s, info, Decide(s, info)), x)
  {
    hide Decide, Key, Canonical, Core, DropStale, Detach, MergeGroup, Absorb, Without;
    DecisionFacts(s, info);
    CoreOrder(s);
    var d := Decide(s, info);
    var key := Key(Canonical(info));
    DropEntries(s, key);
    var s1 := if key == "" then s else DropStale(s, key);
    if d.existing.Some? && d.existing != d.target {
      if d.merge {
        MergeShape(s1, d.target.value, d.existing.value);
        WithoutMembers(s1.order, d.existing.value);
      } else {
        DetachName(s1, d.existing.value, info.address, x);
      }
    }
  }

  lemma PlacedName(s: Registry, a: Addr, d: Decision, x: EntryId)
    requires x != TargetOf(s, d)
    ensures SameName(s, Place(s, a, d), x)
  {
    hide Including;
  }

  lemma RefreshedName(s: Registry, e: EntryId, info: DeviceInfo, d: Decision, x: EntryId)
    requires x != e
    ensures SameName(s, Refresh(s, e, info, d), x)
  {
    hide StoredInfo, AuthorityKey, PublishedRows, PublishedKey, Canonical;
  }

  lemma AdmitName(s: Registry, info: DeviceInfo, x: EntryId)
    requires Core(s) && !Decide(s, info).retained && x !in Admit(s, info).order
    ensures SameName(s, Admit(s, info), x)
  {
    hide Decide, Settle, Core, Sound, Key, Canonical, Place, Refresh, TopologyOk;
    AdmitKeeps(s, info);
    var d := Decide(s, info);
    var s1 := Settle(s, info, d);
    var e := TargetOf(s1, d);
    PlacedOrder(s1, info.address, d);
    RefreshFrame(Place(s1, info.address, d), e, info, d);
    SettleName(s, info, x);
    PlacedName(s1, info.address, d, x);
    RefreshedName(Place(s1, info.address, d), e, info, d, x);
  }

  lemma PlacedOrder(s: Registry, a: Addr, d: Decision)
    ensures forall x :: x in s.order ==> x in Place(s, a, d).order
  {
    hide Including;
  }

  lemma YieldName(s: Registry, canonical: EntryId, secondary: EntryId, a: Addr, x: EntryId)
    requires canonical != secondary && x != canonical && x !in Yield(s, canonical, secondary, a).order
    requires x == secondary ==> secondary in s.order
    ensures SameName(s, Yield(s, canonical, secondary, a), x)
  {
    hide Without, MergeRemoved, SyncFaces;
    var d := At(s, secondary).(addresses := Without(At(s, secondary).addresses, a));
    if d.addresses == [] {
      MergeRemovedInfo(WithEntry(s, secondary, d), canonical, secondary, x);
    } else {
      SyncInfo(WithEntry(s, secondary, Rehomed(d, a)), secondary);
    }
  }

  lemma JoinName(s: Registry, canonical: EntryId, a: Addr, x: EntryId)
    requires canonical in JoinAlias(s, canonical, a).order && x !in JoinAlias(s, canonical, a).order
    requires SlotAt(s.table, a).device == Some(x) ==> x in s.order
    ensures SameName(s, JoinAlias(s, canonical, a), x)
  {
    hide Including, Yield, SyncFaces;
    var device := SlotAt(s.table, a).device;
    var s1 := if device.Some? && device.value != canonical then Yield(s, canonical, device.value, a) else s;
    var s2 := WithSlot(s1, a, SlotAt(s1.table, a).(device := Some(canonical)));
    var d := At(s2, canonical).(addresses := Including(At(s2, canonical).addresses, a));
    SyncInfo(WithEntry(s2, canonical, d).(entries := s2.entries[a := canonical]), canonical);
    if device.Some? && device.value != canonical { YieldName(s, canonical, device.value, a, x); }
  }

  lemma AliasName(env: Protocol, s: Registry, a: Addr, b: Addr, x: EntryId)
    requires WellFormed(env, s) && x !in AliasAddresses(env, s, a, b).order
    ensures SameName(s, AliasAddresses(env, s, a, b), x)
  {
    hide WellFormed, Core, AliasGroups, JoinAlias, EnsureSlot, AliasAddresses, RecordEdge;
    AliasCases(env, s, a, b);
    AliasFrame(env, s, a, b);
    AliasKeeps(env, s, a, b);
    AliasEntries(env, s, a, b);
    var t := AliasAddresses(env, s, a, b);
    var s0 := EnsureSlot(EnsureSlot(s, a), b);
    if a in s.entries {
      LiveEntry(env, t, b);
      SlotDevice(env, s0, b, x);
      JoinName(s0, s.entries[a], b, x);
    } else if b in s.entries {
      LiveEntry(env, t, a);
      SlotDevice(env, s0, a, x);
      JoinName(s0, s.entries[b], a, x);
    }
  }

  lemma LiveEntry(env: Protocol, s: Registry, a: Addr)
    requires WellFormed(env, s) && a in s.entries
    ensures s.entries[a] in s.order
  {
    hide WitnessesOk, SlotsAgree, IndexRows, Canon, FacesSynced, TopologyOk;
    InOrder(s.order, s.arena, s.entries, a);
  }

  lemma SlotDevice(env: Protocol, s: Registry, a: Addr, x: EntryId)
    requires WellFormed(env, s)
    ensures SlotAt(s.table, a).device == Some(x) ==> x in s.order
  {
    hide WitnessesOk, IndexRows, Canon, FacesSynced, TopologyOk;
  }

  lemma ObservedName(env: Protocol, s: Registry, step: Step, info: DeviceInfo, x: EntryId)
    requires WellFormed(env, s) && Observation(step) == Some(info) && x !in Do(env, s, step).order
    ensures SameName(s, Do(env, s, step), x)
  {
    hide WellFormed, Core, Admit, Decide, Register, RegisterMarked, AdmittedEntry;
    hide MarkSlot, ConfirmScan, AliasAddresses, AdmitCompanion, SameAuthority;
    if Decide(s, info).retained {
      RetainedStep(env, s, step);
    } else {
      WellFormedCore(env, s);
      match step {
        case Observe(_, now) => RegisterAfterAdmit(env, s, info, now); RegisterInfo(env, s, info, now);
        case Seed(_, role, at) =>
          MarkedAfterAdmit(env, s, info, SeedMark(role, at));
          MarkedInfo(env, s, info, SeedMark(role, at));
        case Passive(_, role, at) =>
          MarkedAfterAdmit(env, s, info, PassiveMark(role, at));
          MarkedInfo(env, s, info, PassiveMark(role, at));
      }
      assert At(Do(env, s, step), x).primary == At(Admit(s, info), x).primary;
      AdmitName(s, info, x);
    }
  }

  /** An entry that a step leaves out of the registry, or that was out of it before, keeps its display address. */
  lemma RemovedKeepsName(env: Protocol, s: Registry, step: Step, x: EntryId)
    requires WellFormed(env, s) && x !in Do(env, s, step).order
    ensures SameName(s, Do(env, s, step), x)
  {
    hide WellFormed, Core, Register, RegisterMarked, MarkSlot, ConfirmScan, AliasAddresses, WitnessCurrent, SameInfo;
    if Observation(step).Some? {
      ObservedName(env, s, step, Observation(step).value, x);
    } else {
      match step
      case AddProvider =>
      case MarkSeed(a, role, at) => MarkInfo(s, a, SeedMark(role, at)); NamesOf(s, MarkSlot(s, a, SeedMark(role, at)), x);
      case MarkPassive(a, role, at) => MarkInfo(s, a, PassiveMark(role, at)); NamesOf(s, MarkSlot(s, a, PassiveMark(role, at)), x);
      case Confirm(a, now) => ConfirmInfo(s, a, now); NamesOf(s, ConfirmScan(s, a, now), x);
      case Companion(source, at) =>
        if AdmitsCompanion(env, s, source, at) {
          MarkInfo(s, env.companionOf(source).value, PassiveMark(RoleSlave, at));
          NamesOf(s, MarkSlot(s, env.companionOf(source).value, PassiveMark(RoleSlave, at)), x);
        }
      case Alias(a, b) => AliasName(env, s, a, b, x);
    }
  }

  lemma NamesOf(s: Registry, t: Registry, x: EntryId)
    requires SameInfo(s, t)
    ensures SameName(s, t, x)
  {}

  /** The display address of an entry, live or long removed, still resolves. */
  ghost predicate Named(s: Registry, x: EntryId)
  {
    (if At(s, x).primary != 0 then At(s, x).primary else At(s, x).info.address) in s.entries
  }

  lemma LiveIsNamed(env: Protocol, s: Registry, x: EntryId)
    requires WellFormed(env, s) && x in s.order
    ensures Named(s, x)
  {
    hide WitnessesOk, SlotsAgree, IndexRows, Canon, FacesSynced, TopologyOk;
    assert GroupOk(s.arena[x]);
  }

  /** Once an entry's display address resolves, it does so ever after. */
  lemma StepKeepsNamed(env: Protocol, s: Registry, step: Step, x: EntryId)
    requires WellFormed(env, s) && Named(s, x)
    ensures Named(Do(env, s, step), x)
  {
    hide WellFormed, Do, DetachesAt;
    StepKeeps(env, s, step);
    StepSlots(env, s, step, 0);
    if x in Do(env, s, step).order {
      LiveIsNamed(env, Do(env, s, step), x);
    } else {
      RemovedKeepsName(env, s, step, x);
    }
  }
}
