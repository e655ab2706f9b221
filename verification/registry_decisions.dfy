// Where an observation goes, by the normal forms of what was heard and what is known.
module RegistryDecisions {
  import opened Numerals
  import opened Identity
  import opened RegistryState
  import opened RegistryInvariant
  import opened RegistrySteps
  import opened RegistryAliasSteps
  import opened RegistryIndexTheorems
  import opened RegistryIndexRuns
  import opened RegistryProvenance
  import opened RegistrySlots
  import opened RegistryTheorems
  import opened RegistryGroups

  // ---- agreement --------------------------------------------------------------------

  /** Both are known, and they differ in normal form. */
  ghost predicate Disagree(x: string, y: string)
  {
    Normalize(x) != "" && Normalize(y) != "" && Normalize(x) != Normalize(y)
  }

  /** The serials or the MAC addresses of two devices tell them apart. */
  ghost predicate ToldApart(x: DeviceInfo, y: DeviceInfo)
  {
    Disagree(x.serial, y.serial) || Disagree(x.mac, y.mac)
  }

  /** Device id, software and hardware are known of both, and one of the three differs. */
  ghost predicate OtherModel(x: DeviceInfo, y: DeviceInfo)
  {
    (Disagree(x.deviceID, y.deviceID) || Disagree(x.software, y.software) || Disagree(x.hardware, y.hardware)) &&
    (forall m :: m in [x.deviceID, y.deviceID, x.software, y.software, x.hardware, y.hardware] ==> Normalize(m) != "")
  }

  /** Nothing known of the two devices speaks against their being one. */
  ghost predicate MayBeOne(x: DeviceInfo, y: DeviceInfo)
  {
    !ToldApart(x, y) && !OtherModel(x, y) && !Disagree(x.manufacturer, y.manufacturer)
  }

  lemma MergeableIs(x: DeviceInfo, y: DeviceInfo)
    ensures CanMerge(x, y) <==> !ToldApart(x, y)
  {
    hide Normalize;
  }

  lemma EnrichmentIs(x: DeviceInfo, d: DeviceEntry)
    requires d.physical == Canonical(d.info)
    ensures CompatibleEnrichment(x, d) <==> MayBeOne(x, d.info)
  {
    hide Normalize;
    MergeableIs(x, d.info);
    var y := d.info;
    var ms := [x.deviceID, y.deviceID, x.software, y.software, x.hardware, y.hardware];
    assert forall m :: m in ms <==> m == ms[0] || m == ms[1] || m == ms[2] || m == ms[3] || m == ms[4] || m == ms[5];
  }

  // ---- the decision -------------------------------------------------------------------

  ghost function Triple(info: DeviceInfo): string { Key(Canonical(info)) }

  ghost function OwnerOf(s: Registry, info: DeviceInfo): Option<EntryId> { CurrentOwner(s, Triple(info)) }

  lemma OwnerIsLive(s: Registry, info: DeviceInfo)
    requires Core(s) && OwnerOf(s, info).Some?
    ensures var o := OwnerOf(s, info).value;
      o in s.order && At(s, o).physical == Canonical(At(s, o).info) && Triple(At(s, o).info) == Triple(info)
  {
    hide Canonical, Partition, SlotsAgree, Canon, FacesSynced, TopologyOk, Key;
    EntryCanonicalOf(s, OwnerOf(s, info).value);
  }

  lemma EntryCanonicalOf(s: Registry, e: EntryId)
    requires Core(s) && e in s.order
    ensures At(s, e).physical == Canonical(At(s, e).info)
  {
    EntryCanonical(s, e);
  }

  // The owner of a triple has its serial, so only the MAC address can contradict.
  lemma OwnerSharesSerial(s: Registry, info: DeviceInfo)
    requires Core(s) && Triple(info) != "" && OwnerOf(s, info).Some?
    ensures var known := At(s, OwnerOf(s, info).value).info;
      Normalize(known.serial) == Normalize(info.serial) && Normalize(known.deviceID) == Normalize(info.deviceID) &&
      Normalize(known.manufacturer) == Normalize(info.manufacturer)
  {
    OwnerIsLive(s, info);
    KeyInjective(Canonical(info), Canonical(At(s, OwnerOf(s, info).value).info));
    hide Normalize, Core, CurrentOwner, Qualified, Key;
  }

  /** The observation's MAC address contradicts that of the triple's current owner. */
  ghost predicate Disputed(s: Registry, info: DeviceInfo)
  {
    Triple(info) != "" && OwnerOf(s, info).Some? && Disagree(info.mac, At(s, OwnerOf(s, info).value).info.mac)
  }

  lemma ContradictedIs(s: Registry, info: DeviceInfo)
    requires Core(s)
    ensures Contradicted(s, info) <==> Disputed(s, info)
  {
    hide Core, Key, Canonical, Normalize, CurrentOwner;
    if Triple(info) != "" && OwnerOf(s, info).Some? {
      OwnerSharesSerial(s, info);
      MergeableIs(info, At(s, OwnerOf(s, info).value).info);
    }
  }

  /** The address's group as a whole belongs with the owner of the triple. */
  ghost predicate GroupJoins(s: Registry, info: DeviceInfo, o: EntryId)
  {
    info.address in s.entries && s.entries[info.address] != o &&
    MayBeOne(info, At(s, s.entries[info.address]).info) && MayBeOne(At(s, o).info, At(s, s.entries[info.address]).info)
  }

  lemma GroupJoinsIs(s: Registry, info: DeviceInfo, o: EntryId)
    requires Core(s) && o in s.order
    ensures GroupJoins(s, info, o) <==>
      info.address in s.entries && s.entries[info.address] != o &&
      CompatibleEnrichment(info, At(s, s.entries[info.address])) &&
      CompatibleEnrichment(At(s, o).info, At(s, s.entries[info.address]))
  {
    hide Core, Canonical, CompatibleEnrichment, MayBeOne;
    if info.address in s.entries {
      var e := s.entries[info.address];
      InOrderOf(s, info.address);
      EntryCanonicalOf(s, e);
      EnrichmentIs(info, At(s, e));
      EnrichmentIs(At(s, o).info, At(s, e));
    }
  }

  lemma OwnedDecision(s: Registry, info: DeviceInfo, o: EntryId)
    requires Core(s) && Triple(info) != "" && OwnerOf(s, info) == Some(o) && !Disputed(s, info)
    ensures Decide(s, info) == Decision(ExistingAt(s, info.address), Some(o), Some(o), false, GroupJoins(s, info, o), false)
  {
    hide Core, Key, Canonical, Normalize, CurrentOwner, CompatibleEnrichment, CanMerge, Disputed, GroupJoins;
    ContradictedIs(s, info);
    OwnerIsLive(s, info);
    GroupJoinsIs(s, info, o);
  }

  lemma InOrderOf(s: Registry, a: Addr)
    requires Core(s) && a in s.entries
    ensures s.entries[a] in s.order
  {
    InOrder(s.order, s.arena, s.entries, a);
  }

  lemma DisputedDecision(s: Registry, info: DeviceInfo)
    requires Core(s) && Disputed(s, info)
    ensures Decide(s, info).retained == (info.address in s.entries)
    ensures info.address !in s.entries ==> Decide(s, info) == Decision(None, None, None, true, false, false)
  {
    ContradictedIs(s, info);
    hide Core, Key, Canonical, Normalize, CurrentOwner, Contradicted, CompatibleEnrichment, CanMerge, Disputed;
  }

  /** The address's entry may keep a triple nobody owns. */
  ghost predicate Stays(s: Registry, info: DeviceInfo)
  {
    info.address in s.entries && !ToldApart(info, At(s, s.entries[info.address]).info)
  }

  lemma UnownedDecision(s: Registry, info: DeviceInfo)
    requires Triple(info) != "" && OwnerOf(s, info).None?
    ensures Decide(s, info) ==
      Decision(ExistingAt(s, info.address), None, if Stays(s, info) then ExistingAt(s, info.address) else None, false, false, false)
  {
    if info.address in s.entries { MergeableIs(info, At(s, s.entries[info.address]).info); }
    hide Key, Canonical, Normalize, CurrentOwner, CompatibleEnrichment, CanMerge, ToldApart;
  }

  // ---- publishing -------------------------------------------------------------------------

  /** Another entry currently owns the key, and is told apart from this one. */
  ghost predicate TakenByAnother(s: Registry, e: EntryId, k: string)
  {
    k in s.identity && s.identity[k] != e && At(s, s.identity[k]).identityKey == k &&
    Key(At(s, s.identity[k]).physical) == k && ToldApart(At(s, e).info, At(s, s.identity[k]).info)
  }

  /** Publishing gives the entry the key and its row, unless another entry owns it that is told apart: then it claims
      nothing. Either way it has no other row, and the rows of other entries stay but for the one it takes. */
  lemma PublishExactly(s: Registry, e: EntryId, k: string)
    requires IndexRows(s.identity, s.order, s.arena) && (k == "" || StableKey(k))
    ensures var t, claims := Publish(s, e, k), k != "" && !TakenByAnother(s, e, k);
      At(t, e).identityKey == (if claims then k else "") &&
      (forall j :: j in t.identity && t.identity[j] == e <==> claims && j == k) &&
      (forall j :: j != k && j in s.identity && s.identity[j] != e ==> j in t.identity && t.identity[j] == s.identity[j]) &&
      (forall j :: j != k && j in t.identity ==> j in s.identity && t.identity[j] == s.identity[j]) &&
      (k != "" && !claims ==> k in t.identity && t.identity[k] == s.identity[k])
  {
    hide Key, ToldApart;
    if k in s.identity { MergeableIs(At(s, e).info, At(s, s.identity[k]).info); }
    hide CanMerge;
  }

  // ---- bystanders -----------------------------------------------------------------------

  lemma RefreshBystander(s: Registry, e: EntryId, info: DeviceInfo, d: Decision, x: EntryId)
    requires x != e
    ensures At(Refresh(s, e, info, d), x) == At(s, x)
  {
    hide StoredInfo, AuthorityKey, PublishedRows, PublishedKey, Canonical;
  }

  lemma PlaceBystander(s: Registry, a: Addr, d: Decision, x: EntryId)
    requires x != TargetOf(s, d)
    ensures At(Place(s, a, d), x) == At(s, x)
  {
    hide Including;
  }

  lemma SettleBystander(s: Registry, info: DeviceInfo, x: EntryId)
    requires Core(s) && Decide(s, info).target != Some(x) && ExistingAt(s, info.address) != Some(x)
    ensures At(Settle(s, info, Decide(s, info)), x) == At(s, x)
  {
    hide Decide, Key, Canonical, Core, DropStale, Detach, MergeGroup, Absorb;
    DecisionFacts(s, info);
    var d := Decide(s, info);
    var key := Key(Canonical(info));
    DropEntries(s, key);
    var s1 := if key == "" then s else DropStale(s, key);
    if d.existing.Some? && d.existing != d.target {
      if d.merge { MergeShape(s1, d.target.value, d.existing.value); } else { DetachShape(s1, d.existing.value, info.address); }
    }
  }

  lemma AdmitBystander(s: Registry, info: DeviceInfo, x: EntryId)
    requires Core(s) && !Decide(s, info).retained && x != AdmittedEntry(s, info) && ExistingAt(s, info.address) != Some(x)
    ensures At(Admit(s, info), x) == At(s, x)
  {
    hide Decide, Settle, Core, Place, Refresh, Look;
    var d := Decide(s, info);
    var s1 := Settle(s, info, d);
    var e := TargetOf(s1, d);
    SettleBystander(s, info, x);
    PlaceBystander(s1, info.address, d, x);
    RefreshBystander(Place(s1, info.address, d), e, info, d, x);
  }

  lemma SettledBystander(s: Registry, a: Addr, e: EntryId, stamp: Stamp, confirm: bool, x: EntryId)
    requires x != e
    ensures At(Settled(s, a, e, stamp, confirm), x) == At(s, x)
  {
    hide FacesOf, AdoptSlots, StampSlot, ConfirmTopology;
    ConfirmFrame(Stamped(s, a, stamp), a, e);
  }

  // What a registration is, once its entry is admitted: a settled entry, then witness upkeep.
  lemma ObservationArena(env: Protocol, s: Registry, step: Step)
    requires Observation(step).Some? && !Decide(s, Observation(step).value).retained
    ensures var info := Observation(step).value;
      exists stamp, confirm ::
        Do(env, s, step).arena == Settled(Admit(s, info), info.address, AdmittedEntry(s, info), stamp, confirm).arena &&
        Do(env, s, step).table == Settled(Admit(s, info), info.address, AdmittedEntry(s, info), stamp, confirm).table
  {
    hide Decide, Admit, AdmittedEntry, Canonical, Qualified, WitnessCurrent, RecordWitness, Register, Settled, SyncFaces, Stamped;
    hide MarkSlot, ConfirmScan, AliasAddresses, AdmitCompanion;
    var info := Observation(step).value;
    match step
    case Observe(_, now) =>
      var complete := Qualified(Canonical(info));
      var stamp := Observed(if complete then CONFIRMED else CANDIDATE, now);
      var u := Settled(Admit(s, info), info.address, AdmittedEntry(s, info), stamp, complete);
      RegisterForm(env, s, info, now);
      RecordFrame(env, Reconcile(env, u), info, AdmittedEntry(s, info));
    case Seed(_, role, at) => MarkedForm(env, s, info, SeedMark(role, at));
    case Passive(_, role, at) => MarkedForm(env, s, info, PassiveMark(role, at));
  }

  lemma MarkedForm(env: Protocol, s: Registry, info: DeviceInfo, stamp: Stamp)
    requires !Decide(s, info).retained
    ensures RegisterMarked(env, s, info, stamp) ==
            Reconcile(env, Settled(Admit(s, info), info.address, AdmittedEntry(s, info), stamp, false))
  {
    hide Decide, Admit, AdmittedEntry, WitnessCurrent, SyncFaces, Stamped;
  }

  /** An observation leaves every entry exactly as it was but the one it selects and the one its address was in. */
  lemma ObservationBystander(env: Protocol, s: Registry, step: Step, x: EntryId)
    requires WellFormed(env, s) && Observation(step).Some? && !Decide(s, Observation(step).value).retained
    requires x != AdmittedEntry(s, Observation(step).value) && ExistingAt(s, Observation(step).value.address) != Some(x)
    ensures At(Do(env, s, step), x) == At(s, x)
  {
    hide WellFormed, Core, Admit, Decide, AdmittedEntry, Do, Settled;
    var info := Observation(step).value;
    WellFormedCore(env, s);
    AdmitBystander(s, info, x);
    ObservationArena(env, s, step);
    var stamp, confirm :|
      Do(env, s, step).arena == Settled(Admit(s, info), info.address, AdmittedEntry(s, info), stamp, confirm).arena;
    SettledBystander(Admit(s, info), info.address, AdmittedEntry(s, info), stamp, confirm, x);
  }

  // ---- where the address goes ---------------------------------------------------------------

  lemma ObservationAuthority(env: Protocol, s: Registry, step: Step)
    requires WellFormed(env, s) && Observation(step).Some? && !Decide(s, Observation(step).value).retained
    ensures var t := Do(env, s, step); var r := Admit(s, Observation(step).value);
      SameAuthority(r, t) && t.order == r.order && t.topology == r.topology
  {
    hide WellFormed, Admit, Decide, Register, RegisterMarked, SameAuthority;
    hide MarkSlot, ConfirmScan, AliasAddresses, AdmitCompanion;
    var info := Observation(step).value;
    match step {
      case Observe(_, now) => RegisterAfterAdmit(env, s, info, now);
      case Seed(_, role, at) => MarkedAfterAdmit(env, s, info, SeedMark(role, at));
      case Passive(_, role, at) => MarkedAfterAdmit(env, s, info, PassiveMark(role, at));
    }
  }

  lemma AdmittedIs(s: Registry, info: DeviceInfo)
    requires Core(s)
    ensures AdmittedEntry(s, info) == if Decide(s, info).target.Some? then Decide(s, info).target.value else s.next
  {
    SettleFresh(s, info);
    hide Decide, Settle, Core;
  }

  lemma NewcomerOrder(s: Registry, info: DeviceInfo)
    requires Core(s) && Decide(s, info).existing.None? && Decide(s, info).target.None?
    ensures Admit(s, info).order == s.order + [s.next]
  {
    hide Decide, Core, Key, Canonical, DropStale, Detach, MergeGroup, NewEntry, Refresh;
    var d, key := Decide(s, info), Key(Canonical(info));
    DropEntries(s, key);
    var s1 := Settle(s, info, d);
    RefreshFrame(Place(s1, info.address, d), TargetOf(s1, d), info, d);
  }

  // Two current indexes with the same claims are the same index.
  lemma SameClaimsSameRows(s: Registry, t: Registry, e: EntryId)
    requires IndexRows(s.identity, s.order, s.arena) && IndexCurrent(s)
    requires IndexRows(t.identity, t.order, t.arena) && IndexCurrent(t)
    requires t.order == s.order + [e] && At(t, e).identityKey == "" && e !in s.order
    requires forall x :: x in s.order ==> At(t, x).identityKey == At(s, x).identityKey
    ensures t.identity == s.identity
  {
    hide Key;
    IndexBijection(s);
    IndexBijection(t);
    forall k | k in s.identity ensures k in t.identity && t.identity[k] == s.identity[k] {
      var x := s.identity[k];
      assert x in t.order && At(t, x).identityKey == k && k != "";
      assert Owned(t.identity, t.arena, x);
    }
    forall k | k in t.identity ensures k in s.identity {
      var x := t.identity[k];
      assert x in s.order && At(s, x).identityKey == k && k != "";
      assert Owned(s.identity, s.arena, x);
    }
  }

  lemma RowsOf(env: Protocol, s: Registry)
    requires WellFormed(env, s)
    ensures IndexRows(s.identity, s.order, s.arena) && s.next !in s.order
  {
    hide WitnessesOk, Canon, FacesSynced, TopologyOk, SlotsAgree;
  }

  lemma NotBlank(s: Registry, info: DeviceInfo)
    requires Triple(info) != ""
    ensures !BlankRefresh(s, info)
  {
    hide Key, Canonical, PreservesAuthority;
  }

  lemma ClaimAfter(env: Protocol, s: Registry, step: Step)
    requires WellFormed(env, s) && IndexCurrent(s) && Observation(step).Some? && Triple(Observation(step).value) != ""
    requires !Decide(s, Observation(step).value).retained
    ensures var t, info := Do(env, s, step), Observation(step).value;
      var e := AdmittedEntry(s, info);
      WellFormed(env, t) && IndexCurrent(t) &&
      At(t, e).identityKey == (if Disputed(s, info) then "" else Triple(info)) &&
      (!Disputed(s, info) ==> Triple(info) in t.identity && t.identity[Triple(info)] == e)
  {
    hide WellFormed, Core, Do, Decide, Admit, AdmittedEntry, Contradicted, Disputed, IndexCurrent, BlankRefresh, Key, Canonical;
    var info := Observation(step).value;
    WellFormedCore(env, s);
    StepKeeps(env, s, step);
    StepIndexExact(env, s, step);
    NotBlank(s, info);
    ObservationAuthority(env, s, step);
    AdmitIndex(s, info);
    AdmittedRow(s, info);
    ContradictedIs(s, info);
  }

  /** A complete triple whose current owner has another MAC address: at a known address nothing changes; a new address
      gets an entry of its own that claims nothing, and nothing else in the registry's entries and rows changes. */
  lemma DisputedTriple(env: Protocol, s: Registry, step: Step)
    requires WellFormed(env, s) && IndexCurrent(s) && Observation(step).Some? && Disputed(s, Observation(step).value)
    ensures var t, a := Do(env, s, step), Observation(step).value.address;
      if a in s.entries then t == s
      else t.entries == s.entries[a := s.next] && t.order == s.order + [s.next] && At(t, s.next).identityKey == "" &&
           t.identity == s.identity && forall x :: x in s.order ==> At(t, x) == At(s, x)
  {
    hide WellFormed, Core, Do, Decide, Admit, AdmittedEntry, Disputed, IndexCurrent, Key, Canonical, IndexRows, SameAuthority;
    var info := Observation(step).value;
    WellFormedCore(env, s);
    DisputedDecision(s, info);
    DisputedIsComplete(s, info);
    if info.address in s.entries {
      RetainedStep(env, s, step);
    } else {
      AdmittedIs(s, info);
      ObservationGroups(env, s, step);
      NewcomerOrder(s, info);
      ObservationAuthority(env, s, step);
      ClaimAfter(env, s, step);
      var t := Do(env, s, step);
      RowsOf(env, s);
      RowsOf(env, t);
      forall x | x in s.order ensures At(t, x) == At(s, x) { ObservationBystander(env, s, step, x); }
      SameClaimsSameRows(s, t, s.next);
      assert t.entries == s.entries[info.address := s.next];
    }
  }

  lemma DisputedIsComplete(s: Registry, info: DeviceInfo)
    requires Disputed(s, info)
    ensures Triple(info) != ""
  {}

  /** The address at the owner, alone or with its whole group. */
  ghost function JoinedOwner(s: Registry, info: DeviceInfo, o: EntryId): map<Addr, EntryId>
  {
    map b: Addr | b in s.entries.Keys + {info.address} ::
      if b == info.address || (GroupJoins(s, info, o) && s.entries[b] == s.entries[info.address]) then o else s.entries[b]
  }

  lemma OwnedGroups(s: Registry, info: DeviceInfo, o: EntryId)
    requires Decide(s, info) == Decision(ExistingAt(s, info.address), Some(o), Some(o), false, GroupJoins(s, info, o), false)
    ensures Regrouped(s, info) == JoinedOwner(s, info, o)
  {
    hide Decide, MayBeOne;
  }

  /** A complete triple whose current owner's MAC address agrees or is missing on either side: the address is at the
      owner afterwards, with its whole group if nothing known speaks against it, and the owner still owns the triple. */
  lemma OwnedTriple(env: Protocol, s: Registry, step: Step, o: EntryId)
    requires WellFormed(env, s) && IndexCurrent(s) && Observation(step).Some?
    requires var info := Observation(step).value;
      Triple(info) != "" && OwnerOf(s, info) == Some(o) && !Disagree(info.mac, At(s, o).info.mac)
    ensures var t, info := Do(env, s, step), Observation(step).value;
      t.entries == JoinedOwner(s, info, o) &&
      At(t, o).identityKey == Triple(info) && Triple(info) in t.identity && t.identity[Triple(info)] == o
  {
    hide WellFormed, Core, Do, Decide, AdmittedEntry, GroupJoins, IndexCurrent, Triple, Disagree, OwnerOf, JoinedOwner, Regrouped;
    var info := Observation(step).value;
    WellFormedCore(env, s);
    OwnedDecision(s, info, o);
    AdmittedIs(s, info);
    ObservationGroups(env, s, step);
    OwnedGroups(s, info, o);
    ClaimAfter(env, s, step);
  }

  /** A complete triple that nobody owns: a known address stays where it is if serial and MAC address do not contradict
      its entry, and otherwise leaves it for an entry of its own, as a new address does; that entry owns the triple. */
  lemma UnownedTriple(env: Protocol, s: Registry, step: Step)
    requires WellFormed(env, s) && IndexCurrent(s) && Observation(step).Some?
    requires Triple(Observation(step).value) != "" && OwnerOf(s, Observation(step).value).None?
    ensures var t, info := Do(env, s, step), Observation(step).value;
      var e := if Stays(s, info) then s.entries[info.address] else s.next;
      t.entries == s.entries[info.address := e] &&
      At(t, e).identityKey == Triple(info) && Triple(info) in t.identity && t.identity[Triple(info)] == e
  {
    hide WellFormed, Core, Do, Decide, AdmittedEntry, ToldApart, IndexCurrent, Key, Canonical, CurrentOwner;
    var info := Observation(step).value;
    WellFormedCore(env, s);
    UnownedDecision(s, info);
    AdmittedIs(s, info);
    ObservationGroups(env, s, step);
    ClaimAfter(env, s, step);
  }

  /** A heard triple member contradicts a known one. */
  ghost predicate TripleDiffers(x: DeviceInfo, y: DeviceInfo)
  {
    Disagree(x.manufacturer, y.manufacturer) || Disagree(x.deviceID, y.deviceID) || Disagree(x.serial, y.serial)
  }

  lemma AuthorityIs(info: DeviceInfo, d: DeviceEntry)
    requires d.physical == Canonical(d.info) && (d.identityKey != "" ==> Key(d.physical) == d.identityKey)
    requires Triple(info) == ""
    ensures AuthorityKey(info, d, false) == if TripleDiffers(info, d.info) then "" else d.identityKey
  {
    hide Normalize, EncodeTriple, InvalidSerialSentinel;
    KeyFacts(d.physical);
  }

  lemma PartialAdmission(s: Registry, info: DeviceInfo)
    requires Core(s) && IndexCurrent(s) && Triple(info) == ""
    ensures Decide(s, info) == Decision(ExistingAt(s, info.address), None, ExistingAt(s, info.address), false, false, false)
    ensures At(Admit(s, info), AdmittedEntry(s, info)).identityKey ==
      if info.address in s.entries && !TripleDiffers(info, At(s, s.entries[info.address]).info)
      then At(s, s.entries[info.address]).identityKey else ""
  {
    hide Settle, Place, Refresh, Core, Sound, IndexCurrent, Canonical, Key, StoredInfo, AuthorityKey, OthersClaimAsBefore,
      TripleDiffers, NewEntry, Decide;
    PartialDecision(s, info);
    PartialNotRetained(s, info);
    AdmittedIs(s, info);
    var d := Decide(s, info);
    var s1 := Settle(s, info, d);
    var s2, e := Place(s1, info.address, d), TargetOf(s1, d);
    PlacedIndex(s, info);
    PublishedUnclaimed(s, info, s2, e);
    RefreshIndex(s2, e, info, d);
    if info.address in s.entries {
      InOrderOf(s, info.address);
      OwnedCanonical(s, e);
      AuthorityIs(info, At(s2, e));
    } else {
      NewClaimsNothing(info);
    }
  }

  lemma NewClaimsNothing(info: DeviceInfo)
    requires Triple(info) == ""
    ensures AuthorityKey(info, NewEntry(info.address), false) == ""
  {
    hide Canonical, Key;
  }

  lemma PartialNotRetained(s: Registry, info: DeviceInfo)
    requires Triple(info) == ""
    ensures !Decide(s, info).retained
  {
    hide Key, Canonical, CanMerge, CompatibleEnrichment;
  }

  lemma OwnedCanonical(s: Registry, e: EntryId)
    requires Core(s) && IndexCurrent(s) && e in s.order
    ensures At(s, e).physical == Canonical(At(s, e).info)
    ensures At(s, e).identityKey != "" ==> Key(At(s, e).physical) == At(s, e).identityKey
  {
    hide Core, Key, Canonical;
    OwnedEntry(s, e);
  }

  /** An observation without a complete triple: a known address stays where it is, and its entry keeps its claim unless
      a heard triple member contradicts a known one; a new address gets an entry of its own, which claims nothing. */
  lemma PartialTriple(env: Protocol, s: Registry, step: Step)
    requires WellFormed(env, s) && IndexCurrent(s) && Observation(step).Some? && Triple(Observation(step).value) == ""
    ensures var t, info := Do(env, s, step), Observation(step).value;
      var e := if info.address in s.entries then s.entries[info.address] else s.next;
      t.entries == s.entries[info.address := e] &&
      At(t, e).identityKey ==
        if info.address in s.entries && !TripleDiffers(info, At(s, e).info) then At(s, e).identityKey else ""
  {
    hide WellFormed, Core, Do, Decide, AdmittedEntry, TripleDiffers, IndexCurrent, Key, Canonical, Admit;
    var info := Observation(step).value;
    WellFormedCore(env, s);
    PartialAdmission(s, info);
    AdmittedIs(s, info);
    ObservationGroups(env, s, step);
    ObservationAuthority(env, s, step);
  }
}
