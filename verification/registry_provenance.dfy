// Where published keys come from, and which rows a step leaves alone.
module RegistryProvenance {
  import opened Numerals
  import opened Identity
  import opened RegistryState
  import opened RegistryInvariant
  import opened RegistrySteps
  import opened RegistryAliasSteps
  import opened RegistryIndexTheorems
  import opened RegistryIndexRuns

  // ---- how claims evolve -----------------------------------------------------------

  // What remains claims what it claimed, and only `gone` may have left.
  ghost predicate ClaimsSurvive(s: Registry, t: Registry, gone: Option<EntryId>)
  {
    (forall x :: x in t.order ==> x in s.order && At(t, x).identityKey == At(s, x).identityKey) &&
    (forall x :: x in s.order && Some(x) != gone ==> x in t.order)
  }

  lemma MergeSurvivors(s: Registry, dst: EntryId, src: EntryId)
    requires Distinct(s.order)
    ensures ClaimsSurvive(s, MergeGroup(s, dst, src), Some(src))
  {
    hide MergeGroup, Without, Absorb, RetainBinding;
    WithoutMembers(s.order, src);
    MergeShape(s, dst, src);
  }

  lemma DetachSurvivors(s: Registry, e: EntryId, a: Addr)
    requires Distinct(s.order)
    ensures ClaimsSurvive(s, Detach(s, e, a), Some(e))
  {
    hide Detach, Without;
    DetachClaims(s, e, a);
    forall x | x in s.order && x != e
      ensures x in Detach(s, e, a).order
    {
      DetachOrder(s, e, a, x);
    }
  }

  lemma SettleClaims(s: Registry, info: DeviceInfo)
    requires Core(s)
    ensures ClaimsSurvive(s, Settle(s, info, Decide(s, info)), Decide(s, info).existing)
  {
    hide Decide, Core, Key, Canonical, CurrentOwner, Detach, MergeGroup;
    CoreOrder(s);
    var d := Decide(s, info);
    var s0 := if Key(Canonical(info)) == "" then s else DropStale(s, Key(Canonical(info)));
    assert ClaimsSurvive(s, s0, None);
    if d.existing.Some? && d.existing != d.target {
      if d.merge && d.target.Some? {
        MergeSurvivors(s0, d.target.value, d.existing.value);
      } else {
        DetachSurvivors(s0, d.existing.value, info.address);
      }
    }
  }

  lemma PlaceClaims(s: Registry, a: Addr, d: Decision)
    requires FreshHandles(s.arena, s.next) && forall x :: x in s.order ==> x in s.arena
    ensures var t := Place(s, a, d); var e := TargetOf(s, d);
      OthersClaimAsBefore(s, t, e) && (forall x :: x in s.order ==> x in t.order) &&
      At(t, e).identityKey == (if d.target.Some? then At(s, e).identityKey else "")
  {
    hide Including;
  }

  lemma RefreshClaims(s: Registry, e: EntryId, info: DeviceInfo, d: Decision)
    ensures var t := Refresh(s, e, info, d);
      OthersClaimAsBefore(s, t, e) && t.order == s.order &&
      At(t, e).identityKey in {"", Key(Canonical(info)), At(s, e).identityKey}
  {
    var stored := StoredInfo(info, At(s, e), d.incumbent.Some? && d.incumbent != d.existing);
    var key := AuthorityKey(info, At(s, e), d.conflict);
    assert key in {"", Key(Canonical(info)), At(s, e).identityKey} by { hide Canonical, Key, AgreesOrMissing; }
    hide AuthorityKey, Canonical, Key, StoredInfo;
    PublishFrame(WithEntry(s, e, At(s, e).(info := stored, physical := Canonical(stored))), e, key);
    hide Publish;
  }

  /** Admitting an observation changes one entry's claim: to nothing, to its own, or to the observed key. */
  lemma AdmitClaims(s: Registry, info: DeviceInfo)
    requires Core(s) && !Decide(s, info).retained
    ensures var t := Admit(s, info); var e := AdmittedEntry(s, info);
      OthersClaimAsBefore(s, t, e) &&
      (forall x :: x in s.order && Some(x) != ExistingAt(s, info.address) ==> x in t.order) &&
      (At(t, e).identityKey in {"", Key(Canonical(info))} ||
       (e in s.order && At(t, e).identityKey == At(s, e).identityKey))
  {
    hide Decide, Settle, Place, Refresh, TargetOf, Canonical, Key, Core, Sound;
    var d := Decide(s, info);
    var s1 := Settle(s, info, d);
    SettleClaims(s, info);
    SettledArena(s, info);
    DecisionFacts(s, info);
    PlaceClaims(s1, info.address, d);
    var s2, e := Place(s1, info.address, d), TargetOf(s1, d);
    PlacedTarget(s1, d);
    RefreshClaims(s2, e, info, d);
  }

  lemma SettledArena(s: Registry, info: DeviceInfo)
    requires Core(s) && !Decide(s, info).retained
    ensures var t := Settle(s, info, Decide(s, info));
      FreshHandles(t.arena, t.next) && (forall x :: x in t.order ==> x in t.arena) &&
      (Decide(s, info).target.Some? ==> Decide(s, info).target.value in t.order)
  {
    SettleKeeps(s, info);
    hide Decide, Settle;
  }

  // ---- aliases ---------------------------------------------------------------------

  lemma RemovedMergeClaims(s: Registry, canonical: EntryId, secondary: EntryId)
    requires Distinct(s.order) && canonical != secondary
    ensures var t := MergeRemoved(s, canonical, secondary);
      OthersClaimAsBefore(s, t, canonical) && (forall x :: x in s.order && x != secondary ==> x in t.order) &&
      At(t, canonical).identityKey in {"", At(s, canonical).identityKey, At(s, secondary).identityKey}
  {
    var absorbed := Absorb(At(s, canonical), At(s, secondary));
    var s1 := RemoveBindings(WithEntry(s, canonical, absorbed.(physical := Canonical(absorbed.info))), secondary);
    var key := if At(s, canonical).identityKey == "" then At(s, secondary).identityKey
               else At(s, canonical).identityKey;
    var k := if Key(Canonical(absorbed.info)) == key then key else "";
    AbsorbFrame(At(s, canonical), At(s, secondary));
    hide Absorb, Canonical, Key, RetainBinding, Without;
    WithoutMembers(s.order, secondary);
    PublishFrame(s1, canonical, k);
    hide Publish;
  }

  lemma YieldClaims(s: Registry, canonical: EntryId, secondary: EntryId, a: Addr)
    requires Distinct(s.order) && canonical != secondary
    ensures var t := Yield(s, canonical, secondary, a);
      OthersClaimAsBefore(s, t, canonical) && (forall x :: x in s.order && x != secondary ==> x in t.order) &&
      At(t, canonical).identityKey in {"", At(s, canonical).identityKey, At(s, secondary).identityKey}
  {
    var d := At(s, secondary).(addresses := Without(At(s, secondary).addresses, a));
    hide Without, AdoptSlots, FacesOf, MergeRemoved;
    if d.addresses == [] {
      RemovedMergeClaims(WithEntry(s, secondary, d), canonical, secondary);
    }
  }

  lemma JoinClaims(s: Registry, e: EntryId, a: Addr)
    requires Core(s)
    ensures var t := JoinAlias(s, e, a);
      OthersClaimAsBefore(s, t, e) &&
      (forall x :: x in s.order && Some(x) != ExistingAt(s, a) ==> x in t.order) &&
      (At(t, e).identityKey in {"", At(s, e).identityKey} ||
       (a in s.entries && At(t, e).identityKey == At(s, s.entries[a]).identityKey))
  {
    JoinShape(s, e, a);
    CoreJoin(s);
    hide Core, Yield, JoinAlias, Enter, OthersClaimAsBefore, At;
    if a in s.entries && s.entries[a] != e {
      var y := Yield(s, e, s.entries[a], a);
      YieldClaims(s, e, s.entries[a], a);
      EnterClaims(s, y, e, a);
    } else {
      EnterClaims(s, s, e, a);
    }
  }

  lemma CoreJoin(s: Registry)
    requires Core(s)
    ensures Distinct(s.order) && OthersClaimAsBefore(s, s, 0) && forall e :: OthersClaimAsBefore(s, s, e)
  {
    CoreOrder(s);
  }

  lemma EnterClaims(s: Registry, y: Registry, e: EntryId, a: Addr)
    requires OthersClaimAsBefore(s, y, e)
    ensures var t := Enter(y, e, a);
      OthersClaimAsBefore(s, t, e) && t.order == y.order && At(t, e).identityKey == At(y, e).identityKey
  {
    hide Enter;
    EnterAuthority(y, e, a);
  }

  // ---- provenance ----------------------------------------------------------------------

  function StepKeys(step: Step): set<string>
  {
    match step
    case Observe(info, _) => {Key(Canonical(info))}
    case Seed(info, _, _) => {Key(Canonical(info))}
    case Passive(info, _, _) => {Key(Canonical(info))}
    case _ => {}
  }

  ghost predicate ClaimsWithin(s: Registry, keys: set<string>)
  {
    forall e :: e in s.order && At(s, e).identityKey != "" ==> At(s, e).identityKey in keys
  }

  lemma OneClaimWithin(s: Registry, t: Registry, e: EntryId, keys: set<string>)
    requires ClaimsWithin(s, keys) && OthersClaimAsBefore(s, t, e)
    requires At(t, e).identityKey != "" ==> At(t, e).identityKey in keys
    ensures ClaimsWithin(t, keys)
  {}

  lemma SameClaimsWithin(s: Registry, t: Registry, keys: set<string>)
    requires ClaimsWithin(s, keys) && SameAuthority(s, t) && t.order == s.order
    ensures ClaimsWithin(t, keys)
  {}

  lemma AdmitProvenance(s: Registry, info: DeviceInfo, keys: set<string>)
    requires Core(s) && !Decide(s, info).retained && ClaimsWithin(s, keys)
    ensures ClaimsWithin(Admit(s, info), keys + {Key(Canonical(info))})
  {
    AdmitClaims(s, info);
    hide Core, Decide, Admit, AdmittedEntry, Canonical, Key;
    assert ClaimsWithin(s, keys + {Key(Canonical(info))});
    OneClaimWithin(s, Admit(s, info), AdmittedEntry(s, info), keys + {Key(Canonical(info))});
  }

  lemma AliasProvenance(env: Protocol, s: Registry, a: Addr, b: Addr, keys: set<string>)
    requires WellFormed(env, s) && ClaimsWithin(s, keys)
    ensures ClaimsWithin(AliasAddresses(env, s, a, b), keys)
  {
    hide WellFormed, Core, AliasGroups, JoinAlias, EnsureSlot, AliasAddresses, RecordEdge;
    AliasCases(env, s, a, b);
    AliasFrame(env, s, a, b);
    var s0 := EnsureSlot(EnsureSlot(s, a), b);
    assert Core(s0) by { WellFormedCore(env, s0); }
    LiveDevices(s0);
    if a in s.entries {
      JoinClaims(s0, s.entries[a], b);
      OneClaimWithin(s0, JoinAlias(s0, s.entries[a], b), s.entries[a], keys);
    } else if b in s.entries {
      JoinClaims(s0, s.entries[b], a);
      OneClaimWithin(s0, JoinAlias(s0, s.entries[b], a), s.entries[b], keys);
    }
  }

  lemma WellFormedCore(env: Protocol, s: Registry)
    requires WellFormed(env, s)
    ensures Core(s)
  {}

  lemma LiveDevices(s: Registry)
    requires Core(s)
    ensures forall a: Addr :: a in s.entries ==> s.entries[a] in s.order
  {}

  /** One step claims nothing but what was claimed and what it observed. */
  lemma StepProvenance(env: Protocol, s: Registry, step: Step, keys: set<string>)
    requires WellFormed(env, s) && ClaimsWithin(s, keys)
    ensures ClaimsWithin(Do(env, s, step), keys + StepKeys(step))
  {
    assert ClaimsWithin(s, keys + StepKeys(step));
    WellFormedCore(env, s);
    hide WellFormed, Core, Register, RegisterMarked, MarkSlot, ConfirmScan, AliasAddresses, AdmitCompanion, Admit, Decide;
    hide Key, Canonical, ClaimsWithin, SameAuthority;
    var all := keys + StepKeys(step);
    match step
    case AddProvider => IdleClaims(s, Tick(s), all);
    case Observe(info, now) =>
      if !Decide(s, info).retained {
        AdmitProvenance(s, info, keys);
        RegisterAfterAdmit(env, s, info, now);
        SameClaimsWithin(Admit(s, info), Register(env, s, info, now), all);
      } else {
        RetainedIdle(env, s, info, now);
      }
    case Seed(info, role, at) => MarkedProvenance(env, s, info, SeedMark(role, at), keys);
    case Passive(info, role, at) => MarkedProvenance(env, s, info, PassiveMark(role, at), keys);
    case MarkSeed(a, role, at) =>
      MarkSlotAuthority(env, s, a, SeedMark(role, at));
      SameClaimsWithin(s, MarkSlot(s, a, SeedMark(role, at)), all);
    case MarkPassive(a, role, at) =>
      MarkSlotAuthority(env, s, a, PassiveMark(role, at));
      SameClaimsWithin(s, MarkSlot(s, a, PassiveMark(role, at)), all);
    case Confirm(a, now) =>
      ConfirmScanAuthority(env, s, a, now);
      SameClaimsWithin(s, ConfirmScan(s, a, now), all);
    case Alias(a, b) => AliasProvenance(env, s, a, b, all);
    case Companion(source, at) =>
      CompanionAuthority(env, s, source, at);
      SameClaimsWithin(s, AdmitCompanion(env, s, source, at), all);
  }

  lemma CompanionAuthority(env: Protocol, s: Registry, source: Addr, at: Time)
    requires WellFormed(env, s)
    ensures SameAuthority(s, AdmitCompanion(env, s, source, at)) && AdmitCompanion(env, s, source, at).order == s.order
    ensures AdmitCompanion(env, s, source, at).topology == s.topology
  {
    hide WellFormed, MarkSlot, WitnessCurrent;
    if AdmitsCompanion(env, s, source, at) {
      MarkSlotAuthority(env, s, env.companionOf(source).value, PassiveMark(RoleSlave, at));
    }
  }

  lemma MarkedProvenance(env: Protocol, s: Registry, info: DeviceInfo, stamp: Stamp, keys: set<string>)
    requires WellFormed(env, s) && ClaimsWithin(s, keys)
    ensures ClaimsWithin(RegisterMarked(env, s, info, stamp), keys + {Key(Canonical(info))})
  {
    var all := keys + {Key(Canonical(info))};
    assert ClaimsWithin(s, all);
    WellFormedCore(env, s);
    hide WellFormed, Core, Admit, Decide, Key, Canonical, ClaimsWithin, SameAuthority;
    if !Decide(s, info).retained {
      AdmitProvenance(s, info, keys);
      MarkedAfterAdmit(env, s, info, stamp);
      hide RegisterMarked;
      SameClaimsWithin(Admit(s, info), RegisterMarked(env, s, info, stamp), all);
    }
  }

  lemma IdleClaims(s: Registry, t: Registry, keys: set<string>)
    requires ClaimsWithin(s, keys) && t.arena == s.arena && t.order == s.order
    ensures ClaimsWithin(t, keys)
  {}

  /** A retained conflict changes nothing at all. */
  lemma RetainedIdle(env: Protocol, s: Registry, info: DeviceInfo, now: Time)
    requires Decide(s, info).retained
    ensures Register(env, s, info, now) == s
    ensures forall stamp :: RegisterMarked(env, s, info, stamp) == s
  {}
}
