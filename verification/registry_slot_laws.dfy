// Exactly what every step makes of every slot: who discovered it, in which role,
// how sure it is, and when it was seen.
module RegistrySlotLaws {
  import opened Numerals
  import opened Identity
  import opened RegistryState
  import opened RegistryInvariant
  import opened RegistrySteps
  import opened RegistryAliasSteps
  import opened RegistryIndexTheorems
  import opened RegistryIndexRuns
  import opened RegistryProvenance
  import opened RegistrySlots
  import opened RegistryTheorems
  import opened RegistryGroups
  import opened RegistryDecisions
  import opened RegistryMembers

  // ---- sightings --------------------------------------------------------------------

  /** What a step says of the address it names: by whom it was seen, how sure that makes it (1 a candidate, 2
      corroborated, 3 confirmed), in which role, and when. A clock reading counts whatever it is; a reported time of zero
      is no time. */
  datatype Sighting = Sighting(source: DiscoverySource, level: int, role: SlotRole, at: Time, clock: bool)

  function SightingOf(step: Step): Option<Sighting>
  {
    match step
    case Observe(info, now) =>
      Some(Sighting(ActiveConfirmed, if Qualified(Canonical(info)) then 3 else 1, RoleUnknown, now, true))
    case Confirm(_, now) => Some(Sighting(ActiveConfirmed, 3, RoleUnknown, now, true))
    case Passive(_, role, at) => Some(Sighting(PassiveObserved, 2, role, at, false))
    case MarkPassive(_, role, at) => Some(Sighting(PassiveObserved, 2, role, at, false))
    case Companion(_, at) => Some(Sighting(PassiveObserved, 2, RoleSlave, at, false))
    case Seed(_, role, at) => Some(Sighting(StaticSeed, 1, role, at, false))
    case MarkSeed(_, role, at) => Some(Sighting(StaticSeed, 1, role, at, false))
    case AddProvider => None
    case Alias(_, _) => None
  }

  /** A sighting fills in what the slot lacked, raises what it makes surer, and moves the last time on. */
  ghost predicate Seen(before: AddressSlot, x: Sighting, after: AddressSlot)
  {
    after.source == (if before.source != SourceUnknown then before.source else x.source) &&
    after.role == (if before.role != RoleUnknown then before.role else x.role) &&
    after.verification as int == (if before.verification as int >= x.level then before.verification as int else x.level) &&
    after.first == (if before.first != 0 then before.first else x.at) &&
    after.last == (if x.clock || x.at != 0 then x.at else before.last)
  }

  // The stamp is what the sighting says.
  ghost predicate StampIs(stamp: Stamp, x: Sighting)
  {
    match stamp
    case Observed(level, now) => x == Sighting(ActiveConfirmed, level as int, RoleUnknown, now, true)
    case Marked(source, level, role, at) => x == Sighting(source, level as int, role, at, false)
  }

  lemma StampSees(slot: AddressSlot, stamp: Stamp, x: Sighting)
    requires StampIs(stamp, x)
    ensures Seen(slot, x, StampSlot(slot, stamp)) && StampSlot(slot, stamp).device == slot.device
  {}

  // ---- registrations ---------------------------------------------------------------------

  /** The registration takes the address out of its group, whose slot goes with it. */
  ghost predicate LeavesAlone(s: Registry, info: DeviceInfo, e: EntryId)
  {
    info.address in s.entries && s.entries[info.address] != e && !GroupMerges(s, info, e)
  }

  ghost function SlotBefore(s: Registry, info: DeviceInfo, e: EntryId, x: Addr): AddressSlot
  {
    if x == info.address && LeavesAlone(s, info, e) then EMPTY_SLOT else SlotAt(s.table, x)
  }

  lemma SettleTable(s: Registry, info: DeviceInfo, x: Addr)
    requires Core(s) && !Decide(s, info).retained
    ensures var d, t := Decide(s, info), Settle(s, info, Decide(s, info));
      SlotAt(t.table, x).(device := None) ==
        (if x == info.address && d.existing.Some? && d.existing != d.target && !d.merge then EMPTY_SLOT
         else SlotAt(s.table, x)).(device := None)
  {
    hide Decide, Core, Key, Canonical, DropStale, Detach, MergeGroup;
    DecisionFacts(s, info);
    ExistingIs(s, info.address);
    var d, key := Decide(s, info), Key(Canonical(info));
    DropEntries(s, key);
    DropStaleCore(s, key);
    var s1 := if key == "" then s else DropStale(s, key);
    if d.existing.Some? && d.existing != d.target {
      if d.merge { MergeTable(s1, d.target.value, d.existing.value, x); } else { DetachTable(s1, info.address); }
    }
  }

  lemma MergeTable(s: Registry, dst: EntryId, src: EntryId, x: Addr)
    ensures SlotAt(MergeGroup(s, dst, src).table, x).(device := None) == SlotAt(s.table, x).(device := None)
  {
    hide Absorb, RetainBinding, IncludingAll, Without, MoveAll;
  }

  lemma DetachTable(s: Registry, a: Addr)
    requires Core(s) && a in s.entries
    ensures Detach(s, s.entries[a], a).table == s.table - {a}
  {
    hide Core, Detach;
    DetachKeeps(s, s.entries[a], a);
  }

  lemma AdmitTable(s: Registry, info: DeviceInfo, x: Addr)
    requires Core(s) && !Decide(s, info).retained
    ensures SlotAt(Admit(s, info).table, x).(device := None) ==
            SlotBefore(s, info, AdmittedEntry(s, info), x).(device := None)
  {
    hide Decide, Settle, Core, Place, Refresh, GroupMerges;
    DecisionFacts(s, info);
    AdmittedIs(s, info);
    MergesIs(s, info);
    TargetCases(s, info);
    ExistingIs(s, info.address);
    SettleTable(s, info, x);
    var d := Decide(s, info);
    var s1 := Settle(s, info, d);
    PlaceFrame(s1, info.address, d);
    RefreshFrame(Place(s1, info.address, d), TargetOf(s1, d), info, d);
    if info.address in s.entries { HomeAddress(s, info.address); }
  }

  lemma ReachesAlike(s: Registry, t: Registry, e: EntryId, a: Addr, x: Addr)
    requires t.entries == s.entries && t.topology == s.topology
    ensures Reaches(s, e, a, x) <==> Reaches(t, e, a, x)
  {
    if Reaches(s, e, a, x) {
      var path :| Chain(s, e, path) && path[0] == a && path[|path| - 1] == x;
      assert Chain(t, e, path);
    }
    if Reaches(t, e, a, x) {
      var path :| Chain(t, e, path) && path[0] == a && path[|path| - 1] == x;
      assert Chain(s, e, path);
    }
  }

  lemma ReachesStart(s: Registry, e: EntryId, a: Addr)
    requires a in s.entries && s.entries[a] == e
    ensures Reaches(s, e, a, a)
  {
    assert Chain(s, e, [a]);
  }

  /** A slot after confirmation from address a spread through entry e, or without it. */
  ghost function Confirmed(s: Registry, e: EntryId, a: Addr, x: Addr, slot: AddressSlot, confirm: bool): AddressSlot
  {
    if confirm && Reaches(s, e, a, x) then slot.(verification := 3) else slot
  }

  // Stamping, confirming and syncing: the stamp at one address, confirmation where it reaches.
  lemma SettledTable(s: Registry, a: Addr, e: EntryId, stamp: Stamp, confirm: bool, x: Addr)
    requires Sound(s, {e}) && Homed(s, a, e) && At(s, e).physical == Canonical(At(s, e).info)
    ensures var t := Settled(s, a, e, stamp, confirm);
      t.entries == s.entries && t.topology == s.topology &&
      SlotAt(t.table, x) ==
        Confirmed(t, e, a, x, if x == a then StampSlot(SlotAt(s.table, a), stamp) else SlotAt(s.table, x), confirm)
  {
    hide Sound, Canonical, ConfirmTopology, FacesOf, SyncFaces, StampSlot, Reaches, Homed;
    StampedSound(s, a, e, stamp);
    var s1 := Stamped(s, a, stamp);
    StampedTable(s, a, stamp, x);
    hide Stamped;
    ConfirmFrame(s1, a, e);
    ConfirmKeeps(s1, a, e);
    ConfirmTable(s1, a, e, x);
    var s2 := if confirm then ConfirmTopology(s1, a, e) else s1;
    SyncKeeps(s2, e);
    ReachesAlike(s1, Settled(s, a, e, stamp, confirm), e, a, x);
  }

  lemma StampedTable(s: Registry, a: Addr, stamp: Stamp, x: Addr)
    ensures SlotAt(Stamped(s, a, stamp).table, x) == if x == a then StampSlot(SlotAt(s.table, a), stamp) else SlotAt(s.table, x)
  {
    hide StampSlot;
  }

  lemma ConfirmTable(s: Registry, a: Addr, e: EntryId, x: Addr)
    ensures SlotAt(ConfirmTopology(s, a, e).table, x) ==
            if Reaches(s, e, a, x) then SlotAt(s.table, x).(verification := 3) else SlotAt(s.table, x)
  {
    hide Reaches;
  }

  /** What an observation leaves in a slot: at its address what the sighting makes of it, anew if the address left its
      group; elsewhere what there was, confirmed where a complete triple is observed and topology reaches. */
  ghost predicate ObservedSlot(s: Registry, t: Registry, step: Step, info: DeviceInfo, e: EntryId, x: Addr)
  {
    var before, after := SlotBefore(s, info, e, x), SlotAt(t.table, x);
    after.device == ExistingAt(t, x) &&
    if x == info.address then SightingOf(step).Some? && Seen(before, SightingOf(step).value, after)
    else
      after == before.(
        device := after.device,
        verification := if step.Observe? && Qualified(Canonical(info)) && Reaches(t, e, info.address, x) then 3
                        else before.verification)
  }

  // The same, given how the registration ends.
  lemma SettledObserves(s: Registry, t: Registry, step: Step, info: DeviceInfo, stamp: Stamp, confirm: bool, x: Addr)
    requires Core(s) && Core(t) && !Decide(s, info).retained
    requires t.table == Settled(Admit(s, info), info.address, AdmittedEntry(s, info), stamp, confirm).table
    requires t.entries == Admit(s, info).entries && t.topology == Admit(s, info).topology
    requires SightingOf(step).Some? && StampIs(stamp, SightingOf(step).value)
    requires confirm <==> step.Observe? && Qualified(Canonical(info))
    requires confirm ==> SightingOf(step).value.level == 3
    ensures ObservedSlot(s, t, step, info, AdmittedEntry(s, info), x)
  {
    hide Decide, Admit, AdmittedEntry, Settled, Sound, TopologyOk, StampSlot, SlotBefore, Reaches, StampIs, Canonical, Qualified;
    var e := AdmittedEntry(s, info);
    var u := Settled(Admit(s, info), info.address, e, stamp, confirm);
    AdmitKeeps(s, info);
    AdmitTable(s, info, x);
    SettledTable(Admit(s, info), info.address, e, stamp, confirm, x);
    ReachesAlike(u, t, e, info.address, x);
    ReachesStart(t, e, info.address);
    SlotDeviceIs(t, x);
    StampSees(SlotAt(Admit(s, info).table, info.address), stamp, SightingOf(step).value);
  }

  lemma SlotDeviceIs(t: Registry, x: Addr)
    requires Core(t)
    ensures SlotAt(t.table, x).device == ExistingAt(t, x)
  {
    DeviceIsEntry(t, x);
  }

  /** Exactly what an observation makes of every slot. */
  lemma ObservationSlots(env: Protocol, s: Registry, step: Step, x: Addr)
    requires WellFormed(env, s) && Observation(step).Some?
    requires var info := Observation(step).value; !(info.address in s.entries && Disputed(s, info))
    ensures var t, info := Do(env, s, step), Observation(step).value;
      info.address in t.entries && ObservedSlot(s, t, step, info, t.entries[info.address], x)
  {
    hide WellFormed, Core, Decide, AdmittedEntry, Disputed, Admit, Regrouped, ObservedSlot, Settled, SameAuthority, Register,
      RegisterMarked, Canonical, Qualified, RecordWitness, Reconcile;
    var info := Observation(step).value;
    WellFormedCore(env, s);
    StepKeeps(env, s, step);
    WellFormedCore(env, Do(env, s, step));
    NotRetained(s, info);
    ObservationGroups(env, s, step);
    AdmitEntries(s, info);
    RegroupedResolves(s, info);
    ObservationAuthority(env, s, step);
    match step {
      case Observe(_, now) =>
        var complete := Qualified(Canonical(info));
        var stamp := Observed(if complete then CONFIRMED else CANDIDATE, now);
        var u := Settled(Admit(s, info), info.address, AdmittedEntry(s, info), stamp, complete);
        RegisterForm(env, s, info, now);
        ReconcileGenerations(env, u);
        RecordFrame(env, Reconcile(env, u), info, AdmittedEntry(s, info));
        SettledObserves(s, Do(env, s, step), step, info, stamp, complete, x);
      case Seed(_, role, at) => MarkedObserves(env, s, step, info, SeedMark(role, at), x);
      case Passive(_, role, at) => MarkedObserves(env, s, step, info, PassiveMark(role, at), x);
    }
  }

  lemma MarkedObserves(env: Protocol, s: Registry, step: Step, info: DeviceInfo, stamp: Stamp, x: Addr)
    requires Core(s) && !Decide(s, info).retained && !step.Observe?
    requires var t := RegisterMarked(env, s, info, stamp);
      Core(t) && t.entries == Admit(s, info).entries && t.topology == Admit(s, info).topology
    requires SightingOf(step).Some? && StampIs(stamp, SightingOf(step).value)
    ensures ObservedSlot(s, RegisterMarked(env, s, info, stamp), step, info, AdmittedEntry(s, info), x)
  {
    hide Core, Decide, AdmittedEntry, Admit, ObservedSlot, Settled, RegisterMarked, Reconcile, StampIs;
    MarkedForm(env, s, info, stamp);
    ReconcileGenerations(env, Settled(Admit(s, info), info.address, AdmittedEntry(s, info), stamp, false));
    SettledObserves(s, RegisterMarked(env, s, info, stamp), step, info, stamp, false, x);
  }

  // ---- marks and confirmations ------------------------------------------------------------------

  lemma MarkTable(env: Protocol, s: Registry, a: Addr, stamp: Stamp, x: Addr)
    requires WellFormed(env, s)
    ensures SlotAt(MarkSlot(s, a, stamp).table, x) == if x == a then StampSlot(SlotAt(s.table, a), stamp) else SlotAt(s.table, x)
    ensures MarkSlot(s, a, stamp).observationGeneration == s.observationGeneration + 1
  {
    hide WellFormed, MarkSlot, Settled, StampSlot, Sound, TopologyOk, Canonical;
    MarkSlotKeeps(env, s, a, stamp);
    if a in s.entries {
      HomedEntry(env, s, a);
      SettledTable(s, a, s.entries[a], stamp, false, x);
      SettledFrame(s, a, s.entries[a], stamp, false);
    }
  }

  lemma HomedEntry(env: Protocol, s: Registry, a: Addr)
    requires WellFormed(env, s) && a in s.entries
    ensures var e := s.entries[a]; Sound(s, {e}) && Homed(s, a, e) && At(s, e).physical == Canonical(At(s, e).info)
  {
    InOrder(s.order, s.arena, s.entries, a);
    SkipMore(s, s.entries[a]);
    EntryCanonical(s, s.entries[a]);
    hide Sound, TopologyOk, Canonical, WitnessesOk;
  }

  lemma ConfirmScanTable(env: Protocol, s: Registry, a: Addr, now: Time, x: Addr)
    requires WellFormed(env, s) && a in s.entries
    ensures var t := ConfirmScan(s, a, now);
      SlotAt(t.table, x) ==
        Confirmed(t, s.entries[a], a, x,
                  if x == a then StampSlot(SlotAt(s.table, a), Observed(CONFIRMED, now)) else SlotAt(s.table, x), true) &&
      t.observationGeneration == s.observationGeneration + 1
  {
    hide WellFormed, ConfirmScan, Settled, StampSlot, Sound, TopologyOk, Canonical, Confirmed;
    ConfirmScanKeeps(env, s, a, now);
    HomedEntry(env, s, a);
    SettledTable(s, a, s.entries[a], Observed(CONFIRMED, now), true, x);
    SettledFrame(s, a, s.entries[a], Observed(CONFIRMED, now), true);
  }

  /** A passive companion is admitted for a known time, a source with a current witness, a companion address, and a slot
      there that is not known to be anything but a slave. */
  ghost predicate Admissible(env: Protocol, s: Registry, source: Addr, at: Time)
  {
    at != 0 && source in s.witnesses && env.companionOf(source).Some? &&
    SlotAt(s.table, env.companionOf(source).value).role in {RoleUnknown, RoleSlave}
  }

  lemma AdmissibleIs(env: Protocol, s: Registry, source: Addr, at: Time)
    requires WellFormed(env, s)
    ensures AdmitsCompanion(env, s, source, at) <==> Admissible(env, s, source, at)
  {
    hide WitnessCurrent, Core;
  }

  /** The address whose slot a step marks or confirms. */
  ghost function Marks(env: Protocol, s: Registry, step: Step): Option<Addr>
  {
    match step
    case MarkSeed(a, _, _) => Some(a)
    case MarkPassive(a, _, _) => Some(a)
    case Confirm(a, _) => if a in s.entries then Some(a) else None
    case Companion(source, at) => if Admissible(env, s, source, at) then env.companionOf(source) else None
    case _ => None
  }

  /** What marking and confirming make of a slot: the marked one is what the sighting makes of it; another is confirmed
      where a confirmation reaches, and otherwise as it was. */
  ghost predicate SlotMarked(s: Registry, t: Registry, step: Step, marked: Option<Addr>, x: Addr)
  {
    var before, after := SlotAt(s.table, x), SlotAt(t.table, x);
    after.device == ExistingAt(s, x) &&
    if marked == Some(x) then SightingOf(step).Some? && Seen(before, SightingOf(step).value, after)
    else
      after == before.(
        verification :=
          if step.Confirm? && step.address in s.entries && Reaches(t, s.entries[step.address], step.address, x) then 3
          else before.verification)
  }

  lemma UnmarkedSlot(s: Registry, step: Step, x: Addr)
    requires Core(s) && (step.Confirm? ==> step.address !in s.entries)
    ensures SlotMarked(s, s, step, None, x) && SlotMarked(s, Tick(s), step, None, x)
  {
    hide Core, Seen;
    SlotDeviceIs(s, x);
  }

  lemma MarkSlotMarked(env: Protocol, s: Registry, step: Step, a: Addr, stamp: Stamp, x: Addr)
    requires WellFormed(env, s) && !step.Confirm? && SightingOf(step).Some? && StampIs(stamp, SightingOf(step).value)
    ensures SlotMarked(s, MarkSlot(s, a, stamp), step, Some(a), x)
  {
    hide WellFormed, Core, MarkSlot, Seen, SightingOf, StampIs;
    WellFormedCore(env, s);
    SlotDeviceIs(s, x);
    MarkedSeen(env, s, a, stamp, SightingOf(step).value, x);
  }

  lemma ConfirmSlotMarked(env: Protocol, s: Registry, a: Addr, now: Time, x: Addr)
    requires WellFormed(env, s) && a in s.entries
    ensures SlotMarked(s, ConfirmScan(s, a, now), Confirm(a, now), Some(a), x)
  {
    hide WellFormed, Core, ConfirmScan, StampSlot, Reaches, Seen;
    WellFormedCore(env, s);
    SlotDeviceIs(s, x);
    ConfirmScanTable(env, s, a, now, x);
    var seen := Sighting(ActiveConfirmed, 3, RoleUnknown, now, true);
    StampSees(SlotAt(s.table, a), Observed(CONFIRMED, now), seen);
    ConfirmedTop(StampSlot(SlotAt(s.table, a), Observed(CONFIRMED, now)), SlotAt(s.table, a), seen);
  }

  /** Exactly what marking, confirming and admitting a companion make of every slot, and when they make nothing of any. */
  lemma MarkSlotsExactly(env: Protocol, s: Registry, step: Step, x: Addr)
    requires WellFormed(env, s) && Observation(step).None? && !step.Alias?
    ensures SlotMarked(s, Do(env, s, step), step, Marks(env, s, step), x)
  {
    hide WellFormed, Core, MarkSlot, ConfirmScan, AdmitsCompanion, Admissible, SlotMarked;
    WellFormedCore(env, s);
    match step
    case AddProvider => UnmarkedSlot(s, step, x);
    case MarkSeed(a, role, at) => MarkSlotMarked(env, s, step, a, SeedMark(role, at), x);
    case MarkPassive(a, role, at) => MarkSlotMarked(env, s, step, a, PassiveMark(role, at), x);
    case Companion(source, at) =>
      AdmissibleIs(env, s, source, at);
      if Admissible(env, s, source, at) {
        SomeCompanion(env, s, source, at);
        MarkSlotMarked(env, s, step, env.companionOf(source).value, PassiveMark(RoleSlave, at), x);
      } else {
        UnmarkedSlot(s, step, x);
      }
    case Confirm(a, now) =>
      ConfirmScanIdle(s, a, now);
      if a in s.entries { ConfirmSlotMarked(env, s, a, now, x); } else { UnmarkedSlot(s, step, x); }
  }

  lemma SomeCompanion(env: Protocol, s: Registry, source: Addr, at: Time)
    requires Admissible(env, s, source, at)
    ensures env.companionOf(source).Some?
  {}

  lemma ConfirmedTop(slot: AddressSlot, before: AddressSlot, x: Sighting)
    requires Seen(before, x, slot) && x.level == 3
    ensures slot.(verification := 3) == slot
  {}

  lemma MarkedSeen(env: Protocol, s: Registry, a: Addr, stamp: Stamp, seen: Sighting, x: Addr)
    requires WellFormed(env, s) && StampIs(stamp, seen)
    ensures var after := SlotAt(MarkSlot(s, a, stamp).table, x);
      if x == a then Seen(SlotAt(s.table, a), seen, after) && after.device == SlotAt(s.table, a).device
      else after == SlotAt(s.table, x)
  {
    hide WellFormed, MarkSlot, StampSlot, Seen, StampIs;
    MarkTable(env, s, a, stamp, x);
    StampSees(SlotAt(s.table, a), stamp, seen);
  }

  lemma EnsuredKeys(s: Registry, a: Addr, b: Addr)
    ensures EnsureSlot(EnsureSlot(s, a), b).table.Keys == s.table.Keys + {a, b}
  {}

  lemma JoinedTable(s: Registry, c: EntryId, m: Addr, x: Addr)
    requires Core(s) && c in s.order && m in s.table
    ensures var t := JoinAlias(s, c, m);
      SlotAt(t.table, x).(device := None) == SlotAt(s.table, x).(device := None) && t.table.Keys == s.table.Keys
  {
    hide Core, JoinAlias;
    JoinAliasKeeps(s, c, m);
  }

  lemma AliasTable(env: Protocol, s: Registry, a: Addr, b: Addr, x: Addr)
    requires WellFormed(env, s)
    ensures var t := AliasGroups(s, a, b);
      SlotAt(t.table, x).(device := None) == SlotAt(s.table, x).(device := None) && t.table.Keys == s.table.Keys + {a, b}
  {
    hide WellFormed, Core, AliasGroups, JoinAlias, EnsureSlot, SlotAt;
    var s0 := EnsureSlot(EnsureSlot(s, a), b);
    AliasCases(env, s, a, b);
    EnsuredKeys(s, a, b);
    WellFormedCore(env, s0);
    assert a in s0.table && b in s0.table;
    if a in s.entries { JoinedTable(s0, s.entries[a], b, x); } else if b in s.entries { JoinedTable(s0, s.entries[b], a, x); }
  }

  /** An alias knows both its addresses from then on, and changes nothing of any slot but the entry it names. */
  lemma AliasSlotsExactly(env: Protocol, s: Registry, a: Addr, b: Addr, x: Addr)
    requires WellFormed(env, s)
    ensures var t := AliasAddresses(env, s, a, b);
      SlotAt(t.table, x) == SlotAt(s.table, x).(device := ExistingAt(t, x)) && t.table.Keys == s.table.Keys + {a, b}
  {
    hide WellFormed, Core, AliasGroups, AliasAddresses, RecordEdge, SlotAt;
    AliasTable(env, s, a, b, x);
    AliasFrame(env, s, a, b);
    AliasKeeps(env, s, a, b);
    WellFormedCore(env, AliasAddresses(env, s, a, b));
    SlotDeviceIs(AliasAddresses(env, s, a, b), x);
  }

  // ---- generations ------------------------------------------------------------------------------------

  /** The step finds nothing to do: a disputed triple at a known address, a confirmation of an unknown one, a companion
      that is not admissible. */
  ghost predicate Idle(env: Protocol, s: Registry, step: Step)
  {
    match step
    case Confirm(a, _) => a !in s.entries
    case Companion(source, at) => !Admissible(env, s, source, at)
    case _ => Observation(step).Some? && Observation(step).value.address in s.entries && Disputed(s, Observation(step).value)
  }

  /** Every step is one observation generation, but for the steps that find nothing to do, which change nothing. */
  lemma GenerationsCount(env: Protocol, s: Registry, step: Step)
    requires WellFormed(env, s)
    ensures if Idle(env, s, step) then Do(env, s, step) == s
            else Do(env, s, step).observationGeneration == s.observationGeneration + 1
  {
    hide WellFormed, Core, MarkSlot, ConfirmScan, AdmitsCompanion, Admissible, Disputed, Decide, Register, RegisterMarked,
      AliasAddresses, WitnessCurrent;
    WellFormedCore(env, s);
    if Observation(step).Some? {
      NotRetained(s, Observation(step).value);
      if Decide(s, Observation(step).value).retained { RetainedStep(env, s, step); } else { ObservationTicks(env, s, step); }
    } else {
      match step
      case AddProvider =>
      case MarkSeed(a, role, at) => MarkTable(env, s, a, SeedMark(role, at), 0);
      case MarkPassive(a, role, at) => MarkTable(env, s, a, PassiveMark(role, at), 0);
      case Confirm(a, now) => ConfirmScanIdle(s, a, now); if a in s.entries { ConfirmScanTable(env, s, a, now, 0); }
      case Companion(source, at) =>
        AdmissibleIs(env, s, source, at);
        if Admissible(env, s, source, at) {
          SomeCompanion(env, s, source, at);
          MarkTable(env, s, env.companionOf(source).value, PassiveMark(RoleSlave, at), 0);
        }
      case Alias(a, b) => AliasTicks(env, s, a, b);
    }
  }

  lemma AliasTicks(env: Protocol, s: Registry, a: Addr, b: Addr)
    requires WellFormed(env, s)
    ensures AliasAddresses(env, s, a, b).observationGeneration == s.observationGeneration + 1
  {
    hide WellFormed, AliasGroups, WitnessCurrent, RecordEdge, Core;
    AliasGroupsKeeps(env, s, a, b);
  }

  // ---- faces ---------------------------------------------------------------------------------------------

  /** The faces of a live entry are its addresses in order, each with the role, source and confidence of its slot. */
  lemma FacesAreSlots(env: Protocol, s: Registry, e: EntryId)
    requires WellFormed(env, s) && e in s.order
    ensures |At(s, e).faces| == |At(s, e).addresses|
    ensures forall i :: 0 <= i < |At(s, e).addresses| ==>
      var slot := SlotAt(s.table, At(s, e).addresses[i]);
      At(s, e).faces[i] == BusFace(At(s, e).addresses[i], slot.role, slot.source, slot.verification)
  {
    hide WitnessesOk, Partition, IndexRows, Canon, TopologyOk, SlotsAgree;
    assert At(s, e).faces == FacesOf(At(s, e).addresses, s.table);
  }

  ghost predicate HasRole(table: map<Addr, AddressSlot>, role: SlotRole, a: Addr)
  {
    SlotAt(table, a).role == role
  }

  /** The role is unknown, and the address's class is the role's. */
  ghost predicate Inferred(env: Protocol, table: map<Addr, AddressSlot>, role: SlotRole, a: Addr)
  {
    SlotAt(table, a).role == RoleUnknown &&
    match role
    case RoleMaster => env.classOf(a) == ClassMaster
    case RoleSlave => env.classOf(a) == ClassSlave
    case RoleUnknown => false
  }

  lemma InferredIs(env: Protocol, table: map<Addr, AddressSlot>, role: SlotRole, a: Addr)
    ensures Inferred(env, table, role, a) <==> SlotAt(table, a).role == RoleUnknown && ClassHasRole(env, a, role)
  {}

  lemma {:induction false} FirstWithRoleIs(table: map<Addr, AddressSlot>, addresses: seq<Addr>, role: SlotRole)
    ensures match FirstWithRole(table, addresses, role)
      case None => forall i :: 0 <= i < |addresses| ==> !HasRole(table, role, addresses[i])
      case Some(a) => exists i :: 0 <= i < |addresses| && addresses[i] == a && HasRole(table, role, a) &&
                                  forall j :: 0 <= j < i ==> !HasRole(table, role, addresses[j])
  {
    if addresses != [] && !HasRole(table, role, addresses[0]) {
      FirstWithRoleIs(table, addresses[1..], role);
      assert forall i :: 0 <= i < |addresses[1..]| ==> addresses[1..][i] == addresses[i + 1];
      assert forall i :: 0 < i < |addresses| ==> addresses[i] == addresses[1..][i - 1];
      if FirstWithRole(table, addresses[1..], role).Some? {
        var a := FirstWithRole(table, addresses[1..], role).value;
        var i :| 0 <= i < |addresses[1..]| && addresses[1..][i] == a && HasRole(table, role, a) &&
                 forall j :: 0 <= j < i ==> !HasRole(table, role, addresses[1..][j]);
        assert addresses[i + 1] == a;
      }
    }
  }

  lemma {:induction false} FirstInferredIs(env: Protocol, table: map<Addr, AddressSlot>, addresses: seq<Addr>, role: SlotRole)
    ensures match FirstInferred(env, table, addresses, role)
      case None => forall i :: 0 <= i < |addresses| ==> !Inferred(env, table, role, addresses[i])
      case Some(a) => exists i :: 0 <= i < |addresses| && addresses[i] == a && Inferred(env, table, role, a) &&
                                  forall j :: 0 <= j < i ==> !Inferred(env, table, role, addresses[j])
  {
    hide Inferred, ClassHasRole;
    if addresses != [] { InferredIs(env, table, role, addresses[0]); }
    if addresses != [] && !Inferred(env, table, role, addresses[0]) {
      FirstInferredIs(env, table, addresses[1..], role);
      assert forall i :: 0 <= i < |addresses[1..]| ==> addresses[1..][i] == addresses[i + 1];
      assert forall i :: 0 < i < |addresses| ==> addresses[i] == addresses[1..][i - 1];
      if FirstInferred(env, table, addresses[1..], role).Some? {
        var a := FirstInferred(env, table, addresses[1..], role).value;
        var i :| 0 <= i < |addresses[1..]| && addresses[1..][i] == a && Inferred(env, table, role, a) &&
                 forall j :: 0 <= j < i ==> !Inferred(env, table, role, addresses[1..][j]);
        assert addresses[i + 1] == a;
      }
    }
  }

  /** Looking an address up by role finds the first with that role, or else the first of unknown role whose class has it,
      or else there is neither. */
  lemma RoleFindsFirst(env: Protocol, s: Registry, e: EntryId, role: SlotRole)
    requires WellFormed(env, s) && e in s.order
    ensures var l := At(s, e).addresses;
      match RoleByFaces(env, At(s, e).faces, role)
      case None => forall i :: 0 <= i < |l| ==> !HasRole(s.table, role, l[i]) && !Inferred(env, s.table, role, l[i])
      case Some(a) =>
        exists i :: 0 <= i < |l| && l[i] == a &&
          if HasRole(s.table, role, a) then forall j :: 0 <= j < i ==> !HasRole(s.table, role, l[j])
          else Inferred(env, s.table, role, a) && (forall j :: 0 <= j < |l| ==> !HasRole(s.table, role, l[j])) &&
               forall j :: 0 <= j < i ==> !Inferred(env, s.table, role, l[j])
  {
    hide WellFormed, HasRole, Inferred, FirstWithRole, FirstInferred, RoleByFaces;
    AddressByRoleScansTable(env, s, e, role);
    FirstWithRoleIs(s.table, At(s, e).addresses, role);
    FirstInferredIs(env, s.table, At(s, e).addresses, role);
  }
}
