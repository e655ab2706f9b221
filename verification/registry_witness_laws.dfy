// When a witness stays: exactly while its entry stores, claims and owns the witnessed triple.
module RegistryWitnessLaws {
  import opened Numerals
  import opened Identity
  import opened RegistryState
  import opened RegistryInvariant
  import opened RegistrySteps
  import opened RegistryAliasSteps
  import opened RegistryIndexTheorems
  import opened RegistryIndexRuns
  import opened RegistryProvenance
  import opened RegistryTheorems
  import opened RegistryGroups
  import opened RegistryDecisions
  import opened RegistrySlotLaws

  /** The address resolves to an entry that stores the triple, claims its key and owns its row. */
  ghost predicate Backs(s: Registry, a: Addr, k: string)
  {
    k != "" && a in s.entries && At(s, s.entries[a]).identityKey == k && Triple(At(s, s.entries[a]).info) == k &&
    k in s.identity && s.identity[k] == s.entries[a]
  }

  lemma BackedAuthority(s: Registry, a: Addr, k: string)
    requires Core(s) && a in s.entries
    ensures Backs(s, a, k) <==>
      k != "" && At(s, s.entries[a]).identityKey == k && Key(At(s, s.entries[a]).physical) == k &&
      k in s.identity && s.identity[k] == s.entries[a]
  {
    hide Core, Key, Canonical;
    InOrderOf(s, a);
    EntryCanonicalOf(s, s.entries[a]);
  }

  /** Every witness is of a triple that its address's entry stores, claims and owns. */
  lemma WitnessesAreBacked(env: Protocol, s: Registry, a: Addr)
    requires WellFormed(env, s) && a in s.witnesses
    ensures var w := s.witnesses[a];
      Backs(s, a, w.authorityKey) && w.authorityKey == Triple(DeviceInfo(0, w.proof.manufacturer, w.proof.deviceID, w.proof.serial, "", "", "")) &&
      (env.classOf(a) == ClassMaster || env.classOf(a) == ClassSlave) && w.proof.address == a && w.proof.direct
  {
    WellFormedCore(env, s);
    assert WitnessCurrent(env, s, a, s.witnesses[a].proof);
    hide Core, Key, Canonical;
    BackedAuthority(s, a, s.witnesses[a].authorityKey);
  }

  // A record that was current and is still backed passes the sweep.
  lemma BackedIsCurrent(env: Protocol, s: Registry, u: Registry, a: Addr)
    requires WitnessesOk(env, s) && a in s.witnesses && Core(u) && u.witnesses == s.witnesses
    requires Backs(u, a, s.witnesses[a].authorityKey)
    ensures a in Reconcile(env, u).witnesses && Reconcile(env, u).witnesses[a] == s.witnesses[a]
  {
    assert WitnessCurrent(env, s, a, s.witnesses[a].proof);
    BackedAuthority(u, a, s.witnesses[a].authorityKey);
    hide Core, Key, Canonical;
    KeyFacts(AuthorityOf(s.witnesses[a].proof));
  }

  lemma BacksAlike(s: Registry, t: Registry, a: Addr, k: string)
    requires t.entries == s.entries && t.identity == s.identity && t.arena == s.arena
    ensures Backs(t, a, k) == Backs(s, a, k)
  {
    hide Triple;
  }

  lemma SettledWitnesses(env: Protocol, s: Registry, info: DeviceInfo, stamp: Stamp, confirm: bool)
    requires WellFormed(env, s) && !Decide(s, info).retained
    ensures var u := Settled(Admit(s, info), info.address, AdmittedEntry(s, info), stamp, confirm);
      Core(u) && u.witnesses == s.witnesses
  {
    AdmitKeeps(s, info);
    AdmitFrame(s, info);
    hide Decide, Admit, AdmittedEntry, Settled, Canonical, Sound, TopologyOk;
    SettledKeeps(Admit(s, info), info.address, AdmittedEntry(s, info), stamp, confirm);
  }

  lemma MarkedSurvives(env: Protocol, s: Registry, info: DeviceInfo, stamp: Stamp, a: Addr)
    requires WellFormed(env, s) && a in s.witnesses && !Decide(s, info).retained
    requires Backs(RegisterMarked(env, s, info, stamp), a, s.witnesses[a].authorityKey)
    ensures var t := RegisterMarked(env, s, info, stamp); a in t.witnesses && t.witnesses[a] == s.witnesses[a]
  {
    hide Decide, AdmittedEntry, Admit, Settled, RegisterMarked, Reconcile, Core, Backs;
    var u := Settled(Admit(s, info), info.address, AdmittedEntry(s, info), stamp, false);
    MarkedForm(env, s, info, stamp);
    ReconcileGenerations(env, u);
    SettledWitnesses(env, s, info, stamp, false);
    BacksAlike(RegisterMarked(env, s, info, stamp), u, a, s.witnesses[a].authorityKey);
    BackedIsCurrent(env, s, u, a);
  }

  lemma ObservedSurvives(env: Protocol, s: Registry, info: DeviceInfo, now: Time, a: Addr)
    requires WellFormed(env, s) && a in s.witnesses && !Decide(s, info).retained && a != info.address
    requires Backs(Register(env, s, info, now), a, s.witnesses[a].authorityKey)
    ensures var t := Register(env, s, info, now); a in t.witnesses && t.witnesses[a] == s.witnesses[a]
  {
    hide Decide, AdmittedEntry, Admit, Settled, Register, Reconcile, Core, Backs, RecordWitness, Canonical, Qualified;
    var complete := Qualified(Canonical(info));
    var stamp := Observed(if complete then CONFIRMED else CANDIDATE, now);
    var u := Settled(Admit(s, info), info.address, AdmittedEntry(s, info), stamp, complete);
    RegisterForm(env, s, info, now);
    ReconcileGenerations(env, u);
    RecordFrame(env, Reconcile(env, u), info, AdmittedEntry(s, info));
    SettledWitnesses(env, s, info, stamp, complete);
    BacksAlike(Register(env, s, info, now), u, a, s.witnesses[a].authorityKey);
    BackedIsCurrent(env, s, u, a);
    RecordedElsewhere(env, Reconcile(env, u), info, AdmittedEntry(s, info), a);
  }

  lemma RecordedElsewhere(env: Protocol, s: Registry, info: DeviceInfo, e: EntryId, a: Addr)
    requires a != info.address && a in s.witnesses
    ensures a in RecordWitness(env, s, info, e).witnesses && RecordWitness(env, s, info, e).witnesses[a] == s.witnesses[a]
  {
    hide Key, Canonical, CurrentKey, WitnessAddress;
  }

  lemma AliasSurvives(env: Protocol, s: Registry, b: Addr, c: Addr, a: Addr)
    requires WellFormed(env, s) && a in s.witnesses && Backs(AliasAddresses(env, s, b, c), a, s.witnesses[a].authorityKey)
    ensures var t := AliasAddresses(env, s, b, c); a in t.witnesses && t.witnesses[a] == s.witnesses[a]
  {
    hide AliasGroups, RecordEdge, Core, Backs, Reconcile;
    AliasGroupsKeeps(env, s, b, c);
    var s1 := AliasGroups(s, b, c);
    var s2 := if ExistingAt(s1, b).Some? && ExistingAt(s1, b) == ExistingAt(s1, c)
              then s1.(topology := RecordEdge(s1.topology, b, c)) else s1;
    AliasedCore(s1, b, c);
    ReconcileGenerations(env, Tick(s2));
    BacksAlike(AliasAddresses(env, s, b, c), Tick(s2), a, s.witnesses[a].authorityKey);
    BackedIsCurrent(env, s, Tick(s2), a);
  }

  lemma QuietWitnesses(env: Protocol, s: Registry, step: Step)
    requires WellFormed(env, s) && Observation(step).None? && !step.Alias?
    ensures Do(env, s, step).witnesses == s.witnesses
  {
    hide WellFormed, MarkSlot, ConfirmScan, AdmitsCompanion;
    match step
    case AddProvider =>
    case MarkSeed(b, role, at) => MarkWitnesses(env, s, b, SeedMark(role, at));
    case MarkPassive(b, role, at) => MarkWitnesses(env, s, b, PassiveMark(role, at));
    case Confirm(b, now) => ConfirmWitnesses(env, s, b, now);
    case Companion(source, at) =>
      if AdmitsCompanion(env, s, source, at) { SomeCompanionOf(env, s, source, at); MarkWitnesses(env, s, env.companionOf(source).value, PassiveMark(RoleSlave, at)); }
  }

  lemma SomeCompanionOf(env: Protocol, s: Registry, source: Addr, at: Time)
    requires AdmitsCompanion(env, s, source, at)
    ensures env.companionOf(source).Some?
  {
    hide WitnessCurrent;
  }

  /** A step retires a witness only when its entry no longer stores, claims and owns the witnessed triple; a witness that
      stays is the same, unless its own address was actively observed. */
  lemma WitnessSurvives(env: Protocol, s: Registry, step: Step, a: Addr)
    requires WellFormed(env, s) && a in s.witnesses && !(step.Observe? && step.info.address == a)
    ensures var t := Do(env, s, step);
      (a in t.witnesses <==> Backs(t, a, s.witnesses[a].authorityKey)) && (a in t.witnesses ==> t.witnesses[a] == s.witnesses[a])
  {
    hide WellFormed, Backs, Decide, Register, RegisterMarked, AliasAddresses, MarkSlot, ConfirmScan, AdmitCompanion;
    var t := Do(env, s, step);
    StepKeeps(env, s, step);
    if a in t.witnesses {
      if step.Observe? { RegisterWitnesses(env, s, step.info, step.now, a); } else { OtherStepWitnesses(env, s, step, a); }
      WitnessesAreBacked(env, t, a);
    }
    if Backs(t, a, s.witnesses[a].authorityKey) {
      match step {
        case Observe(info, now) =>
          if Decide(s, info).retained { RetainedStep(env, s, step); } else { ObservedSurvives(env, s, info, now, a); }
        case Seed(info, role, at) =>
          if Decide(s, info).retained { RetainedStep(env, s, step); } else { MarkedSurvives(env, s, info, SeedMark(role, at), a); }
        case Passive(info, role, at) =>
          if Decide(s, info).retained { RetainedStep(env, s, step); } else { MarkedSurvives(env, s, info, PassiveMark(role, at), a); }
        case Alias(b, c) => AliasSurvives(env, s, b, c, a);
        case _ => QuietWitnesses(env, s, step);
      }
    }
  }
}
