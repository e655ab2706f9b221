// What becomes of one reading: it is stored as it was received, ages by the
// clock alone, and continues its predecessor only while that can be trusted.
module PvReadings {
  import opened Numerals
  import opened PvCounter
  import opened PvFacts
  import opened PvRegistry
  import opened PvInvariant
  import opened PvTheorems

  // ---- ageing -----------------------------------------------------------------------

  /** For how many seconds a reading of a policy is fresh, and for how many it is available. */
  datatype Horizon = Horizon(staleAfter: int, expiresAfter: int)

  function HorizonOf(policy: PolicyID): Option<Horizon>
  {
    match policy
    case TelemetryFast => Some(Horizon(30, 300))
    case Status => Some(Horizon(60, 600))
    case Accumulator => Some(Horizon(15 * 60, 24 * 3600))
    case Rating => Some(Horizon(24 * 3600, 30 * 24 * 3600))
    case OtherPolicy(_) => None
  }

  function Seconds(n: int): int { n * 1_000_000_000 }

  /** A reading received at one time, looked at at another: fresh, then stale, then expired and no longer available. */
  ghost predicate Aged(policy: PolicyID, receipt: int, t: int, freshness: Freshness, availability: Availability)
  {
    var h := HorizonOf(policy);
    h.Some? && receipt <= t &&
    (freshness == Fresh <==> t < receipt + Seconds(h.value.staleAfter)) &&
    (freshness == Stale <==> receipt + Seconds(h.value.staleAfter) <= t < receipt + Seconds(h.value.expiresAfter)) &&
    (freshness == Expired <==> receipt + Seconds(h.value.expiresAfter) <= t) &&
    availability == if freshness == Expired then Unavailable else Available
  }

  /** Where a stored reading's window ends. */
  ghost predicate Windowed(policy: PolicyID, w: Temporal)
  {
    var h := HorizonOf(policy);
    h.Some? && w.policy == policy && 0 <= w.receipt as int &&
    w.freshUntil as int == w.receipt as int + Seconds(h.value.staleAfter) &&
    w.retainUntil as int == w.receipt as int + Seconds(h.value.expiresAfter)
  }

  /** Evaluation succeeds exactly on a policy with a horizon, a receipt that is neither negative nor later than the
      evaluation, and a window that ends within int64; and then it is the age of the reading. */
  lemma EvaluationIsAge(policy: PolicyID, receipt: Nanos, t: Nanos)
    ensures var h := HorizonOf(policy);
      PolicyByID(policy).Some? == h.Some? &&
      (h.Some? ==>
         var state := EvaluateTemporal(PolicyByID(policy).value, receipt, t);
         (state.Some? <==> 0 <= receipt <= t && receipt as int + Seconds(h.value.expiresAfter) < 0x8000_0000_0000_0000) &&
         (state.Some? ==>
            Aged(policy, receipt as int, t as int, state.value.freshness, state.value.availability) &&
            Windowed(policy, state.value.temporal) && state.value.temporal.receipt == receipt))
  {}

  /** A stored fact looked at again: the same but for its age. */
  ghost predicate AgedSince(before: Fact, after: Fact, t: Nanos)
  {
    after == before.(freshness := after.freshness, availability := after.availability) &&
    Aged(after.temporal.policy, after.temporal.receipt as int, t as int, after.freshness, after.availability)
  }

  lemma RefreshedIsAged(f: Fact, t: Nanos)
    requires StateOf(f, t).Some?
    ensures AgedSince(f, Refreshed(f, t), t)
  {
    EvaluationIsAge(f.temporal.policy, f.temporal.receipt, t);
    hide EvaluateTemporal, PolicyByID, Aged, Windowed;
  }

  lemma RetainedAge(facts: Facts, t: Nanos, k: FactKey)
    requires EvaluateRetained(facts, t).Ok?
    ensures k in EvaluateRetained(facts, t).value <==> k in facts
    ensures k in facts ==> AgedSince(facts[k], EvaluateRetained(facts, t).value[k], t)
  {
    hide AgedSince, StateOf;
    if k in facts { RefreshedIsAged(facts[k], t); }
  }

  /** Whatever it was stored as, a snapshot shows every fact at its age, and nothing else of it differs. */
  lemma SnapshotShowsAges(s: Asset, t: Nanos, k: FactKey)
    requires Snapshot(s, t).Ok?
    ensures k in Snapshot(s, t).value.facts <==> k in s.facts
    ensures k in s.facts ==> AgedSince(s.facts[k], Snapshot(s, t).value.facts[k], t)
  {
    hide AgedSince, EvaluateRetained, PruneOrigins;
    RetainedAge(s.facts, t, k);
  }

  // ---- acceptance -----------------------------------------------------------------------

  /** The stored fact is the reading as it came: nothing of it is changed but what its age says. */
  ghost predicate StoredAsReceived(f: Fact, source: Provenance, input: FactInput, evaluated: Nanos)
  {
    f.id == input.candidate.id && f.dimensions == input.candidate.dimensions && f.value == input.candidate.value &&
    f.unit == input.candidate.unit && f.quality == input.quality && f.originRef == source.observationRef &&
    f.temporal.receipt == input.receipt && Windowed(input.policy, f.temporal) &&
    Aged(input.policy, input.receipt as int, evaluated as int, f.freshness, f.availability)
  }

  /** The prior value is too old or from another source, so that no delta may be published against it. */
  ghost predicate Untrusted(facts: Facts, origins: map<Digest, Provenance>, source: Provenance, key: FactKey)
  {
    key in facts &&
    (facts[key].availability != Available ||
     OriginAt(origins, facts[key].originRef).identity != source.identity ||
     OriginAt(origins, facts[key].originRef).registryRef != source.registryRef)
  }

  /** How an accumulator continues: a first value is a baseline, an untrusted predecessor is a discontinuity whatever
      is claimed, and otherwise the predecessor's value and the claimed event decide. */
  ghost predicate ContinuesFrom(facts: Facts, origins: map<Digest, Provenance>, source: Provenance, input: FactInput, c: Continuity)
  {
    var key := InputKey(input);
    if key !in facts then input.counter == NO_EVIDENCE && c == Continuity(Baseline, None, None, "")
    else if Untrusted(facts, origins, source, key) then c == Continuity(Discontinuity, None, None, "")
    else input.candidate.value.decimal.Some? &&
         EvaluateCounter(facts[key].value.decimal, input.candidate.value.decimal.value, input.counter) == Some(c)
  }

  /** Everything a reading must satisfy to be stored. */
  ghost predicate Acceptable(catalog: Catalog, facts: Facts, origins: map<Digest, Provenance>, source: Provenance,
                             evaluated: Nanos, input: FactInput)
  {
    var h := HorizonOf(input.policy);
    ValidCandidate(catalog, input.candidate) && catalog.facts[input.candidate.id].policy == input.policy &&
    input.quality != OtherQuality && h.Some? && 0 <= input.receipt <= evaluated &&
    input.receipt as int + Seconds(h.value.expiresAfter) < 0x8000_0000_0000_0000 &&
    if catalog.facts[input.candidate.id].accumulator
    then input.candidate.value.decimal.Some? && exists c :: ContinuesFrom(facts, origins, source, input, c)
    else input.counter == NO_EVIDENCE
  }

  lemma ContinuityIs(facts: Facts, origins: map<Digest, Provenance>, source: Provenance, input: FactInput)
    requires input.candidate.value.decimal.Some? && Valid(input.candidate.value.decimal.value)
    ensures var r := ContinuityOf(facts, origins, source, InputKey(input), input.candidate.value.decimal.value, input.counter);
      forall c :: ContinuesFrom(facts, origins, source, input, c) <==> r == Some(c)
  {
    hide Valid, Compare, Subtract, Add, ValidDigest, ParseInteger, InputKey;
  }

  lemma AcceptableDecimal(catalog: Catalog, c: Candidate)
    requires ValidCandidate(catalog, c)
    ensures c.value.decimal.Some? ==> Valid(c.value.decimal.value)
  {
    hide Valid, ValidDimensions;
  }

  /** A reading is stored exactly when it is acceptable, and then as it was received. */
  lemma AppliedAsReceived(catalog: Catalog, facts: Facts, origins: map<Digest, Provenance>, source: Provenance,
                          evaluated: Nanos, input: FactInput)
    ensures var r := ApplyFact(catalog, facts, origins, source, evaluated, input);
      (r.Ok? <==> Acceptable(catalog, facts, origins, source, evaluated, input)) &&
      (r.Ok? ==>
         StoredAsReceived(r.value, source, input, evaluated) &&
         if catalog.facts[input.candidate.id].accumulator
         then r.value.continuity.Some? && ContinuesFrom(facts, origins, source, input, r.value.continuity.value)
         else r.value.continuity.None?)
  {
    hide EvaluateTemporal, PolicyByID, Aged, Windowed, ValidCandidate, ContinuityOf, ContinuesFrom, InputKey;
    EvaluationIsAge(input.policy, input.receipt, evaluated);
    if ValidCandidate(catalog, input.candidate) {
      AcceptableDecimal(catalog, input.candidate);
      if input.candidate.value.decimal.Some? { ContinuityIs(facts, origins, source, input); }
    }
  }

  /** Every reading of an accepted update was acceptable and is stored as it was received, judged against the facts
      before the update and their origins. */
  lemma ReadingsAreStored(env: Admission, catalog: Catalog, s: Asset, t: Nanos, u: Update, i: nat)
    requires FactsOk(catalog, s.facts, t) && Apply(env, catalog, s, u).Ok? && i < |u.facts|
    ensures EvaluateRetained(s.facts, u.evaluated).Ok?
    ensures var retained, origins := EvaluateRetained(s.facts, u.evaluated).value, s.origins[u.source.observationRef := u.source];
      var input, after := u.facts[i], Apply(env, catalog, s, u).value;
      Acceptable(catalog, retained, origins, u.source, u.evaluated, input) && InputKey(input) in after.facts &&
      StoredAsReceived(after.facts[InputKey(input)], u.source, input, u.evaluated) &&
      var c := after.facts[InputKey(input)].continuity;
      if catalog.facts[input.candidate.id].accumulator
      then c.Some? && ContinuesFrom(retained, origins, u.source, input, c.value)
      else c.None?
  {
    hide FactsOk, Apply, ApplyFact, Acceptable, StoredAsReceived, ContinuesFrom, InputKey, EvaluateRetained;
    UpdatedAt(env, catalog, s, t, u, i);
    AppliedAsReceived(catalog, EvaluateRetained(s.facts, u.evaluated).value, s.origins[u.source.observationRef := u.source],
                      u.source, u.evaluated, u.facts[i]);
  }

  /** Every fact that an accepted update does not carry stays as it was, at its age. */
  lemma OthersAge(env: Admission, catalog: Catalog, s: Asset, t: Nanos, u: Update, k: FactKey)
    requires FactsOk(catalog, s.facts, t) && Apply(env, catalog, s, u).Ok? && k in s.facts && k !in InputKeys(u.facts)
    ensures k in Apply(env, catalog, s, u).value.facts && AgedSince(s.facts[k], Apply(env, catalog, s, u).value.facts[k], u.evaluated)
  {
    hide FactsOk, Apply, AgedSince, InputKeys, EvaluateRetained, ApplyFacts, DistinctInputs, Admit, AccountingOk, WithinLimits,
      MergeLedger, MergeRequested, PruneOrigins, Installed, Refreshed;
    Accepted(env, catalog, s, u);
    UpdatedFacts(catalog, s, t, u);
    RetainedAge(s.facts, u.evaluated, k);
    RetainedOk(catalog, s.facts, t, u.evaluated);
  }

  /** The whole life of a reading: from the update that brought it on, every snapshot shows it as it was received, at
      its age. */
  lemma ReadingsAge(env: Admission, catalog: Catalog, s: Asset, t: Nanos, u: Update, i: nat, v: Nanos)
    requires BarFree(catalog) && Ledgered(catalog, s, t) && Apply(env, catalog, s, u).Ok? && i < |u.facts|
    requires 0 <= u.evaluated <= v
    ensures var after, input := Apply(env, catalog, s, u).value, u.facts[i];
      Snapshot(after, v).Ok? && InputKey(input) in Snapshot(after, v).value.facts &&
      StoredAsReceived(Snapshot(after, v).value.facts[InputKey(input)], u.source, input, v)
  {
    hide Ledgered, Stored, Apply, Snapshot, InputKey, Acceptable, ContinuesFrom, Aged, Windowed, BarFree, EvaluateRetained;
    ReadingStored(env, catalog, s, t, u, i);
    ApplyKeeps(env, catalog, s, t, u);
    var after := Apply(env, catalog, s, u).value;
    SnapshotsNeverFail(catalog, after, u.evaluated, v);
    SnapshotShowsAges(after, v, InputKey(u.facts[i]));
    StoredThenAged(after.facts[InputKey(u.facts[i])], Snapshot(after, v).value.facts[InputKey(u.facts[i])], u.source, u.facts[i],
                   u.evaluated, v);
  }

  lemma StoredThenAged(f: Fact, g: Fact, source: Provenance, input: FactInput, t: Nanos, v: Nanos)
    requires StoredAsReceived(f, source, input, t) && AgedSince(f, g, v)
    ensures StoredAsReceived(g, source, input, v)
  {
    hide Aged;
  }

  lemma ReadingStored(env: Admission, catalog: Catalog, s: Asset, t: Nanos, u: Update, i: nat)
    requires Ledgered(catalog, s, t) && Apply(env, catalog, s, u).Ok? && i < |u.facts|
    ensures var after, input := Apply(env, catalog, s, u).value, u.facts[i];
      InputKey(input) in after.facts && StoredAsReceived(after.facts[InputKey(input)], u.source, input, u.evaluated)
  {
    hide FactsOk, RowsOk, MapsOnce, OriginsNamed, OriginsCover, Apply, InputKey, Acceptable, ContinuesFrom, StoredAsReceived,
      EvaluateRetained;
    ReadingsAreStored(env, catalog, s, t, u, i);
  }

  // ---- exactly which updates are accepted ---------------------------------------------------

  lemma {:induction false} AllAccepted(catalog: Catalog, facts: Facts, origins: map<Digest, Provenance>, source: Provenance,
                                       evaluated: Nanos, inputs: seq<FactInput>)
    requires DistinctInputs(inputs)
    ensures ApplyFacts(catalog, facts, origins, source, evaluated, inputs).Ok? <==>
            forall i :: 0 <= i < |inputs| ==> ApplyFact(catalog, facts, origins, source, evaluated, inputs[i]).Ok?
  {
    hide InputKey, ApplyFact;
    if inputs != [] {
      var n := |inputs| - 1;
      AllAccepted(catalog, facts, origins, source, evaluated, inputs[..n]);
      assert forall i :: 0 <= i < n ==> inputs[..n][i] == inputs[i];
      if ApplyFacts(catalog, facts, origins, source, evaluated, inputs[..n]).Ok? {
        AppliedElsewhere(catalog, facts, origins, source, evaluated, inputs[..n], InputKey(inputs[n]));
        JudgedAtItsKey(catalog, facts, ApplyFacts(catalog, facts, origins, source, evaluated, inputs[..n]).value, origins, source,
                       evaluated, inputs[n]);
      }
    }
  }

  lemma RetainedWhen(catalog: Catalog, facts: Facts, t: Nanos, u: Nanos)
    requires FactsOk(catalog, facts, t)
    ensures EvaluateRetained(facts, u).Ok? <==> forall k :: k in facts ==> facts[k].temporal.receipt <= u
  {
    hide EvaluateTemporal, PolicyByID, ValidValue, Catalogued, KeyOf, Aged, Windowed;
    forall k | k in facts ensures PolicyByID(facts[k].temporal.policy).Some?
      ensures StateOf(facts[k], u).Some? <==> facts[k].temporal.receipt <= u
    {
      assert FactOk(catalog, k, facts[k], t);
      EvaluationIsAge(facts[k].temporal.policy, facts[k].temporal.receipt, t);
      EvaluationIsAge(facts[k].temporal.policy, facts[k].temporal.receipt, u);
    }
  }

  /** No stored reading is newer than the update, its observation reference is new or names the same source, and each
      of its readings is acceptable. */
  ghost predicate ReadingsAcceptable(catalog: Catalog, s: Asset, u: Update)
  {
    (forall k :: k in s.facts ==> s.facts[k].temporal.receipt <= u.evaluated) &&
    (u.source.observationRef in s.origins ==> s.origins[u.source.observationRef] == u.source) &&
    EvaluateRetained(s.facts, u.evaluated).Ok? &&
    forall i :: 0 <= i < |u.facts| ==>
      Acceptable(catalog, EvaluateRetained(s.facts, u.evaluated).value, s.origins[u.source.observationRef := u.source],
                 u.source, u.evaluated, u.facts[i])
  }

  /** The facts of an update are stored exactly when its readings are acceptable. */
  lemma ReadingsAcceptedExactly(catalog: Catalog, s: Asset, t: Nanos, u: Update)
    requires FactsOk(catalog, s.facts, t) && DistinctInputs(u.facts)
    ensures UpdateFacts(catalog, s, u).Ok? <==> ReadingsAcceptable(catalog, s, u)
  {
    hide FactsOk, ApplyFacts, EvaluateRetained, Acceptable, StoredAsReceived, ContinuesFrom, InputKey, DistinctInputs, Installed;
    RetainedWhen(catalog, s.facts, t, u.evaluated);
    if EvaluateRetained(s.facts, u.evaluated).Ok? {
      var retained, origins := EvaluateRetained(s.facts, u.evaluated).value, s.origins[u.source.observationRef := u.source];
      AllAccepted(catalog, retained, origins, u.source, u.evaluated, u.facts);
      forall i | 0 <= i < |u.facts|
        ensures ApplyFact(catalog, retained, origins, u.source, u.evaluated, u.facts[i]).Ok? <==>
                Acceptable(catalog, retained, origins, u.source, u.evaluated, u.facts[i])
      {
        AppliedAsReceived(catalog, retained, origins, u.source, u.evaluated, u.facts[i]);
      }
      if ApplyFacts(catalog, retained, origins, u.source, u.evaluated, u.facts).Ok? {
        RetainedOk(catalog, s.facts, t, u.evaluated);
        AppliedFacts(catalog, retained, origins, u.source, u.evaluated, u.facts);
        EvaluatedAgain(catalog, ApplyFacts(catalog, retained, origins, u.source, u.evaluated, u.facts).value, u.evaluated);
      }
    }
  }

  /** What an accepted update leaves besides the facts: its source, its source time, and stores within their bounds. */
  lemma AcceptedWithinBounds(env: Admission, catalog: Catalog, s: Asset, u: Update)
    requires Apply(env, catalog, s, u).Ok?
    ensures var after := Apply(env, catalog, s, u).value;
      after.source == u.source && after.sourceTime == u.sourceTime && u.sourceTime != OtherTime && u.evaluated >= 0 &&
      0 < |u.facts| <= 256 && |after.facts| <= 256 && |after.origins| <= 256 &&
      0 < |u.report| == |u.requested| <= 512 && |after.requested| <= 512 && |after.ledger| <= 512
  {
    hide AccountingOk, ValidProvenance, ApplyFact, EvaluateRetained, InputKey, MergeLedger, MergeRequested, PruneOrigins,
      ThreePhaseSatisfied, DistinctInputs;
    Accepted(env, catalog, s, u);
  }

  lemma TotalKey(id: string)
    ensures ByTotal(id) == id + "|scope=total"
  {
    var d := Dimensions("total", "", "", "", "");
    assert "scope=" + "total" == "scope=total";
    assert Parts(d) == ["scope=total"];
    assert "|" + "scope=total" == "|scope=total";
  }

  lemma PhaseKey(id: string, phase: string)
    requires phase != ""
    ensures ForPhase(id, phase) == id + "|phase=" + phase
  {
    var d := Dimensions("", phase, "", "", "");
    assert Part("phase=", phase) == ["phase=" + phase];
    assert Parts(d) == ["phase=" + phase];
    assert "|" + ("phase=" + phase) == "|phase=" + phase;
  }

  /** The facts a three-phase inverter must report, by their printed keys. */
  function ThreePhaseFacts(): set<FactKey>
  {
    {"pv.ac.power.active" + "|scope=total", "pv.ac.frequency" + "|scope=total",
     "pv.energy.active_export_total" + "|scope=total", "pv.operating.state" + "|scope=total"} +
    set phase, id | phase in {"L1", "L2", "L3"} && id in {"pv.ac.current", "pv.ac.voltage.line_to_neutral"} ::
      id + "|phase=" + phase
  }

  lemma RequiredAreThreePhase()
    ensures RequiredKeys() == ThreePhaseFacts()
  {
    hide ByTotal, ForPhase;
    TotalKey("pv.ac.power.active");
    TotalKey("pv.ac.frequency");
    TotalKey("pv.energy.active_export_total");
    TotalKey("pv.operating.state");
    PhaseKey("pv.ac.current", "L1");
    PhaseKey("pv.ac.current", "L2");
    PhaseKey("pv.ac.current", "L3");
    PhaseKey("pv.ac.voltage.line_to_neutral", "L1");
    PhaseKey("pv.ac.voltage.line_to_neutral", "L2");
    PhaseKey("pv.ac.voltage.line_to_neutral", "L3");
  }

  /** An admitted update is accepted if and only if its readings are acceptable, it claims the capability that the facts
      show, and what it leaves stays within bounds. */
  lemma AcceptedExactly(env: Admission, catalog: Catalog, s: Asset, t: Nanos, u: Update)
    requires FactsOk(catalog, s.facts, t) && Admit(env, u).None?
    ensures Apply(env, catalog, s, u).Ok? <==>
      ReadingsAcceptable(catalog, s, u) && UpdateFacts(catalog, s, u).Ok? &&
      u.capabilityID == "helianthus.pv.inverter.three_phase.telemetry.v1" &&
      u.capability == (if ThreePhaseFacts() <= s.facts.Keys + InputKeys(u.facts) then Satisfied else NotSatisfied) &&
      var after := Committed(s, u, UpdateFacts(catalog, s, u).value);
      |after.facts| <= 256 && |after.origins| <= 256 && |after.requested| <= 512 && |after.ledger| <= 512
  {
    hide FactsOk, RequiredKeys, ThreePhaseFacts, ThreePhaseSatisfied, InputKeys, UpdateFacts, AccountingOk, WithinLimits,
      ValidProvenance, DistinctInputs, MergeLedger, MergeRequested, PruneOrigins, Installed, Refreshed;
    hide ReadingsAcceptable;
    ReadingsAcceptedExactly(catalog, s, t, u);
    RequiredAreThreePhase();
    if UpdateFacts(catalog, s, u).Ok? {
      UpdatedFacts(catalog, s, t, u);
      SatisfiedByPresence(catalog, s.(facts := UpdateFacts(catalog, s, u).value), u.evaluated);
    }
  }

  // ---- why an update is refused ---------------------------------------------------------------

  /** An unknown fact, value, policy or quality. */
  ghost predicate Malformed(catalog: Catalog, input: FactInput)
  {
    !ValidCandidate(catalog, input.candidate) || catalog.facts[input.candidate.id].policy != input.policy ||
    input.quality == OtherQuality || HorizonOf(input.policy).None?
  }

  /** A reading from before the start of time or after the evaluation, or whose window passes int64. */
  ghost predicate Untimely(input: FactInput, evaluated: Nanos)
  {
    HorizonOf(input.policy).Some? &&
    (input.receipt < 0 || evaluated < input.receipt ||
     input.receipt as int + Seconds(HorizonOf(input.policy).value.expiresAfter) >= 0x8000_0000_0000_0000)
  }

  /** Why a reading is refused: as a fact if it is malformed, else for its time, else as a fact again if it accumulates
      without a decimal, else for its counter evidence. */
  lemma ReadingRefusedFor(catalog: Catalog, facts: Facts, origins: map<Digest, Provenance>, source: Provenance,
                          evaluated: Nanos, input: FactInput)
    ensures var r := ApplyFact(catalog, facts, origins, source, evaluated, input);
      r.Err? ==>
        r.error ==
          if Malformed(catalog, input) then InvalidFact
          else if Untimely(input, evaluated) then InvalidMonotonicTime
          else if catalog.facts[input.candidate.id].accumulator && input.candidate.value.decimal.None? then InvalidFact
          else InvalidCounter
  {
    hide EvaluateTemporal, PolicyByID, HorizonOf, Aged, Windowed, ValidCandidate, ContinuityOf, InputKey;
    EvaluationIsAge(input.policy, input.receipt, evaluated);
  }

  lemma {:induction false} FirstRefusal(catalog: Catalog, facts: Facts, origins: map<Digest, Provenance>, source: Provenance,
                                        evaluated: Nanos, inputs: seq<FactInput>)
    requires DistinctInputs(inputs) && ApplyFacts(catalog, facts, origins, source, evaluated, inputs).Err?
    ensures exists i ::
      0 <= i < |inputs| &&
      ApplyFact(catalog, facts, origins, source, evaluated, inputs[i]) ==
        Err(ApplyFacts(catalog, facts, origins, source, evaluated, inputs).error) &&
      forall j :: 0 <= j < i ==> ApplyFact(catalog, facts, origins, source, evaluated, inputs[j]).Ok?
  {
    hide InputKey, ApplyFact;
    var n := |inputs| - 1;
    var front := ApplyFacts(catalog, facts, origins, source, evaluated, inputs[..n]);
    assert forall i :: 0 <= i < n ==> inputs[..n][i] == inputs[i];
    if front.Err? {
      FirstRefusal(catalog, facts, origins, source, evaluated, inputs[..n]);
      var i :| 0 <= i < |inputs[..n]| && ApplyFact(catalog, facts, origins, source, evaluated, inputs[..n][i]) == Err(front.error) &&
               forall j :: 0 <= j < i ==> ApplyFact(catalog, facts, origins, source, evaluated, inputs[..n][j]).Ok?;
      assert ApplyFact(catalog, facts, origins, source, evaluated, inputs[i]) == Err(front.error);
    } else {
      AllAccepted(catalog, facts, origins, source, evaluated, inputs[..n]);
      AppliedElsewhere(catalog, facts, origins, source, evaluated, inputs[..n], InputKey(inputs[n]));
      JudgedAtItsKey(catalog, facts, front.value, origins, source, evaluated, inputs[n]);
      assert ApplyFact(catalog, facts, origins, source, evaluated, inputs[n]).Err?;
    }
  }

  /** The reading is the first of its update that cannot be stored, and this is why. */
  ghost predicate FirstRefused(catalog: Catalog, s: Asset, u: Update, i: int, error: Error)
  {
    0 <= i < |u.facts| && EvaluateRetained(s.facts, u.evaluated).Ok? &&
    var retained, origins := EvaluateRetained(s.facts, u.evaluated).value, s.origins[u.source.observationRef := u.source];
    ApplyFact(catalog, retained, origins, u.source, u.evaluated, u.facts[i]) == Err(error) &&
    forall j :: 0 <= j < i ==> Acceptable(catalog, retained, origins, u.source, u.evaluated, u.facts[j])
  }

  /** Why an admitted update is refused, in this order: a stored reading is newer, its observation reference names another
      source, its first unacceptable reading, the capability it claims, the size of what it would leave. */
  lemma UpdateRefusedFor(env: Admission, catalog: Catalog, s: Asset, t: Nanos, u: Update)
    requires FactsOk(catalog, s.facts, t) && Admit(env, u).None? && Apply(env, catalog, s, u).Err?
    ensures var error := Apply(env, catalog, s, u).error;
      if exists k :: k in s.facts && u.evaluated < s.facts[k].temporal.receipt then error == InvalidMonotonicTime
      else if u.source.observationRef in s.origins && s.origins[u.source.observationRef] != u.source then error == SourceNotAdmitted
      else if !ReadingsAcceptable(catalog, s, u) then exists i :: FirstRefused(catalog, s, u, i, error)
      else error == if u.capabilityID == "helianthus.pv.inverter.three_phase.telemetry.v1" &&
                       u.capability == (if ThreePhaseFacts() <= s.facts.Keys + InputKeys(u.facts) then Satisfied else NotSatisfied)
                    then InvalidProjection else InvalidCapability
  {
    hide FactsOk, RequiredKeys, ThreePhaseFacts, ThreePhaseSatisfied, InputKeys, EvaluateRetained, ApplyFacts, ApplyFact, Acceptable,
      AccountingOk, WithinLimits, ValidProvenance, DistinctInputs, MergeLedger, MergeRequested, PruneOrigins, Installed, Refreshed,
      StoredAsReceived, ContinuesFrom;
    RetainedWhen(catalog, s.facts, t, u.evaluated);
    RetainedError(catalog, s.facts, t, u.evaluated);
    ReadingsAcceptedExactly(catalog, s, t, u);
    if UpdateFacts(catalog, s, u).Ok? {
      RequiredAreThreePhase();
      UpdatedFacts(catalog, s, t, u);
      SatisfiedByPresence(catalog, s.(facts := UpdateFacts(catalog, s, u).value), u.evaluated);
    } else if EvaluateRetained(s.facts, u.evaluated).Ok? &&
              (u.source.observationRef in s.origins ==> s.origins[u.source.observationRef] == u.source) {
      FactsRefusal(catalog, s, t, u);
    }
  }

  lemma RetainedError(catalog: Catalog, facts: Facts, t: Nanos, u: Nanos)
    requires FactsOk(catalog, facts, t)
    ensures EvaluateRetained(facts, u).Err? ==> EvaluateRetained(facts, u).error == InvalidMonotonicTime
  {
    hide EvaluateTemporal, ValidValue, Catalogued, KeyOf;
    assert forall k :: k in facts ==> FactOk(catalog, k, facts[k], t);
  }

  lemma FactsRefusal(catalog: Catalog, s: Asset, t: Nanos, u: Update)
    requires FactsOk(catalog, s.facts, t) && DistinctInputs(u.facts) && EvaluateRetained(s.facts, u.evaluated).Ok?
    requires u.source.observationRef in s.origins ==> s.origins[u.source.observationRef] == u.source
    requires UpdateFacts(catalog, s, u).Err?
    ensures exists i :: FirstRefused(catalog, s, u, i, UpdateFacts(catalog, s, u).error)
  {
    hide FactsOk, EvaluateRetained, ApplyFacts, ApplyFact, Acceptable, DistinctInputs, Installed, StoredAsReceived, ContinuesFrom,
      InputKey;
    var retained, origins := EvaluateRetained(s.facts, u.evaluated).value, s.origins[u.source.observationRef := u.source];
    var applied := ApplyFacts(catalog, retained, origins, u.source, u.evaluated, u.facts);
    if applied.Ok? {
      RetainedOk(catalog, s.facts, t, u.evaluated);
      AppliedFacts(catalog, retained, origins, u.source, u.evaluated, u.facts);
      EvaluatedAgain(catalog, applied.value, u.evaluated);
      assert false;
    } else {
      FirstRefusal(catalog, retained, origins, u.source, u.evaluated, u.facts);
      var i :| 0 <= i < |u.facts| && ApplyFact(catalog, retained, origins, u.source, u.evaluated, u.facts[i]) == Err(applied.error) &&
               forall j :: 0 <= j < i ==> ApplyFact(catalog, retained, origins, u.source, u.evaluated, u.facts[j]).Ok?;
      forall j | 0 <= j < i ensures Acceptable(catalog, retained, origins, u.source, u.evaluated, u.facts[j]) {
        AppliedAsReceived(catalog, retained, origins, u.source, u.evaluated, u.facts[j]);
      }
      assert FirstRefused(catalog, s, u, i, applied.error);
    }
  }

  // ---- exactly which updates are admitted ---------------------------------------------------

  /** No two lines of the report map one fact. */
  ghost predicate MappedOnce(report: seq<Row>)
  {
    forall i, j :: 0 <= i < j < |report| && MappedKey(report[i]).Some? ==> MappedKey(report[i]) != MappedKey(report[j])
  }

  lemma {:induction false} CountsOnce(rows: seq<Row>, k: FactKey)
    ensures CountMapped(rows, k) == 1 <==>
      (exists i :: 0 <= i < |rows| && MappedKey(rows[i]) == Some(k)) &&
      forall i, j :: 0 <= i < j < |rows| && MappedKey(rows[i]) == Some(k) ==> MappedKey(rows[j]) != Some(k)
  {
    hide MappedKey;
    if rows != [] {
      var n := |rows| - 1;
      CountsOnce(rows[..n], k);
      CountFinds(rows[..n], k);
      assert forall i :: 0 <= i < n ==> rows[..n][i] == rows[i];
      assert forall i :: 0 <= i < n ==> rows[i] == rows[..n][i];
      if MappedKey(rows[n]) == Some(k) && exists i :: 0 <= i < n && MappedKey(rows[..n][i]) == Some(k) {
        var i :| 0 <= i < n && MappedKey(rows[..n][i]) == Some(k);
        assert MappedKey(rows[i]) == Some(k);
      }
    }
  }

  /** The lines of a report by what they are for: distinct outputs of this observation, mapping a fact or withholding one. */
  ghost predicate ReportShaped(u: Update)
  {
    (forall i :: 0 <= i < |u.report| ==>
       u.report[i].key.sourceRef == u.source.observationRef &&
       if u.report[i].outcome == Mapped then u.report[i].factID != "" && u.report[i].dimensions.Some?
       else u.report[i].outcome in {Withheld, Unrepresentable} && u.report[i].factID == "" && u.report[i].dimensions.None?) &&
    (forall i, j :: 0 <= i < j < |u.report| ==> u.report[i].key != u.report[j].key)
  }

  ghost predicate RequestShaped(u: Update)
  {
    (forall i :: 0 <= i < |u.requested| ==> ValidDigest(u.requested[i].sourceRef) && ValidDigest(u.requested[i].outputRef)) &&
    (forall i, j :: 0 <= i < j < |u.requested| ==> u.requested[i] != u.requested[j])
  }

  /** The counting accepts exactly the reports that answer every requested output once and map every fact once. */
  lemma AccountingExactly(u: Update)
    requires WithinLimits(u) && DistinctInputs(u.facts)
    ensures AccountingOk(u) <==>
      RequestShaped(u) && ReportShaped(u) && RowKeys(u.report) == Outputs(u.requested) &&
      MappedKeys(u.report) == InputKeys(u.facts) && MappedOnce(u.report)
  {
    hide WithinLimits, DistinctInputs, InputKey, MappedKey, ValidDigest, CountMapped;
    if AccountingOk(u) {
      ReportAnswersTheRequest(u);
      ReportMapsTheInputs(u);
      forall i, j | 0 <= i < j < |u.report| && MappedKey(u.report[i]).Some? ensures MappedKey(u.report[i]) != MappedKey(u.report[j]) {
        if MappedKey(u.report[i]) == MappedKey(u.report[j]) {
          MapsMeansMapped(u.report[i]);
          ReportMapsOnce(u, i, j);
          assert false;
        }
      }
    }
    if RequestShaped(u) && ReportShaped(u) && RowKeys(u.report) == Outputs(u.requested) &&
       MappedKeys(u.report) == InputKeys(u.facts) && MappedOnce(u.report) {
      InputKeysCount(u.facts);
      forall i | 0 <= i < |u.facts| ensures CountMapped(u.report, InputKey(u.facts[i])) == 1 {
        CountsOnce(u.report, InputKey(u.facts[i]));
        assert InputKey(u.facts[i]) in MappedKeys(u.report);
      }
      forall i | 0 <= i < |u.report| ensures u.report[i].key in u.requested {
        assert u.report[i].key in RowKeys(u.report);
      }
    }
  }

  /** The source of an admitted update is a verified one, resolved to the registry reference it names. */
  lemma AdmittedSource(env: Admission, u: Update)
    requires Admit(env, u).None?
    ensures u.source.identity.validity == "terminal_verified" && env.tokens(u.source.identity) && env.assetRef(u.assetRef)
    ensures env.resolve(u.source.identity) == Some(u.source.registryRef)
    ensures forall d :: d in {u.source.registryRef, u.source.observationRef, u.source.shadowRef, u.source.evidenceRef} ==>
      ValidDigest(d)
  {
    hide ValidDigest, AccountingOk, WithinLimits, DistinctInputs;
  }

  lemma OnePartPrints(id: string, d: Dimensions)
    requires |Parts(d)| == 1
    ensures KeyOf(id, d) == id + "|" + OnlyPart(d)
  {}

  /** Where a reading of each dimension may be taken, as its key prints it. */
  ghost predicate Located(kind: DimensionKind, place: string)
  {
    match kind
    case ByScope => place == "scope=total"
    case ByPhase => place in {"phase=L1", "phase=L2", "phase=L3"}
    case ByPhasePair => place in {"phase_pair=L1_L2", "phase_pair=L2_L3", "phase_pair=L3_L1"}
    case ByInput => exists name :: 1 <= |name| <= 64 && place == "input_id=" + name
    case BySensor => exists name :: 1 <= |name| <= 64 && place == "sensor_id=" + name
  }

  lemma PlacesPrint()
    ensures "scope=" + "total" == "scope=total"
    ensures "phase=" + "L1" == "phase=L1" && "phase=" + "L2" == "phase=L2" && "phase=" + "L3" == "phase=L3"
    ensures "phase_pair=" + "L1_L2" == "phase_pair=L1_L2" && "phase_pair=" + "L2_L3" == "phase_pair=L2_L3"
    ensures "phase_pair=" + "L3_L1" == "phase_pair=L3_L1"
  {}

  /** A catalogued candidate is keyed by its id and one place of its fact's dimension, and its value is of the fact's kind:
      an admissible decimal, a symbol of the domain, or distinct symbols of it. */
  lemma CandidatesAreLocated(catalog: Catalog, c: Candidate)
    requires ValidCandidate(catalog, c)
    ensures c.id in catalog.facts && c.unit == catalog.facts[c.id].unit && c.value.kind == catalog.facts[c.id].kind
    ensures exists place :: Located(catalog.facts[c.id].dimension, place) && KeyOf(c.id, c.dimensions) == c.id + "|" + place
    ensures c.value.kind == DecimalKind ==> c.value.decimal.Some? && Valid(c.value.decimal.value)
    ensures c.value.kind == EnumKind ==> c.value.symbol in catalog.facts[c.id].domain && c.value.decimal.None?
    ensures c.value.kind == BitfieldKind ==>
      (forall x :: x in c.value.symbols ==> x in catalog.facts[c.id].domain) && |set x | x in c.value.symbols| == |c.value.symbols|
  {
    OnePartPrints(c.id, c.dimensions);
    PlacesPrint();
    SinglePart(c.dimensions);
    hide KeyOf, Join, Valid;
    assert Located(catalog.facts[c.id].dimension, OnlyPart(c.dimensions)) by { PlaceIs(catalog, catalog.facts[c.id].dimension, c.dimensions); }
    if c.value.kind == BitfieldKind { DistinctSymbols(c.value.symbols); }
  }

  lemma PlaceIs(catalog: Catalog, kind: DimensionKind, d: Dimensions)
    requires ValidDimensions(catalog, kind, d)
    ensures Located(kind, OnlyPart(d))
  {
    SinglePart(d);
    PlacesPrint();
    hide IdentifierChar;
  }

  lemma {:induction false} DistinctSymbols(symbols: seq<string>)
    requires forall i, j :: 0 <= i < j < |symbols| ==> symbols[i] != symbols[j]
    ensures |set x | x in symbols| == |symbols|
  {
    if symbols != [] {
      var n := |symbols| - 1;
      DistinctSymbols(symbols[..n]);
      assert (set x | x in symbols) == (set x | x in symbols[..n]) + {symbols[n]};
    }
  }
}
