// pv/registry.go in its own form: assets updated on a clone, step by step, and stored only when all steps pass.
module PvAssetRegistry {
  import opened Numerals
  import opened PvCounter
  import opened PvFacts
  import opened PvRegistry
  import opened PvInvariant
  import opened PvTheorems
  import opened PvReadings

  predicate KnownPolicies(facts: Facts)
  {
    forall k :: k in facts ==> PolicyByID(facts[k].temporal.policy).Some?
  }

  // The facts when all but the pending ones are refreshed.
  ghost predicate PartlyRefreshed(before: Facts, facts: Facts, pending: set<FactKey>, t: Nanos)
  {
    pending <= before.Keys && facts.Keys == before.Keys &&
    forall k :: k in before ==>
      facts[k] == (if k in pending then before[k] else Refreshed(before[k], t)) &&
      (k !in pending ==> StateOf(before[k], t).Some?)
  }

  lemma AllRefreshed(before: Facts, facts: Facts, t: Nanos)
    requires PartlyRefreshed(before, facts, {}, t)
    ensures EvaluateRetained(before, t) == Ok(facts)
  {
    hide EvaluateTemporal, PolicyByID;
    assert facts == map k | k in before :: Refreshed(before[k], t);
  }

  lemma RefreshFails(before: Facts, k: FactKey, t: Nanos)
    requires k in before && StateOf(before[k], t).None?
    ensures EvaluateRetained(before, t).Err?
    ensures KnownPolicies(before) ==> EvaluateRetained(before, t) == Err(InvalidMonotonicTime)
  {
    hide EvaluateTemporal, PolicyByID;
  }

  lemma PrefixApplies(catalog: Catalog, facts: Facts, origins: map<Digest, Provenance>, source: Provenance,
                      evaluated: Nanos, inputs: seq<FactInput>, i: nat)
    requires i < |inputs| && ApplyFacts(catalog, facts, origins, source, evaluated, inputs[..i]).Ok?
    ensures var before := ApplyFacts(catalog, facts, origins, source, evaluated, inputs[..i]).value;
      var step := ApplyFact(catalog, before, origins, source, evaluated, inputs[i]);
      (step.Err? ==> ApplyFacts(catalog, facts, origins, source, evaluated, inputs) == Err(step.error)) &&
      (step.Ok? ==> ApplyFacts(catalog, facts, origins, source, evaluated, inputs[..i + 1]) ==
                    Ok(before[InputKey(inputs[i]) := step.value]))
  {
    hide ApplyFact, InputKey;
    assert inputs[..i + 1][..i] == inputs[..i];
    var step := ApplyFact(catalog, ApplyFacts(catalog, facts, origins, source, evaluated, inputs[..i]).value, origins, source,
                          evaluated, inputs[i]);
    if step.Err? {
      FailureSticks(catalog, facts, origins, source, evaluated, inputs, i + 1);
    }
  }

  lemma {:induction false} FailureSticks(catalog: Catalog, facts: Facts, origins: map<Digest, Provenance>, source: Provenance,
                                         evaluated: Nanos, inputs: seq<FactInput>, i: nat)
    requires i <= |inputs| && ApplyFacts(catalog, facts, origins, source, evaluated, inputs[..i]).Err?
    ensures ApplyFacts(catalog, facts, origins, source, evaluated, inputs) ==
            ApplyFacts(catalog, facts, origins, source, evaluated, inputs[..i])
  {
    hide ApplyFact, InputKey;
    if i == |inputs| {
      assert inputs[..i] == inputs;
    } else {
      var n := |inputs| - 1;
      assert inputs[..n][..i] == inputs[..i];
      FailureSticks(catalog, facts, origins, source, evaluated, inputs[..n], i);
    }
  }

  lemma Uncatalogued(catalog: Catalog, c: Candidate)
    ensures ValidCandidate(catalog, c) ==> c.id in catalog.facts
  {}

  lemma InstalledAgain(catalog: Catalog, s: Asset, t: Nanos, u: Update, facts: Facts)
    requires FactsOk(catalog, s.facts, t) && DistinctInputs(u.facts) && EvaluateRetained(s.facts, u.evaluated).Ok?
    requires ApplyFacts(catalog, EvaluateRetained(s.facts, u.evaluated).value, s.origins[u.source.observationRef := u.source],
                        u.source, u.evaluated, u.facts) == Ok(facts)
    ensures EvaluateRetained(facts, u.evaluated) == Ok(facts)
  {
    hide ApplyFacts, EvaluateRetained, FactsOk, DistinctInputs, InputKeys;
    RetainedOk(catalog, s.facts, t, u.evaluated);
    AppliedFacts(catalog, EvaluateRetained(s.facts, u.evaluated).value, s.origins[u.source.observationRef := u.source],
                 u.source, u.evaluated, u.facts);
    EvaluatedAgain(catalog, facts, u.evaluated);
  }

  /** What snapshotLocked shows a caller of an asset. */
  datatype Snapshot = Snapshot(assetRef: string, evaluated: Nanos, asset: Asset, capability: CapabilityOutcome)

  function Shown(assetRef: string, asset: Asset, evaluated: Nanos): Snapshot
  {
    Snapshot(assetRef, evaluated, asset, if ThreePhaseSatisfied(asset.facts) then Satisfied else NotSatisfied)
  }

  /** A snapshot calls the capability satisfied if and only if the asset has every three-phase fact, whatever has become
      of the facts' age since. */
  lemma ShownCapability(catalog: Catalog, s: Asset, last: Nanos, assetRef: string, evaluated: Nanos)
    requires BarFree(catalog) && Stored(catalog, s, last) && PvRegistry.Snapshot(s, evaluated).Ok?
    ensures Shown(assetRef, PvRegistry.Snapshot(s, evaluated).value, evaluated).capability == Satisfied <==>
            ThreePhaseFacts() <= s.facts.Keys
  {
    hide RequiredKeys, ThreePhaseFacts, ThreePhaseSatisfied, BarFree;
    RequiredAreThreePhase();
    RetainedOk(catalog, s.facts, last, evaluated);
    SatisfiedByPresence(catalog, PvRegistry.Snapshot(s, evaluated).value, evaluated);
    forall k ensures k in PvRegistry.Snapshot(s, evaluated).value.facts <==> k in s.facts {
      SnapshotShowsAges(s, evaluated, k);
    }
  }

  // ---- the mutable state of one asset ---------------------------------------------------

  class AssetState {
    var generation: nat
    var source: Provenance
    var facts: Facts
    var origins: map<Digest, Provenance>
    var requested: set<RowKey>
    var projections: map<RowKey, Row>
    var sourceTime: SourceTime

    function View(): Asset
      reads this
    {
      Asset(generation, source, facts, origins, requested, projections, sourceTime)
    }

    constructor ()
      ensures View() == NEW_ASSET
    {
      generation, source, facts, origins := 0, NO_PROVENANCE, map[], map[];
      requested, projections, sourceTime := {}, map[], TimeUnavailable;
    }

    /** cloneAssetState */
    constructor Clone(other: AssetState)
      ensures View() == other.View()
    {
      generation, source, facts, origins := other.generation, other.source, other.facts, other.origins;
      requested, projections, sourceTime := other.requested, other.projections, other.sourceTime;
    }

    /** evaluateRetainedFacts: the facts in any order, stopping at the first that cannot be evaluated. */
    method EvaluateRetainedFacts(t: Nanos) returns (error: Option<Error>)
      modifies `facts
      ensures error.None? ==> EvaluateRetained(old(facts), t) == Ok(facts)
      ensures error.Some? ==> EvaluateRetained(old(facts), t).Err?
      ensures error.Some? && KnownPolicies(old(facts)) ==> EvaluateRetained(old(facts), t) == Err(error.value)
    {
      hide EvaluateTemporal, PolicyByID, EvaluateRetained;
      ghost var before := facts;
      var pending := facts.Keys;
      while pending != {}
        invariant PartlyRefreshed(before, facts, pending, t)
        decreases pending
      {
        var k :| k in pending;
        var fact := facts[k];
        if PolicyByID(fact.temporal.policy).None? {
          RefreshFails(before, k, t);
          return Some(InvalidFact);
        }
        var state := EvaluateTemporal(PolicyByID(fact.temporal.policy).value, fact.temporal.receipt, t);
        if state.None? {
          RefreshFails(before, k, t);
          return Some(InvalidMonotonicTime);
        }
        facts := facts[k := fact.(availability := state.value.availability, freshness := state.value.freshness)];
        pending := pending - {k};
      }
      AllRefreshed(before, facts, t);
      return None;
    }

    /** The loop of Apply over the facts of an update. */
    method InstallFacts(catalog: Catalog, u: Update) returns (error: Option<Error>)
      requires DistinctInputs(u.facts)
      modifies `facts
      ensures error.None? ==> ApplyFacts(catalog, old(facts), origins, u.source, u.evaluated, u.facts) == Ok(facts)
      ensures error.Some? ==> ApplyFacts(catalog, old(facts), origins, u.source, u.evaluated, u.facts) == Err(error.value)
    {
      hide ValidCandidate, EvaluateTemporal, PolicyByID, EvaluateCounter, ApplyFacts, SameSource;
      ghost var before := facts;
      var seen: set<FactKey> := {};
      assert u.facts[..0] == [];
      NothingApplied(catalog, facts, origins, u.source, u.evaluated);
      var i := 0;
      while i < |u.facts|
        invariant 0 <= i <= |u.facts|
        invariant forall k :: k in seen ==> exists j :: 0 <= j < i && k == InputKey(u.facts[j])
        invariant ApplyFacts(catalog, before, origins, u.source, u.evaluated, u.facts[..i]) == Ok(facts)
      {
        var input := u.facts[i];
        PrefixApplies(catalog, before, origins, u.source, u.evaluated, u.facts, i);
        Uncatalogued(catalog, input.candidate);
        if input.candidate.id !in catalog.facts || !ValidCandidate(catalog, input.candidate) ||
           catalog.facts[input.candidate.id].policy != input.policy {
          return Some(InvalidFact);
        }
        var definition := catalog.facts[input.candidate.id];
        if input.quality != Good && input.quality != Suspect && input.quality != Bad {
          return Some(InvalidFact);
        }
        if PolicyByID(input.policy).None? {
          return Some(InvalidFact);
        }
        var temporal := EvaluateTemporal(PolicyByID(input.policy).value, input.receipt, u.evaluated);
        if temporal.None? {
          return Some(InvalidMonotonicTime);
        }
        var key := InputKey(input);
        if key in seen {
          assert false;
          return Some(InvalidFact);
        }
        seen := seen + {key};
        var continuity: Option<Continuity> := None;
        if definition.accumulator {
          if input.candidate.value.decimal.None? {
            return Some(InvalidFact);
          }
          var result := Continuity(Discontinuity, None, None, "");
          var previous: Option<Decimal> := None;
          if key in facts {
            previous := facts[key].value.decimal;
          }
          if key !in facts ||
             (facts[key].availability == Available && SameSource(OriginAt(origins, facts[key].originRef), u.source))
          {
            var evaluation := EvaluateCounter(previous, input.candidate.value.decimal.value, input.counter);
            if evaluation.None? {
              return Some(InvalidCounter);
            }
            result := evaluation.value;
          }
          continuity := Some(result);
        } else if input.counter != NO_EVIDENCE {
          return Some(InvalidCounter);
        }
        var state := temporal.value;
        facts := facts[key := Fact(
          input.candidate.id, input.candidate.dimensions, input.candidate.value, input.candidate.unit, input.quality,
          state.availability, state.freshness, state.temporal, u.source.observationRef, continuity)];
        i := i + 1;
      }
      assert u.facts[..i] == u.facts;
      return None;
    }

    /** The facts of an update over the retained ones. */
    method UpdateFacts(catalog: Catalog, u: Update, ghost t: Nanos) returns (error: Option<Error>)
      requires DistinctInputs(u.facts) && FactsOk(catalog, facts, t) && KnownPolicies(facts)
      modifies this
      ensures error.None? ==> PvRegistry.UpdateFacts(catalog, old(View()), u) == Ok(facts)
      ensures error.None? ==>
        View() == old(View()).(source := u.source, sourceTime := u.sourceTime, facts := facts,
                               origins := old(origins)[u.source.observationRef := u.source])
      ensures error.Some? ==> PvRegistry.UpdateFacts(catalog, old(View()), u) == Err(error.value)
    {
      hide DistinctInputs, EvaluateRetained, ApplyFacts, KnownPolicies, FactsOk;
      error := EvaluateRetainedFacts(u.evaluated);
      if error.Some? {
        return;
      }
      source, sourceTime := u.source, u.sourceTime;
      if u.source.observationRef in origins && origins[u.source.observationRef] != u.source {
        return Some(SourceNotAdmitted);
      }
      origins := origins[u.source.observationRef := u.source];
      error := InstallFacts(catalog, u);
      if error.Some? {
        return;
      }
      InstalledAgain(catalog, old(View()), t, u, facts);
      error := EvaluateRetainedFacts(u.evaluated);
    }

    /** The critical section of Apply, on a clone. */
    method Transact(catalog: Catalog, u: Update, ghost t: Nanos) returns (error: Option<Error>)
      requires DistinctInputs(u.facts) && FactsOk(catalog, facts, t) && KnownPolicies(facts)
      modifies this
      ensures error.None? ==> PvRegistry.Transact(catalog, old(View()), u) == Ok(View())
      ensures error.Some? ==> PvRegistry.Transact(catalog, old(View()), u) == Err(error.value)
    {
      hide DistinctInputs, EvaluateRetained, ApplyFacts, KnownPolicies, FactsOk, PvRegistry.UpdateFacts, ThreePhaseSatisfied,
        MergeLedger, MergeRequested, PruneOrigins, InputKeys;
      error := UpdateFacts(catalog, u, t);
      if error.Some? {
        return;
      }
      var outcome := if ThreePhaseSatisfied(facts) then Satisfied else NotSatisfied;
      if u.capabilityID != CAPABILITY_ID || u.capability != outcome {
        return Some(InvalidCapability);
      }
      MergeAccounting(u);
      Prune();
      generation := generation + 1;
      assert View() == Committed(old(View()), u, facts);
      if |facts| > 256 || |origins| > 256 || |requested| > 512 || |projections| > 512 {
        return Some(InvalidProjection);
      }
    }

    /** mergeAccounting */
    method MergeAccounting(u: Update)
      modifies `projections, `requested
      ensures projections == MergeLedger(old(projections), InputKeys(u.facts), u.report)
      ensures requested == MergeRequested(old(requested), old(projections), InputKeys(u.facts), u.requested)
    {
      hide InputKey, KeyOf;
      var updated := CollectKeys(u.facts);
      ghost var ledger := projections;
      ghost var outputs := requested;
      var pending := projections.Keys;
      while pending != {}
        invariant pending <= ledger.Keys
        invariant projections == map p | p in ledger && (p in pending || !Dropped(ledger[p], updated)) :: ledger[p]
        invariant requested == set p | p in outputs && !(p in ledger && p !in pending && Dropped(ledger[p], updated))
        decreases pending
      {
        var p :| p in pending;
        var projection := projections[p];
        var remove := projection.outcome != Mapped;
        if projection.dimensions.Some? {
          remove := KeyOf(projection.factID, projection.dimensions.value) in updated;
        }
        if remove {
          projections := projections - {p};
          requested := requested - {p};
        }
        pending := pending - {p};
      }
      assert projections == KeptRows(ledger, updated);
      AddRequested(u);
      AddProjections(u);
    }

    method AddRequested(u: Update)
      modifies `requested
      ensures requested == old(requested) + Outputs(u.requested)
    {
      var i := 0;
      while i < |u.requested|
        invariant 0 <= i <= |u.requested|
        invariant requested == old(requested) + set j | 0 <= j < i :: u.requested[j]
      {
        requested := requested + {u.requested[i]};
        i := i + 1;
      }
    }

    method AddProjections(u: Update)
      modifies `projections
      ensures projections == AddRows(old(projections), u.report)
    {
      var i := 0;
      while i < |u.report|
        invariant 0 <= i <= |u.report|
        invariant projections == AddRows(old(projections), u.report[..i])
      {
        projections := projections[u.report[i].key := u.report[i]];
        assert u.report[..i + 1][..i] == u.report[..i];
        i := i + 1;
      }
      assert u.report[..i] == u.report;
    }

    /** pruneOrigins */
    method Prune()
      modifies `origins
      ensures origins == PruneOrigins(old(origins), source, facts)
    {
      var referenced := {source.observationRef};
      var keys := facts.Keys;
      while keys != {}
        invariant keys <= facts.Keys
        invariant referenced == {source.observationRef} + set k | k in facts && k !in keys :: facts[k].originRef
        decreases keys
      {
        var k :| k in keys;
        referenced := referenced + {facts[k].originRef};
        keys := keys - {k};
      }
      assert referenced == Referenced(source, facts);
      var pending := origins.Keys;
      while pending != {}
        invariant pending <= old(origins).Keys
        invariant origins == map d | d in old(origins) && (d in pending || d in referenced) :: old(origins)[d]
        decreases pending
      {
        var d :| d in pending;
        if d !in referenced {
          origins := origins - {d};
        }
        pending := pending - {d};
      }
    }
  }

  lemma NothingApplied(catalog: Catalog, facts: Facts, origins: map<Digest, Provenance>, source: Provenance, evaluated: Nanos)
    ensures ApplyFacts(catalog, facts, origins, source, evaluated, []) == Ok(facts)
  {}

  method CollectKeys(inputs: seq<FactInput>) returns (keys: set<FactKey>)
    ensures keys == InputKeys(inputs)
  {
    hide InputKey;
    keys := {};
    var i := 0;
    while i < |inputs|
      invariant 0 <= i <= |inputs|
      invariant keys == set j | 0 <= j < i :: InputKey(inputs[j])
    {
      keys := keys + {InputKey(inputs[i])};
      i := i + 1;
    }
  }

  // ---- admission of an update -----------------------------------------------------------------

  /** duplicateFactInputs */
  method HasDuplicates(inputs: seq<FactInput>) returns (found: bool)
    ensures found <==> !DistinctInputs(inputs)
  {
    hide InputKey;
    var seen: set<FactKey> := {};
    var i := 0;
    while i < |inputs|
      invariant 0 <= i <= |inputs|
      invariant seen == set j | 0 <= j < i :: InputKey(inputs[j])
      invariant DistinctInputs(inputs[..i])
    {
      if InputKey(inputs[i]) in seen {
        return true;
      }
      seen := seen + {InputKey(inputs[i])};
      i := i + 1;
    }
    assert inputs[..i] == inputs;
    return false;
  }

  ghost predicate CountedUpTo(rows: seq<Row>, i: nat, counts: map<FactKey, nat>)
    requires i <= |rows|
  {
    counts.Keys == MappedKeys(rows[..i]) && forall k :: k in counts ==> counts[k] == CountMapped(rows[..i], k)
  }

  lemma CountOne(rows: seq<Row>, i: nat, counts: map<FactKey, nat>)
    requires i < |rows| && CountedUpTo(rows, i, counts)
    ensures MappedKey(rows[i]).None? ==> CountedUpTo(rows, i + 1, counts)
    ensures MappedKey(rows[i]).Some? ==>
      var k := MappedKey(rows[i]).value;
      CountedUpTo(rows, i + 1, counts[k := (if k in counts then counts[k] else 0) + 1])
  {
    hide MappedKey;
    assert rows[..i + 1][..i] == rows[..i];
    assert MappedKeys(rows[..i + 1]) == MappedKeys(rows[..i]) + (if MappedKey(rows[i]).Some? then {MappedKey(rows[i]).value} else {}) by {
      forall k | k in MappedKeys(rows[..i]) ensures k in MappedKeys(rows[..i + 1]) {
        var j :| 0 <= j < i && MappedKey(rows[..i][j]) == Some(k);
        assert rows[..i + 1][j] == rows[..i][j];
      }
      forall k | k in MappedKeys(rows[..i + 1]) && MappedKey(rows[i]) != Some(k) ensures k in MappedKeys(rows[..i]) {
        var j :| 0 <= j < i + 1 && MappedKey(rows[..i + 1][j]) == Some(k);
        assert rows[..i][j] == rows[..i + 1][j];
      }
      if MappedKey(rows[i]).Some? { assert rows[..i + 1][i] == rows[i]; }
    }
    forall k | k !in counts ensures CountMapped(rows[..i], k) == 0 {
      CountFinds(rows[..i], k);
      forall j | 0 <= j < i ensures MappedKey(rows[..i][j]) != Some(k) {
        if MappedKey(rows[..i][j]) == Some(k) { MappedKeysContain(rows[..i], j, k); }
      }
    }
  }

  lemma UncountedIsZero(rows: seq<Row>, counts: map<FactKey, nat>, k: FactKey)
    requires CountedUpTo(rows, |rows|, counts) && k !in counts
    ensures CountMapped(rows, k) == 0
  {
    hide MappedKey;
    assert rows[..|rows|] == rows;
    CountFinds(rows, k);
    forall j | 0 <= j < |rows| ensures MappedKey(rows[j]) != Some(k) {
      if MappedKey(rows[j]) == Some(k) { MappedKeysContain(rows, j, k); }
    }
  }

  ghost predicate RequestedOk(u: Update, n: nat)
    requires n <= |u.requested|
  {
    (forall i :: 0 <= i < n ==> ValidDigest(u.requested[i].sourceRef) && ValidDigest(u.requested[i].outputRef)) &&
    (forall i, j :: 0 <= i < j < n ==> u.requested[i] != u.requested[j])
  }

  ghost predicate ReportOk(u: Update, n: nat)
    requires n <= |u.report|
  {
    (forall i :: 0 <= i < n ==>
       u.report[i].key in u.requested && u.report[i].key.sourceRef == u.source.observationRef && WellShaped(u.report[i])) &&
    (forall i, j :: 0 <= i < j < n ==> u.report[i].key != u.report[j].key)
  }

  /** The requested outputs of an update as a set, or None when one is malformed or repeated. */
  method CheckRequested(u: Update) returns (requested: Option<set<RowKey>>)
    ensures requested.Some? <==> RequestedOk(u, |u.requested|)
    ensures requested.Some? ==> forall p :: p in requested.value <==> p in u.requested
  {
    hide ValidDigest;
    var seen: set<RowKey> := {};
    var i := 0;
    while i < |u.requested|
      invariant 0 <= i <= |u.requested|
      invariant forall p :: p in seen <==> p in u.requested[..i]
      invariant RequestedOk(u, i)
    {
      var key := u.requested[i];
      if !ValidDigest(key.sourceRef) || !ValidDigest(key.outputRef) {
        return None;
      }
      if key in seen {
        return None;
      }
      seen := seen + {key};
      i := i + 1;
    }
    assert u.requested[..i] == u.requested;
    return Some(seen);
  }

  /** How often each fact is mapped by a well-formed report, or None for a malformed one. */
  method CheckReport(u: Update, requested: set<RowKey>) returns (mapped: Option<map<FactKey, nat>>)
    requires forall p :: p in requested <==> p in u.requested
    ensures mapped.Some? <==> ReportOk(u, |u.report|)
    ensures mapped.Some? ==> CountedUpTo(u.report, |u.report|, mapped.value)
  {
    hide KeyOf, CountedUpTo;
    var counts: map<FactKey, nat> := map[];
    assert CountedUpTo(u.report, 0, counts) by { NothingCounted(u.report); }
    var seen: set<RowKey> := {};
    var i := 0;
    while i < |u.report|
      invariant 0 <= i <= |u.report|
      invariant forall p :: p in seen <==> exists j :: 0 <= j < i && u.report[j].key == p
      invariant ReportOk(u, i)
      invariant CountedUpTo(u.report, i, counts)
    {
      var projection := u.report[i];
      if projection.key !in requested || projection.key.sourceRef != u.source.observationRef {
        return None;
      }
      if projection.key in seen {
        return None;
      }
      seen := seen + {projection.key};
      CountOne(u.report, i, counts);
      match projection.outcome {
        case Mapped =>
          if projection.factID == "" || projection.dimensions.None? {
            return None;
          }
          var k := KeyOf(projection.factID, projection.dimensions.value);
          counts := counts[k := (if k in counts then counts[k] else 0) + 1];
        case Withheld =>
          if projection.factID != "" || projection.dimensions.Some? {
            return None;
          }
        case Unrepresentable =>
          if projection.factID != "" || projection.dimensions.Some? {
            return None;
          }
        case OtherOutcome =>
          return None;
      }
      i := i + 1;
    }
    return Some(counts);
  }

  lemma NothingCounted(rows: seq<Row>)
    ensures CountedUpTo(rows, 0, map[])
  {}

  ghost predicate FactsCounted(u: Update, n: nat)
    requires n <= |u.facts|
  {
    forall i :: 0 <= i < n ==> CountMapped(u.report, InputKey(u.facts[i])) == 1
  }

  lemma AccountingInParts(u: Update, counts: map<FactKey, nat>)
    requires CountedUpTo(u.report, |u.report|, counts)
    ensures AccountingOk(u) <==>
      RequestedOk(u, |u.requested|) && ReportOk(u, |u.report|) && FactsCounted(u, |u.facts|) && |counts.Keys| == |u.facts|
  {
    hide InputKey, WellShaped, ValidDigest, CountMapped, MappedKey;
    assert u.report[..|u.report|] == u.report;
  }

  lemma AccountingParts(u: Update)
    requires AccountingOk(u)
    ensures RequestedOk(u, |u.requested|) && ReportOk(u, |u.report|) && FactsCounted(u, |u.facts|)
  {
    hide InputKey, WellShaped, ValidDigest, CountMapped, MappedKey, MappedKeys;
  }

  lemma CountedExactly(u: Update, counts: map<FactKey, nat>, k: FactKey)
    requires CountedUpTo(u.report, |u.report|, counts)
    ensures CountMapped(u.report, k) == if k in counts then counts[k] else 0
  {
    hide MappedKey, CountMapped;
    assert u.report[..|u.report|] == u.report;
    if k !in counts { UncountedIsZero(u.report, counts, k); }
  }

  /** validateUpdateAccounting */
  method ValidateAccounting(u: Update) returns (ok: bool)
    ensures ok <==> AccountingOk(u)
  {
    hide InputKey, AccountingOk, RequestedOk, ReportOk, CountedUpTo, CountMapped;
    var requested := CheckRequested(u);
    if requested.None? {
      if AccountingOk(u) { AccountingParts(u); }
      return false;
    }
    var mapped := CheckReport(u, requested.value);
    if mapped.None? {
      if AccountingOk(u) { AccountingParts(u); }
      return false;
    }
    var counts := mapped.value;
    AccountingInParts(u, counts);
    var i := 0;
    while i < |u.facts|
      invariant 0 <= i <= |u.facts|
      invariant FactsCounted(u, i)
    {
      var k := InputKey(u.facts[i]);
      CountedExactly(u, counts, k);
      if (if k in counts then counts[k] else 0) != 1 {
        return false;
      }
      i := i + 1;
    }
    return |counts.Keys| == |u.facts|;
  }

  // ---- the registry ---------------------------------------------------------------------------------

  lemma StoredPolicies(catalog: Catalog, s: Asset, t: Nanos)
    requires FactsOk(catalog, s.facts, t)
    ensures KnownPolicies(s.facts)
  {
    hide ValidValue, Catalogued, KeyOf, EvaluateTemporal, PolicyByID;
    forall k | k in s.facts ensures PolicyByID(s.facts[k].temporal.policy).Some? {
      assert FactOk(catalog, k, s.facts[k], t);
    }
  }

  class Registry {
    const env: Admission
    const catalog: Catalog
    var assets: map<string, AssetState>

    // The time each asset was last updated.
    ghost var last: map<string, Nanos>

    ghost function Contents(): map<string, Asset>
      reads this, assets.Values
    {
      map ref | ref in assets :: assets[ref].View()
    }

    ghost function AssetAt(ref: string): Asset
      reads this, assets.Values
    {
      if ref in assets then assets[ref].View() else NEW_ASSET
    }

    ghost predicate Valid()
      reads this, assets.Values
    {
      BarFree(catalog) && last.Keys == assets.Keys &&
      forall ref :: ref in assets ==> Stored(catalog, assets[ref].View(), last[ref])
    }

    constructor (env: Admission, catalog: Catalog)
      requires BarFree(catalog)
      ensures Valid() && Contents() == map[] && this.env == env && this.catalog == catalog
    {
      this.env, this.catalog := env, catalog;
      assets, last := map[], map[];
    }

    lemma AssetLedgered(ref: string)
      requires Valid()
      ensures var t := if ref in assets then last[ref] else 0;
        Ledgered(catalog, AssetAt(ref), t) && FactsOk(catalog, AssetAt(ref).facts, t) && KnownPolicies(AssetAt(ref).facts)
    {
      hide Ledgered;
      NewAssetLedgered(catalog, 0);
      if ref in assets { StoredIsLedgered(catalog, assets[ref].View(), last[ref]); }
      LedgeredFacts(catalog, AssetAt(ref), if ref in assets then last[ref] else 0);
    }

    /** Apply: all of the update or, on any error, nothing. */
    method Apply(u: Update) returns (r: Result<Snapshot>)
      requires Valid()
      modifies this
      ensures Valid()
      ensures var outcome := PvRegistry.Apply(env, catalog, old(AssetAt(u.assetRef)), u);
        match outcome
        case Ok(asset) =>
          r == Ok(Shown(u.assetRef, asset, u.evaluated)) && Contents() == old(Contents())[u.assetRef := asset] &&
          last == old(last)[u.assetRef := u.evaluated]
        case Err(error) => r == Err(error) && assets == old(assets) && Contents() == old(Contents())
    {
      hide DistinctInputs, AccountingOk, WithinLimits, ValidProvenance, EvaluateRetained, ApplyFacts, ThreePhaseSatisfied,
        PvRegistry.Transact, Stored, Ledgered, KnownPolicies, BarFree, InputKeys, FactsOk;
      if !env.assetRef(u.assetRef) {
        return Err(InvalidFact);
      }
      if !ValidProvenance(env, u.source) {
        return Err(SourceNotAdmitted);
      }
      if !WithinLimits(u) {
        return Err(InvalidProjection);
      }
      var duplicates := HasDuplicates(u.facts);
      if duplicates {
        return Err(InvalidFact);
      }
      var accounted := ValidateAccounting(u);
      if !accounted {
        return Err(InvalidProjection);
      }
      if u.evaluated < 0 {
        return Err(InvalidMonotonicTime);
      }
      assert Admit(env, u).None?;
      r := ApplyAdmitted(u);
    }

    method CloneAsset(ref: string) returns (state: AssetState)
      ensures fresh(state) && state.View() == AssetAt(ref)
    {
      if ref in assets {
        state := new AssetState.Clone(assets[ref]);
      } else {
        state := new AssetState();
      }
    }

    method Store(ref: string, state: AssetState, ghost t: Nanos)
      requires Valid() && Stored(catalog, state.View(), t)
      modifies this
      ensures Valid() && Contents() == old(Contents())[ref := state.View()]
      ensures last == old(last)[ref := t] && assets == old(assets)[ref := state]
    {
      hide Stored;
      assets := assets[ref := state];
      last := last[ref := t];
    }

    // The critical section of Apply.
    method ApplyAdmitted(u: Update) returns (r: Result<Snapshot>)
      requires Valid() && Admit(env, u).None?
      modifies this
      ensures Valid()
      ensures var outcome := PvRegistry.Apply(env, catalog, old(AssetAt(u.assetRef)), u);
        match outcome
        case Ok(asset) =>
          r == Ok(Shown(u.assetRef, asset, u.evaluated)) && Contents() == old(Contents())[u.assetRef := asset] &&
          last == old(last)[u.assetRef := u.evaluated]
        case Err(error) => r == Err(error) && assets == old(assets) && Contents() == old(Contents())
    {
      hide DistinctInputs, ThreePhaseSatisfied, PvRegistry.Transact, Stored, Ledgered, KnownPolicies, BarFree, FactsOk, Admit,
        RowsOk, MapsOnce, OriginsNamed, OriginsCover, Shown, PvRegistry.Apply, Contents, AssetAt;
      ApplyIsTransact(env, catalog, AssetAt(u.assetRef), u);
      ghost var s := AssetAt(u.assetRef);
      ghost var t: Nanos := if u.assetRef in assets then last[u.assetRef] else 0;
      AssetLedgered(u.assetRef);
      AdmittedDistinct(env, u);
      var state := CloneAsset(u.assetRef);
      var error := state.Transact(catalog, u, t);
      if error.Some? {
        return Err(error.value);
      }
      ApplyKeeps(env, catalog, s, t, u);
      Store(u.assetRef, state, u.evaluated);
      r := Ok(Shown(u.assetRef, state.View(), u.evaluated));
    }

    /** Snapshot: changes nothing, and from the last update on never fails. */
    method Snapshot(assetRef: string, evaluated: Nanos) returns (r: Result<Snapshot>)
      requires Valid()
      ensures r == if evaluated < 0 then Err(InvalidMonotonicTime)
                   else if assetRef !in assets then Err(AssetNotFound)
                   else match PvRegistry.Snapshot(assets[assetRef].View(), evaluated)
                        case Err(error) => Err(error)
                        case Ok(asset) => Ok(Shown(assetRef, asset, evaluated))
      ensures assetRef in assets && 0 <= last[assetRef] <= evaluated ==> r.Ok?
    {
      hide EvaluateRetained, ThreePhaseSatisfied, PruneOrigins, Stored, KnownPolicies, Ledgered, FactsOk, BarFree, Shown;
      if evaluated < 0 {
        return Err(InvalidMonotonicTime);
      }
      if assetRef !in assets {
        return Err(AssetNotFound);
      }
      AssetLedgered(assetRef);
      if 0 <= last[assetRef] <= evaluated {
        SnapshotsNeverFail(catalog, assets[assetRef].View(), last[assetRef], evaluated);
      }
      var state := new AssetState.Clone(assets[assetRef]);
      var error := state.EvaluateRetainedFacts(evaluated);
      if error.Some? {
        return Err(error.value);
      }
      state.Prune();
      r := Ok(Shown(assetRef, state.View(), evaluated));
    }
  }

  lemma ApplyIsTransact(env: Admission, catalog: Catalog, s: Asset, u: Update)
    requires Admit(env, u).None?
    ensures PvRegistry.Apply(env, catalog, s, u) == PvRegistry.Transact(catalog, s, u)
  {
    hide Admit, PvRegistry.Transact;
  }

  lemma AdmittedDistinct(env: Admission, u: Update)
    requires Admit(env, u).None?
    ensures DistinctInputs(u.facts)
  {
    hide DistinctInputs, AccountingOk, WithinLimits, ValidProvenance;
  }

  lemma LedgeredFacts(catalog: Catalog, s: Asset, t: Nanos)
    requires Ledgered(catalog, s, t)
    ensures FactsOk(catalog, s.facts, t) && KnownPolicies(s.facts)
  {
    StoredPolicies(catalog, s, t);
  }
}
