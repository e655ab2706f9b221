// What holds over every run of the photovoltaic registry.
module PvTheorems {
  import opened Numerals
  import opened PvCounter
  import opened PvFacts
  import opened PvRegistry
  import opened PvInvariant

  // ---- runs -------------------------------------------------------------------------

  /** An asset with the time of its last accepted update. */
  datatype History = History(asset: Asset, last: Nanos)

  function Advance(env: Admission, catalog: Catalog, h: History, u: Update): History
  {
    match Apply(env, catalog, h.asset, u)
    case Err(_) => h
    case Ok(s) => History(s, u.evaluated)
  }

  function Run(env: Admission, catalog: Catalog, updates: seq<Update>): History
  {
    if updates == [] then History(NEW_ASSET, 0)
    else Advance(env, catalog, Run(env, catalog, updates[..|updates| - 1]), updates[|updates| - 1])
  }

  lemma NewAssetLedgered(catalog: Catalog, t: Nanos)
    ensures Ledgered(catalog, NEW_ASSET, t)
  {}

  /** Whatever updates arrive, the asset is new or well formed at its last accepted time. */
  lemma {:induction false} RunsStore(env: Admission, catalog: Catalog, updates: seq<Update>)
    requires BarFree(catalog)
    ensures var h := Run(env, catalog, updates);
      Ledgered(catalog, h.asset, h.last) && (h.asset == NEW_ASSET || Stored(catalog, h.asset, h.last))
  {
    hide Apply, Ledgered, BarFree;
    if updates == [] {
      NewAssetLedgered(catalog, 0);
    } else {
      var h := Run(env, catalog, updates[..|updates| - 1]);
      var u := updates[|updates| - 1];
      RunsStore(env, catalog, updates[..|updates| - 1]);
      if Apply(env, catalog, h.asset, u).Ok? {
        ApplyKeeps(env, catalog, h.asset, h.last, u);
        assert Stored(catalog, Apply(env, catalog, h.asset, u).value, u.evaluated);
        StoredIsLedgered(catalog, Apply(env, catalog, h.asset, u).value, u.evaluated);
      }
    }
  }

  lemma StoredIsLedgered(catalog: Catalog, s: Asset, t: Nanos)
    requires Stored(catalog, s, t)
    ensures Ledgered(catalog, s, t)
  {}

  lemma Accepted(env: Admission, catalog: Catalog, s: Asset, u: Update)
    requires Apply(env, catalog, s, u).Ok?
    ensures Admit(env, u).None? && DistinctInputs(u.facts) && AccountingOk(u) && WithinLimits(u)
    ensures UpdateFacts(catalog, s, u).Ok?
    ensures Apply(env, catalog, s, u).value == Committed(s, u, UpdateFacts(catalog, s, u).value)
    ensures u.source.observationRef in s.origins ==> s.origins[u.source.observationRef] == u.source
    ensures u.capability == if ThreePhaseSatisfied(UpdateFacts(catalog, s, u).value) then Satisfied else NotSatisfied
  {
    hide DistinctInputs, AccountingOk, WithinLimits, ValidProvenance, EvaluateRetained, ApplyFacts, ThreePhaseSatisfied,
      PruneOrigins, MergeLedger, MergeRequested;
  }

  // ---- every fact keeps its mapped row -------------------------------------------------

  ghost predicate EveryFactMapped(s: Asset)
  {
    forall k :: k in s.facts ==> HasRow(s.ledger, k)
  }

  /** The report answers, under the same reference and output, a line that maps a fact it does not update. */
  ghost predicate ReusesLine(s: Asset, u: Update)
  {
    exists i :: 0 <= i < |u.report| && u.report[i].key in s.ledger &&
                MappedKey(s.ledger[u.report[i].key]).Some? &&
                MappedKey(s.ledger[u.report[i].key]).value !in InputKeys(u.facts)
  }

  ghost predicate RowSurvives(s: Asset, u: Update, k: FactKey)
  {
    exists p :: p in s.ledger && MappedKey(s.ledger[p]) == Some(k) && p !in RowKeys(u.report)
  }

  lemma InputHasRow(s: Asset, u: Update, k: FactKey)
    requires DistinctInputs(u.facts) && AccountingOk(u) && k in InputKeys(u.facts)
    ensures HasRow(MergeLedger(s.ledger, InputKeys(u.facts), u.report), k)
  {
    hide AddRows, KeptRows, InputKeys, MappedKey, WellShaped, ValidDigest, CountMapped, DistinctInputs;
    ReportMapsTheInputs(u);
    var i :| 0 <= i < |u.report| && MappedKey(u.report[i]) == Some(k);
    AddedRows(KeptRows(s.ledger, InputKeys(u.facts)), u.report);
    var p := u.report[i].key;
    assert MergeLedger(s.ledger, InputKeys(u.facts), u.report)[p] == u.report[i];
    assert p in RowKeys(u.report);
  }

  lemma NotDropped(s: Asset, p: RowKey, updated: set<FactKey>)
    requires RowsOk(s.facts, s.ledger) && p in s.ledger
    ensures !Dropped(s.ledger[p], updated) <==> MappedKey(s.ledger[p]).Some? && MappedKey(s.ledger[p]).value !in updated
  {
    assert RowOk(s.facts, p, s.ledger[p]);
  }

  /** Which facts have a mapped row after an update: the updated ones, and those whose old row was not answered anew. */
  lemma RowsAfter(s: Asset, u: Update, k: FactKey)
    requires RowsOk(s.facts, s.ledger) && DistinctInputs(u.facts) && AccountingOk(u)
    ensures HasRow(MergeLedger(s.ledger, InputKeys(u.facts), u.report), k) <==>
            k in InputKeys(u.facts) || RowSurvives(s, u, k)
  {
    hide InputKeys, AccountingOk, MergeLedger, RowsOk, Dropped, DistinctInputs, RowKeys, MappedKey;
    var merged := MergeLedger(s.ledger, InputKeys(u.facts), u.report);
    if k in InputKeys(u.facts) {
      InputHasRow(s, u, k);
    } else {
      if HasRow(merged, k) {
        var p :| p in merged && MappedKey(merged[p]) == Some(k);
        MergedRow(s, u, p);
        if p in RowKeys(u.report) {
          var i :| 0 <= i < |u.report| && u.report[i].key == p && merged[p] == u.report[i];
          MapsMeansMapped(u.report[i]);
          ReportRowMaps(u, i);
        }
      }
      if RowSurvives(s, u, k) {
        var p :| p in s.ledger && MappedKey(s.ledger[p]) == Some(k) && p !in RowKeys(u.report);
        MergedRow(s, u, p);
        NotDropped(s, p, InputKeys(u.facts));
      }
    }
  }

  lemma SurvivesUnlessReused(s: Asset, u: Update)
    requires MapsOnce(s.ledger) && EveryFactMapped(s)
    requires forall p :: p in s.ledger && MappedKey(s.ledger[p]).Some? ==> MappedKey(s.ledger[p]).value in s.facts
    ensures (forall k :: k in s.facts ==> k in InputKeys(u.facts) || RowSurvives(s, u, k)) <==> !ReusesLine(s, u)
  {
    hide InputKeys, MappedKey;
    if ReusesLine(s, u) {
      var i :| 0 <= i < |u.report| && u.report[i].key in s.ledger && MappedKey(s.ledger[u.report[i].key]).Some? &&
               MappedKey(s.ledger[u.report[i].key]).value !in InputKeys(u.facts);
      var p := u.report[i].key;
      assert p in RowKeys(u.report);
      assert !RowSurvives(s, u, MappedKey(s.ledger[p]).value);
    } else {
      forall k | k in s.facts && k !in InputKeys(u.facts) ensures RowSurvives(s, u, k) {
        assert HasRow(s.ledger, k);
        var p :| p in s.ledger && MappedKey(s.ledger[p]) == Some(k);
      }
    }
  }

  /** When every fact has its one mapped row, an accepted update leaves it so if and only if its report
      reuses no line of a fact it does not update. */
  lemma EveryFactMappedKept(env: Admission, catalog: Catalog, s: Asset, t: Nanos, u: Update)
    requires BarFree(catalog) && Ledgered(catalog, s, t) && EveryFactMapped(s) && Apply(env, catalog, s, u).Ok?
    ensures EveryFactMapped(Apply(env, catalog, s, u).value) <==> !ReusesLine(s, u)
  {
    hide InputKeys, AccountingOk, MergeLedger, FactsOk, DistinctInputs, RowKeys, MappedKey, Apply, BarFree, ReusesLine,
      UpdateFacts, WithinLimits, MergeRequested, PruneOrigins, OriginsCover, OriginsNamed, RowOk, RowSurvives, MapsOnce,
      HasRow, ThreePhaseSatisfied, Admit;
    Accepted(env, catalog, s, u);
    UpdatedFacts(catalog, s, t, u);
    var after := Apply(env, catalog, s, u).value;
    forall p | p in s.ledger && MappedKey(s.ledger[p]).Some? ensures MappedKey(s.ledger[p]).value in s.facts {
      MappedIsStored(s, p);
    }
    SurvivesUnlessReused(s, u);
    forall k ensures HasRow(after.ledger, k) <==> k in InputKeys(u.facts) || RowSurvives(s, u, k) {
      RowsAfter(s, u, k);
    }
    assert after.facts.Keys == s.facts.Keys + InputKeys(u.facts);
  }

  lemma MappedIsStored(s: Asset, p: RowKey)
    requires RowsOk(s.facts, s.ledger) && p in s.ledger && MappedKey(s.ledger[p]).Some?
    ensures MappedKey(s.ledger[p]).value in s.facts && s.facts[MappedKey(s.ledger[p]).value].originRef == p.sourceRef
  {
    assert RowOk(s.facts, p, s.ledger[p]);
  }

  /** A new observation reference reuses nothing. */
  lemma NewObservationReusesNothing(catalog: Catalog, s: Asset, t: Nanos, u: Update)
    requires Ledgered(catalog, s, t) && AccountingOk(u) && u.source.observationRef !in s.origins
    ensures !ReusesLine(s, u)
  {
    hide InputKeys, MappedKey, FactsOk, RowsOk, MapsOnce, WellShaped, CountMapped, MappedKeys, ValidDigest;
    if ReusesLine(s, u) {
      var i :| 0 <= i < |u.report| && u.report[i].key in s.ledger && MappedKey(s.ledger[u.report[i].key]).Some? &&
               MappedKey(s.ledger[u.report[i].key]).value !in InputKeys(u.facts);
      MappedIsStored(s, u.report[i].key);
    }
  }

  lemma {:induction false} OriginsWereObserved(env: Admission, catalog: Catalog, updates: seq<Update>, d: Digest)
    requires d in Run(env, catalog, updates).asset.origins
    ensures exists i :: 0 <= i < |updates| && updates[i].source.observationRef == d
  {
    hide UpdateFacts, MergeLedger, MergeRequested, Admit, ThreePhaseSatisfied;
    if updates != [] {
      var n := |updates| - 1;
      var h := Run(env, catalog, updates[..n]);
      if d in h.asset.origins {
        OriginsWereObserved(env, catalog, updates[..n], d);
        var i :| 0 <= i < n && updates[..n][i].source.observationRef == d;
        assert updates[i].source.observationRef == d;
      } else {
        assert updates[n].source.observationRef == d;
      }
    }
  }

  /** In a run whose observation references are all different, every fact has exactly one mapped row, whatever
      updates were refused. */
  lemma {:induction false} FreshRunsMapExactlyOnce(env: Admission, catalog: Catalog, updates: seq<Update>)
    requires BarFree(catalog)
    requires forall i, j :: 0 <= i < j < |updates| ==> updates[i].source.observationRef != updates[j].source.observationRef
    ensures var s := Run(env, catalog, updates).asset; EveryFactMapped(s) && MapsOnce(s.ledger)
  {
    hide Apply, BarFree, EveryFactMapped, ReusesLine, FactsOk, RowsOk, MapsOnce, OriginsNamed, OriginsCover, Stored, AccountingOk, Admit, WithinLimits, DistinctInputs, Committed;
    RunsStore(env, catalog, updates);
    if updates == [] {
      assert EveryFactMapped(NEW_ASSET) by { NothingToMap(); }
    } else {
      var n := |updates| - 1;
      var h := Run(env, catalog, updates[..n]);
      FreshRunsMapExactlyOnce(env, catalog, updates[..n]);
      RunsStore(env, catalog, updates[..n]);
      if Apply(env, catalog, h.asset, updates[n]).Ok? {
        Accepted(env, catalog, h.asset, updates[n]);
        if updates[n].source.observationRef in h.asset.origins {
          OriginsWereObserved(env, catalog, updates[..n], updates[n].source.observationRef);
          assert false;
        }
        NewObservationReusesNothing(catalog, h.asset, h.last, updates[n]);
        EveryFactMappedKept(env, catalog, h.asset, h.last, updates[n]);
      }
    }
  }

  lemma NothingToMap()
    ensures EveryFactMapped(NEW_ASSET)
  {}

  // ---- deltas ---------------------------------------------------------------------------------

  /** Each input is judged against the facts before the update, in any order of the inputs. */
  lemma {:induction false} AppliedAt(catalog: Catalog, facts: Facts, origins: map<Digest, Provenance>, source: Provenance,
                                     evaluated: Nanos, inputs: seq<FactInput>, i: nat)
    requires DistinctInputs(inputs) && i < |inputs|
    requires ApplyFacts(catalog, facts, origins, source, evaluated, inputs).Ok?
    ensures ApplyFact(catalog, facts, origins, source, evaluated, inputs[i]).Ok?
    ensures InputKey(inputs[i]) in ApplyFacts(catalog, facts, origins, source, evaluated, inputs).value
    ensures ApplyFacts(catalog, facts, origins, source, evaluated, inputs).value[InputKey(inputs[i])] ==
            ApplyFact(catalog, facts, origins, source, evaluated, inputs[i]).value
  {
    hide InputKey, ApplyFact;
    var n := |inputs| - 1;
    if i < n {
      AppliedAt(catalog, facts, origins, source, evaluated, inputs[..n], i);
      assert inputs[..n][i] == inputs[i];
    } else {
      var before := ApplyFacts(catalog, facts, origins, source, evaluated, inputs[..n]).value;
      AppliedElsewhere(catalog, facts, origins, source, evaluated, inputs[..n], InputKey(inputs[n]));
      JudgedAtItsKey(catalog, facts, before, origins, source, evaluated, inputs[n]);
    }
  }

  lemma {:induction false} AppliedElsewhere(catalog: Catalog, facts: Facts, origins: map<Digest, Provenance>, source: Provenance,
                                            evaluated: Nanos, inputs: seq<FactInput>, k: FactKey)
    requires forall i :: 0 <= i < |inputs| ==> InputKey(inputs[i]) != k
    requires ApplyFacts(catalog, facts, origins, source, evaluated, inputs).Ok?
    ensures var after := ApplyFacts(catalog, facts, origins, source, evaluated, inputs).value;
      (k in after <==> k in facts) && (k in facts ==> after[k] == facts[k])
  {
    hide InputKey, ApplyFact;
    if inputs != [] {
      AppliedElsewhere(catalog, facts, origins, source, evaluated, inputs[..|inputs| - 1], k);
    }
  }

  lemma JudgedAtItsKey(catalog: Catalog, x: Facts, y: Facts, origins: map<Digest, Provenance>, source: Provenance,
                       evaluated: Nanos, input: FactInput)
    requires InputKey(input) in x <==> InputKey(input) in y
    requires InputKey(input) in x ==> x[InputKey(input)] == y[InputKey(input)]
    ensures ApplyFact(catalog, x, origins, source, evaluated, input) == ApplyFact(catalog, y, origins, source, evaluated, input)
  {
    hide InputKey, ValidCandidate, EvaluateTemporal, EvaluateCounter;
  }

  lemma DeltaHasPrior(catalog: Catalog, facts: Facts, origins: map<Digest, Provenance>, source: Provenance,
                      evaluated: Nanos, input: FactInput)
    requires ApplyFact(catalog, facts, origins, source, evaluated, input).Ok?
    requires var c := ApplyFact(catalog, facts, origins, source, evaluated, input).value.continuity;
      c.Some? && c.value.delta.Some?
    ensures var k, f := InputKey(input), ApplyFact(catalog, facts, origins, source, evaluated, input).value;
      k in facts && facts[k].availability == Available &&
      SameSource(OriginAt(origins, facts[k].originRef), source) &&
      facts[k].value.decimal.Some? && Valid(facts[k].value.decimal.value) &&
      f.value.decimal.Some? && Valid(f.value.decimal.value) &&
      DeltaUnits(f.continuity.value) ==
        Units(f.value.decimal.value) - Units(facts[k].value.decimal.value) + ModulusUnits(f.continuity.value)
  {
    hide InputKey, ValidCandidate, EvaluateTemporal, EvaluateCounter, SameSource, Valid, Units, DeltaUnits, ModulusUnits;
    var k := InputKey(input);
    DeltasAreExact(if k in facts then facts[k].value.decimal else None, input.candidate.value.decimal.value, input.counter);
  }

  lemma UpdatedAt(env: Admission, catalog: Catalog, s: Asset, t: Nanos, u: Update, i: nat)
    requires FactsOk(catalog, s.facts, t) && Apply(env, catalog, s, u).Ok? && i < |u.facts|
    ensures EvaluateRetained(s.facts, u.evaluated).Ok?
    ensures var origins := s.origins[u.source.observationRef := u.source];
      var retained := EvaluateRetained(s.facts, u.evaluated).value;
      InputKey(u.facts[i]) in Apply(env, catalog, s, u).value.facts &&
      ApplyFact(catalog, retained, origins, u.source, u.evaluated, u.facts[i]) ==
        Ok(Apply(env, catalog, s, u).value.facts[InputKey(u.facts[i])])
  {
    hide FactsOk, ApplyFacts, EvaluateRetained, Apply, ApplyFact, InputKey, DistinctInputs, Admit, AccountingOk, WithinLimits,
      MergeLedger, MergeRequested, PruneOrigins;
    Accepted(env, catalog, s, u);
    var origins := s.origins[u.source.observationRef := u.source];
    var retained := EvaluateRetained(s.facts, u.evaluated).value;
    RetainedOk(catalog, s.facts, t, u.evaluated);
    AppliedFacts(catalog, retained, origins, u.source, u.evaluated, u.facts);
    EvaluatedAgain(catalog, ApplyFacts(catalog, retained, origins, u.source, u.evaluated, u.facts).value, u.evaluated);
    AppliedAt(catalog, retained, origins, u.source, u.evaluated, u.facts, i);
  }

  lemma OriginUnmoved(s: Asset, u: Update, d: Digest)
    requires u.source.observationRef in s.origins ==> s.origins[u.source.observationRef] == u.source
    requires d in s.origins
    ensures OriginAt(s.origins[u.source.observationRef := u.source], d) == s.origins[d]
  {}

  /** A published delta is measured from a prior value of the same fact, still available at the time of the
      update and from the same source, and is exactly the change of the reading plus any rollover. */
  lemma DeltasArePublishedAgainstPriors(env: Admission, catalog: Catalog, s: Asset, t: Nanos, u: Update, k: FactKey)
    requires Ledgered(catalog, s, t) && Apply(env, catalog, s, u).Ok? && k in InputKeys(u.facts)
    requires k in Apply(env, catalog, s, u).value.facts
    requires var c := Apply(env, catalog, s, u).value.facts[k].continuity; c.Some? && c.value.delta.Some?
    ensures var f := Apply(env, catalog, s, u).value.facts[k];
      k in s.facts && Refreshed(s.facts[k], u.evaluated).availability == Available &&
      s.facts[k].originRef in s.origins && SameSource(s.origins[s.facts[k].originRef], u.source) &&
      s.facts[k].value.decimal.Some? && Valid(s.facts[k].value.decimal.value) &&
      f.value.decimal.Some? && Valid(f.value.decimal.value) &&
      DeltaUnits(f.continuity.value) ==
        Units(f.value.decimal.value) - Units(s.facts[k].value.decimal.value) + ModulusUnits(f.continuity.value)
  {
    hide FactsOk, Apply, ApplyFact, InputKey, Admit, RowsOk, MapsOnce, SameSource, Valid, Units, DeltaUnits, ModulusUnits,
      EvaluateRetained, AccountingOk, WithinLimits, DistinctInputs, Committed, StateOf;
    var i :| 0 <= i < |u.facts| && InputKey(u.facts[i]) == k;
    var origins := s.origins[u.source.observationRef := u.source];
    Accepted(env, catalog, s, u);
    UpdatedAt(env, catalog, s, t, u, i);
    var retained := EvaluateRetained(s.facts, u.evaluated).value;
    RetainedOk(catalog, s.facts, t, u.evaluated);
    DeltaHasPrior(catalog, retained, origins, u.source, u.evaluated, u.facts[i]);
    OriginUnmoved(s, u, s.facts[k].originRef);
  }

  // A chain of accepted updates, each continuing the accumulator k.
  ghost predicate Continues(env: Admission, catalog: Catalog, h: History, k: FactKey, updates: seq<Update>)
  {
    updates != [] ==>
      var n := |updates| - 1;
      Continues(env, catalog, h, k, updates[..n]) &&
      (var after := Apply(env, catalog, Chain(env, catalog, h, updates[..n]).asset, updates[n]);
       after.Ok? && k in InputKeys(updates[n].facts) && k in after.value.facts &&
       after.value.facts[k].continuity.Some? && after.value.facts[k].continuity.value.delta.Some?)
  }

  function Chain(env: Admission, catalog: Catalog, h: History, updates: seq<Update>): History
  {
    if updates == [] then h
    else Advance(env, catalog, Chain(env, catalog, h, updates[..|updates| - 1]), updates[|updates| - 1])
  }

  ghost function Published(env: Admission, catalog: Catalog, h: History, k: FactKey, updates: seq<Update>)
      : (steps: seq<Continuity>)
    requires Continues(env, catalog, h, k, updates)
    ensures |steps| == |updates|
  {
    if updates == [] then []
    else
      Published(env, catalog, h, k, updates[..|updates| - 1]) +
      [Chain(env, catalog, h, updates).asset.facts[k].continuity.value]
  }

  /** What an accumulator publishes over any chain of updates that continue it adds up: the deltas sum to the
      last value minus the first, plus the rollovers. */
  lemma {:induction false} PublishedDeltasAddUp(env: Admission, catalog: Catalog, h: History, k: FactKey, updates: seq<Update>)
    requires BarFree(catalog) && Ledgered(catalog, h.asset, h.last) && Continues(env, catalog, h, k, updates)
    requires k in h.asset.facts && h.asset.facts[k].value.decimal.Some? && Valid(h.asset.facts[k].value.decimal.value)
    ensures var last := Chain(env, catalog, h, updates);
      Ledgered(catalog, last.asset, last.last) && k in last.asset.facts && last.asset.facts[k].value.decimal.Some? &&
      Valid(last.asset.facts[k].value.decimal.value) &&
      SumDeltas(Published(env, catalog, h, k, updates)) ==
        Units(last.asset.facts[k].value.decimal.value) - Units(h.asset.facts[k].value.decimal.value) +
        SumModuli(Published(env, catalog, h, k, updates))
  {
    hide Ledgered, Apply, Valid, Units, DeltaUnits, ModulusUnits, BarFree, SameSource, Refreshed, InputKeys, Stored;
    if updates != [] {
      var n := |updates| - 1;
      PublishedDeltasAddUp(env, catalog, h, k, updates[..n]);
      var before := Chain(env, catalog, h, updates[..n]);
      DeltasArePublishedAgainstPriors(env, catalog, before.asset, before.last, updates[n], k);
      ApplyKeeps(env, catalog, before.asset, before.last, updates[n]);
      StoredIsLedgered(catalog, Apply(env, catalog, before.asset, updates[n]).value, updates[n].evaluated);
      var steps := Published(env, catalog, h, k, updates);
      assert steps[..n] == Published(env, catalog, h, k, updates[..n]);
    }
  }

  // ---- snapshots ------------------------------------------------------------------------------------

  /** A well-formed asset can be looked at at any later time: nothing but freshness and availability differs, no
      origin is lost, and freshness only moves forward. */
  lemma SnapshotsNeverFail(catalog: Catalog, s: Asset, t: Nanos, u: Nanos)
    requires Stored(catalog, s, t) && 0 <= t <= u
    ensures Snapshot(s, u).Ok?
    ensures var view := Snapshot(s, u).value;
      Stored(catalog, view, u) && view == s.(facts := view.facts) && view.facts.Keys == s.facts.Keys &&
      forall k :: k in s.facts ==>
        view.facts[k] == s.facts[k].(availability := view.facts[k].availability, freshness := view.facts[k].freshness) &&
        Age(s.facts[k].freshness) <= Age(view.facts[k].freshness)
  {
    hide RowsOk, MapsOnce, FactsOk, OriginsNamed, StateOf, Age, Referenced;
    RetainedEvaluates(catalog, s.facts, t, u);
    RetainedOk(catalog, s.facts, t, u);
    var view := Snapshot(s, u).value;
    assert RefreshedFrom(s.facts, view.facts);
    SameReferences(s.source, s.facts, view.facts);
    assert view.origins == s.origins;
    RowsSurviveRefreshing(s.facts, view.facts, s.ledger);
  }

  lemma RetainedEvaluates(catalog: Catalog, facts: Facts, t: Nanos, u: Nanos)
    requires FactsOk(catalog, facts, t) && t <= u
    ensures EvaluateRetained(facts, u).Ok?
    ensures forall k :: k in facts ==> Age(facts[k].freshness) <= Age(Refreshed(facts[k], u).freshness)
  {
    hide FactOk, EvaluateTemporal, PolicyByID, Age;
    forall k | k in facts
      ensures StateOf(facts[k], u).Some? && Age(facts[k].freshness) <= Age(Refreshed(facts[k], u).freshness)
    {
      LaterState(catalog, k, facts[k], t, u);
    }
  }

  /** The same facts but for their availability and freshness. */
  ghost predicate RefreshedFrom(facts: Facts, after: Facts)
  {
    facts.Keys == after.Keys &&
    forall k :: k in facts ==>
      after[k] == facts[k].(availability := after[k].availability, freshness := after[k].freshness)
  }

  lemma SameReferences(source: Provenance, facts: Facts, after: Facts)
    requires RefreshedFrom(facts, after)
    ensures Referenced(source, after) == Referenced(source, facts)
  {
    forall d | d in Referenced(source, after) && d != source.observationRef ensures d in Referenced(source, facts) {
      var k :| k in after && after[k].originRef == d;
      assert facts[k].originRef == d;
    }
    forall d | d in Referenced(source, facts) && d != source.observationRef ensures d in Referenced(source, after) {
      var k :| k in facts && facts[k].originRef == d;
      assert after[k].originRef == d;
    }
  }

  lemma LaterState(catalog: Catalog, k: FactKey, f: Fact, t: Nanos, u: Nanos)
    requires FactOk(catalog, k, f, t) && t <= u
    ensures StateOf(f, u).Some? && Age(f.freshness) <= Age(Refreshed(f, u).freshness)
  {
    hide ValidValue, Catalogued, KeyOf;
  }

  lemma RowsSurviveRefreshing(facts: Facts, after: Facts, ledger: map<RowKey, Row>)
    requires RowsOk(facts, ledger) && RefreshedFrom(facts, after)
    ensures RowsOk(after, ledger)
  {
    hide KeyOf;
    forall p | p in ledger ensures RowOk(after, p, ledger[p]) {
      assert RowOk(facts, p, ledger[p]);
    }
  }

  /** Looking at an asset through an intermediate time shows the same as looking directly. */
  lemma LookingThroughIsLooking(catalog: Catalog, s: Asset, t: Nanos, u: Nanos, v: Nanos)
    requires Stored(catalog, s, t) && 0 <= t <= u <= v
    ensures Snapshot(s, u).Ok? && Snapshot(s, v).Ok? && Snapshot(Snapshot(s, u).value, v) == Snapshot(s, v)
  {
    hide Stored, StateOf, PruneOrigins, Age, EvaluateTemporal;
    SnapshotsNeverFail(catalog, s, t, u);
    SnapshotsNeverFail(catalog, s, t, v);
    var through := Snapshot(s, u).value;
    SnapshotsNeverFail(catalog, through, u, v);
    assert EvaluateRetained(through.facts, v).value == EvaluateRetained(s.facts, v).value by {
      forall k | k in s.facts ensures Refreshed(through.facts[k], v) == Refreshed(s.facts[k], v) {
        RefreshedTwice(s.facts[k], through.facts[k], v);
      }
    }
  }

  lemma RefreshedTwice(f: Fact, g: Fact, v: Nanos)
    requires g == f.(availability := g.availability, freshness := g.freshness)
    requires StateOf(f, v).Some?
    ensures Refreshed(g, v) == Refreshed(f, v)
  {}

  // ---- the three-phase capability ---------------------------------------------------------------------------

  lemma SatisfiedByPresence(catalog: Catalog, s: Asset, t: Nanos)
    requires FactsOk(catalog, s.facts, t)
    ensures ThreePhaseSatisfied(s.facts) <==> RequiredKeys() <= s.facts.Keys
  {
    hide RequiredKeys, ValidValue, Catalogued, KeyOf;
    assert forall k :: k in s.facts ==> FactOk(catalog, k, s.facts[k], t);
  }

  /** Facts are never lost, so a satisfied capability stays satisfied through every update and every snapshot,
      whatever expires. */
  lemma SatisfiedForGood(env: Admission, catalog: Catalog, h: History, updates: seq<Update>, t: Nanos)
    requires BarFree(catalog) && Stored(catalog, h.asset, h.last) && ThreePhaseSatisfied(h.asset.facts)
    requires 0 <= h.last && 0 <= Chain(env, catalog, h, updates).last <= t
    ensures var last := Chain(env, catalog, h, updates);
      ThreePhaseSatisfied(last.asset.facts) && Snapshot(last.asset, t).Ok? &&
      ThreePhaseSatisfied(Snapshot(last.asset, t).value.facts)
  {
    hide Stored, ThreePhaseSatisfied, Chain, Snapshot, BarFree, FactsOk, RequiredKeys;
    var last := Chain(env, catalog, h, updates);
    ChainGrows(env, catalog, h, updates);
    SnapshotsNeverFail(catalog, last.asset, last.last, t);
    var view := Snapshot(last.asset, t).value;
    StoredFacts(catalog, h.asset, h.last);
    StoredFacts(catalog, last.asset, last.last);
    StoredFacts(catalog, view, t);
    SatisfiedByPresence(catalog, h.asset, h.last);
    SatisfiedByPresence(catalog, last.asset, last.last);
    SatisfiedByPresence(catalog, view, t);
  }

  lemma StoredFacts(catalog: Catalog, s: Asset, t: Nanos)
    requires Stored(catalog, s, t)
    ensures FactsOk(catalog, s.facts, t)
  {}

  lemma {:induction false} ChainGrows(env: Admission, catalog: Catalog, h: History, updates: seq<Update>)
    requires BarFree(catalog) && Stored(catalog, h.asset, h.last)
    ensures var last := Chain(env, catalog, h, updates);
      Stored(catalog, last.asset, last.last) && h.asset.facts.Keys <= last.asset.facts.Keys &&
      h.asset.generation <= last.asset.generation <= h.asset.generation + |updates|
  {
    hide Stored, Apply, BarFree, InputKeys, FactsOk, Ledgered, UpdateFacts, AccountingOk, WithinLimits, DistinctInputs, Admit,
      MergeLedger, MergeRequested, PruneOrigins, ThreePhaseSatisfied, Installed, Refreshed;
    if updates != [] {
      var n := |updates| - 1;
      ChainGrows(env, catalog, h, updates[..n]);
      var before := Chain(env, catalog, h, updates[..n]);
      StoredIsLedgered(catalog, before.asset, before.last);
      StoredFacts(catalog, before.asset, before.last);
      if Apply(env, catalog, before.asset, updates[n]).Ok? {
        ApplyKeeps(env, catalog, before.asset, before.last, updates[n]);
        Accepted(env, catalog, before.asset, updates[n]);
        UpdatedFacts(catalog, before.asset, before.last, updates[n]);
      }
    }
  }
}
