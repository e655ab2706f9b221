// What every stored photovoltaic asset satisfies, and that an accepted update keeps it.
module PvInvariant {
  import opened Numerals
  import opened PvCounter
  import opened PvFacts
  import opened PvRegistry

  // ---- catalogued facts -----------------------------------------------------------

  ghost predicate BarFree(catalog: Catalog)
  {
    forall id :: id in catalog.facts ==> Lacks(id, '|')
  }

  ghost predicate Catalogued(catalog: Catalog, id: string, d: Dimensions)
  {
    id in catalog.facts && ValidDimensions(catalog, catalog.facts[id].dimension, d)
  }

  lemma IdentifierIsShort(catalog: Catalog, s: string)
    requires OpaqueIdentifier(catalog, s)
    ensures s != "" && Lacks(s, '|') && Lacks(s, ',')
  {}

  lemma ValidIsShort(catalog: Catalog, kind: DimensionKind, d: Dimensions)
    requires ValidDimensions(catalog, kind, d)
    ensures Lacks(OnlyPart(d), '|') && Lacks(OnlyPart(d), ',')
  {
    hide Lacks, OpaqueIdentifier;
    match kind
    case ByScope => assert OnlyPart(d) == "scope=" + d.scope; Literals();
    case ByPhase => assert OnlyPart(d) == "phase=" + d.phase; Literals();
    case ByPhasePair => assert OnlyPart(d) == "phase_pair=" + d.phasePair; Literals();
    case ByInput => IdentifierIsShort(catalog, d.inputID); assert OnlyPart(d) == "input_id=" + d.inputID; ShortName("input_id=", d.inputID);
    case BySensor => IdentifierIsShort(catalog, d.sensorID); assert OnlyPart(d) == "sensor_id=" + d.sensorID; ShortName("sensor_id=", d.sensorID);
  }

  lemma ShortName(name: string, value: string)
    requires name == "input_id=" || name == "sensor_id="
    requires Lacks(value, '|') && Lacks(value, ',')
    ensures Lacks(name + value, '|') && Lacks(name + value, ',')
  {}

  lemma Literals()
    ensures Lacks("scope=" + "total", '|') && Lacks("scope=" + "total", ',')
    ensures forall p :: p == "L1" || p == "L2" || p == "L3" ==> Lacks("phase=" + p, '|') && Lacks("phase=" + p, ',')
    ensures forall p :: p == "L1_L2" || p == "L2_L3" || p == "L3_L1" ==> Lacks("phase_pair=" + p, '|') && Lacks("phase_pair=" + p, ',')
  {}

  /** The key of a catalogued fact is the key of no other id or dimensions whatever. */
  lemma CataloguedKeyDetermines(catalog: Catalog, id: string, d: Dimensions, id': string, d': Dimensions)
    requires BarFree(catalog) && Catalogued(catalog, id, d) && KeyOf(id, d) == KeyOf(id', d')
    ensures id == id' && d == d'
  {
    hide Parts, OnlyPart, Lacks, KeyOf;
    ValidIsShort(catalog, catalog.facts[id].dimension, d);
    KeyDetermines(id, d, id', d');
  }

  // ---- facts --------------------------------------------------------------------------

  ghost predicate FactOk(catalog: Catalog, k: FactKey, f: Fact, t: Nanos)
  {
    Catalogued(catalog, f.id, f.dimensions) && k == KeyOf(f.id, f.dimensions) &&
    ValidValue(catalog.facts[f.id], f.value) &&
    StateOf(f, t) == Some(TemporalState(f.availability, f.freshness, f.temporal))
  }

  ghost predicate FactsOk(catalog: Catalog, facts: Facts, t: Nanos)
  {
    forall k :: k in facts ==> FactOk(catalog, k, facts[k], t)
  }

  lemma RefreshedOk(catalog: Catalog, k: FactKey, f: Fact, t: Nanos, u: Nanos)
    requires FactOk(catalog, k, f, t) && StateOf(f, u).Some?
    ensures FactOk(catalog, k, Refreshed(f, u), u)
  {
    hide ValidValue, Catalogued, KeyOf;
  }

  /** Retained facts that evaluate at all are well formed again at the time of evaluation. */
  lemma RetainedOk(catalog: Catalog, facts: Facts, t: Nanos, u: Nanos)
    requires FactsOk(catalog, facts, t) && EvaluateRetained(facts, u).Ok?
    ensures FactsOk(catalog, EvaluateRetained(facts, u).value, u)
    ensures EvaluateRetained(facts, u).value.Keys == facts.Keys
    ensures forall k :: k in facts ==> EvaluateRetained(facts, u).value[k] == Refreshed(facts[k], u)
  {
    hide FactOk;
    forall k | k in facts ensures FactOk(catalog, k, Refreshed(facts[k], u), u) {
      assert StateOf(facts[k], u).Some?;
      RefreshedOk(catalog, k, facts[k], t, u);
    }
  }

  lemma EvaluatedAgain(catalog: Catalog, facts: Facts, t: Nanos)
    requires FactsOk(catalog, facts, t)
    ensures EvaluateRetained(facts, t) == Ok(facts)
  {
    hide ValidValue, Catalogued, KeyOf, EvaluateTemporal;
    forall k | k in facts ensures StateOf(facts[k], t).Some? && Refreshed(facts[k], t) == facts[k] {
      assert FactOk(catalog, k, facts[k], t);
    }
    assert (map k | k in facts :: Refreshed(facts[k], t)) == facts;
  }

  lemma AppliedFact(catalog: Catalog, facts: Facts, origins: map<Digest, Provenance>, source: Provenance,
                    evaluated: Nanos, input: FactInput)
    requires ApplyFact(catalog, facts, origins, source, evaluated, input).Ok?
    ensures var f := ApplyFact(catalog, facts, origins, source, evaluated, input).value;
      FactOk(catalog, InputKey(input), f, evaluated) && f.originRef == source.observationRef &&
      f.id == input.candidate.id && f.dimensions == input.candidate.dimensions && f.value == input.candidate.value
  {
    hide ValidValue, ValidDimensions, KeyOf, ContinuityOf;
  }

  ghost predicate Installed(facts: Facts, source: Provenance, input: FactInput)
  {
    InputKey(input) in facts &&
    var f := facts[InputKey(input)];
    f.id == input.candidate.id && f.dimensions == input.candidate.dimensions && f.value == input.candidate.value &&
    f.originRef == source.observationRef
  }

  lemma InputKeysPrefix(inputs: seq<FactInput>)
    requires inputs != []
    ensures InputKeys(inputs) == InputKeys(inputs[..|inputs| - 1]) + {InputKey(inputs[|inputs| - 1])}
  {
    hide InputKey;
    var n := |inputs| - 1;
    forall i | 0 <= i < |inputs| ensures InputKey(inputs[i]) in InputKeys(inputs[..n]) + {InputKey(inputs[n])} {
      if i < n { assert inputs[..n][i] == inputs[i]; }
    }
    forall k | k in InputKeys(inputs[..n]) ensures k in InputKeys(inputs) {
      var i :| 0 <= i < n && k == InputKey(inputs[..n][i]);
      assert k == InputKey(inputs[i]);
    }
  }

  /** The facts of an update are installed under their keys; every other fact stays as it was. */
  lemma {:induction false} AppliedFacts(catalog: Catalog, facts: Facts, origins: map<Digest, Provenance>, source: Provenance,
                                        evaluated: Nanos, inputs: seq<FactInput>)
    requires FactsOk(catalog, facts, evaluated) && DistinctInputs(inputs)
    requires ApplyFacts(catalog, facts, origins, source, evaluated, inputs).Ok?
    ensures var after := ApplyFacts(catalog, facts, origins, source, evaluated, inputs).value;
      FactsOk(catalog, after, evaluated) && after.Keys == facts.Keys + InputKeys(inputs) &&
      (forall k :: k in facts && k !in InputKeys(inputs) ==> after[k] == facts[k]) &&
      (forall i :: 0 <= i < |inputs| ==> Installed(after, source, inputs[i]))
  {
    hide FactOk, InputKey, ApplyFact, InputKeys;
    if inputs == [] {
      assert InputKeys(inputs) == {} by { EmptyInputs(); }
    } else {
      var n := |inputs| - 1;
      AppliedFacts(catalog, facts, origins, source, evaluated, inputs[..n]);
      InputKeysPrefix(inputs);
      var before := ApplyFacts(catalog, facts, origins, source, evaluated, inputs[..n]).value;
      AppliedFact(catalog, before, origins, source, evaluated, inputs[n]);
      forall i | 0 <= i < |inputs|
        ensures Installed(ApplyFacts(catalog, facts, origins, source, evaluated, inputs).value, source, inputs[i])
      {
        if i < n { assert inputs[..n][i] == inputs[i]; }
      }
    }
  }

  lemma EmptyInputs()
    ensures InputKeys([]) == {}
  {}

  /** The facts after an update: the old ones refreshed to its time, with the new ones over them. */
  lemma UpdatedFacts(catalog: Catalog, s: Asset, t: Nanos, u: Update)
    requires FactsOk(catalog, s.facts, t) && DistinctInputs(u.facts) && UpdateFacts(catalog, s, u).Ok?
    ensures var facts := UpdateFacts(catalog, s, u).value;
      FactsOk(catalog, facts, u.evaluated) && facts.Keys == s.facts.Keys + InputKeys(u.facts) &&
      (forall k :: k in s.facts && k !in InputKeys(u.facts) ==> facts[k] == Refreshed(s.facts[k], u.evaluated)) &&
      (forall i :: 0 <= i < |u.facts| ==> Installed(facts, u.source, u.facts[i]))
  {
    hide FactsOk, InputKeys, ApplyFacts, EvaluateRetained, Installed, DistinctInputs;
    var retained := EvaluateRetained(s.facts, u.evaluated).value;
    RetainedOk(catalog, s.facts, t, u.evaluated);
    var origins := s.origins[u.source.observationRef := u.source];
    AppliedFacts(catalog, retained, origins, u.source, u.evaluated, u.facts);
    EvaluatedAgain(catalog, ApplyFacts(catalog, retained, origins, u.source, u.evaluated, u.facts).value, u.evaluated);
  }

  // ---- ledger ------------------------------------------------------------------------------

  ghost predicate RowOk(facts: Facts, p: RowKey, row: Row)
  {
    row.key == p && WellShaped(row) &&
    (row.outcome == Mapped ==>
       var k := KeyOf(row.factID, row.dimensions.value);
       k in facts && facts[k].id == row.factID && facts[k].dimensions == row.dimensions.value &&
       facts[k].originRef == p.sourceRef)
  }

  ghost predicate RowsOk(facts: Facts, ledger: map<RowKey, Row>)
  {
    forall p :: p in ledger ==> RowOk(facts, p, ledger[p])
  }

  ghost predicate MapsOnce(ledger: map<RowKey, Row>)
  {
    forall p, q :: p in ledger && q in ledger && MappedKey(ledger[p]).Some? && MappedKey(ledger[p]) == MappedKey(ledger[q]) ==>
      p == q
  }

  ghost predicate HasRow(ledger: map<RowKey, Row>, k: FactKey)
  {
    exists p :: p in ledger && MappedKey(ledger[p]) == Some(k)
  }

  // ---- origins --------------------------------------------------------------------------------

  ghost predicate OriginsNamed(origins: map<Digest, Provenance>)
  {
    forall d :: d in origins ==> origins[d].observationRef == d
  }

  ghost predicate OriginsCover(origins: map<Digest, Provenance>, facts: Facts)
  {
    forall k :: k in facts ==> facts[k].originRef in origins
  }

  ghost predicate OriginsExact(s: Asset)
  {
    s.origins.Keys == Referenced(s.source, s.facts) && OriginAt(s.origins, s.source.observationRef) == s.source
  }

  // ---- assets -------------------------------------------------------------------------------------

  /** What holds of a new asset and of every stored one. */
  ghost predicate Ledgered(catalog: Catalog, s: Asset, t: Nanos)
  {
    FactsOk(catalog, s.facts, t) && RowsOk(s.facts, s.ledger) && MapsOnce(s.ledger) &&
    s.requested == s.ledger.Keys && OriginsNamed(s.origins) && OriginsCover(s.origins, s.facts)
  }

  /** What holds of every asset after a successful update at time t. */
  ghost predicate Stored(catalog: Catalog, s: Asset, t: Nanos)
  {
    Ledgered(catalog, s, t) && OriginsExact(s) && s.generation > 0
  }

  // ---- the report of an update ------------------------------------------------------------------------

  lemma {:induction false} CountFinds(rows: seq<Row>, k: FactKey)
    ensures CountMapped(rows, k) == 0 <==> forall i :: 0 <= i < |rows| ==> MappedKey(rows[i]) != Some(k)
    ensures CountMapped(rows, k) == 1 ==>
      forall i, j :: 0 <= i < |rows| && 0 <= j < |rows| && MappedKey(rows[i]) == Some(k) && MappedKey(rows[j]) == Some(k) ==>
        i == j
  {
    hide MappedKey;
    if rows != [] {
      var n := |rows| - 1;
      CountFinds(rows[..n], k);
      assert forall i :: 0 <= i < n ==> rows[..n][i] == rows[i];
      if CountMapped(rows, k) == 0 {
        forall i | 0 <= i < |rows| ensures MappedKey(rows[i]) != Some(k) { if i < n { assert rows[..n][i] == rows[i]; } }
      }
    }
  }

  lemma {:induction false} InputKeysCount(inputs: seq<FactInput>)
    requires DistinctInputs(inputs)
    ensures |InputKeys(inputs)| == |inputs|
  {
    hide InputKey;
    if inputs == [] {
      EmptyInputs();
    } else {
      var n := |inputs| - 1;
      InputKeysPrefix(inputs);
      InputKeysCount(inputs[..n]);
      assert InputKey(inputs[n]) !in InputKeys(inputs[..n]) by {
        assert forall i :: 0 <= i < n ==> inputs[..n][i] == inputs[i];
      }
    }
  }

  lemma SubsetOfSameSize<T>(x: set<T>, y: set<T>)
    requires x <= y && |x| == |y|
    ensures x == y
  {
    assert |y - x| == |y| - |x|;
  }

  lemma MappedKeysContain(rows: seq<Row>, i: nat, k: FactKey)
    requires i < |rows| && MappedKey(rows[i]) == Some(k)
    ensures k in MappedKeys(rows)
  {}

  /** Counting suffices: an accepted report maps exactly the facts of its update. */
  lemma ReportMapsTheInputs(u: Update)
    requires DistinctInputs(u.facts) && AccountingOk(u)
    ensures MappedKeys(u.report) == InputKeys(u.facts)
  {
    hide InputKey, MappedKey, WellShaped, ValidDigest, CountMapped;
    forall k | k in InputKeys(u.facts) ensures k in MappedKeys(u.report) {
      var i :| 0 <= i < |u.facts| && k == InputKey(u.facts[i]);
      CountFinds(u.report, k);
      var j :| 0 <= j < |u.report| && MappedKey(u.report[j]) == Some(k);
      MappedKeysContain(u.report, j, k);
    }
    InputKeysCount(u.facts);
    SubsetOfSameSize(InputKeys(u.facts), MappedKeys(u.report));
  }

  function RowKeys(rows: seq<Row>): set<RowKey>
  {
    set i | 0 <= i < |rows| :: rows[i].key
  }

  function Outputs(requested: seq<RowKey>): set<RowKey>
  {
    set i | 0 <= i < |requested| :: requested[i]
  }

  lemma {:induction false} DistinctCount(keys: seq<RowKey>)
    requires forall i, j :: 0 <= i < j < |keys| ==> keys[i] != keys[j]
    ensures |Outputs(keys)| == |keys|
  {
    if keys != [] {
      var n := |keys| - 1;
      DistinctCount(keys[..n]);
      forall p | p in Outputs(keys) ensures p in Outputs(keys[..n]) + {keys[n]} {
        var i :| 0 <= i < |keys| && keys[i] == p;
        if i < n { assert keys[..n][i] == p; }
      }
      forall p | p in Outputs(keys[..n]) + {keys[n]} ensures p in Outputs(keys) {
        if p in Outputs(keys[..n]) {
          var i :| 0 <= i < n && keys[..n][i] == p;
          assert keys[i] == p;
        } else {
          assert keys[n] == p;
        }
      }
      assert Outputs(keys) == Outputs(keys[..n]) + {keys[n]};
      assert keys[n] !in Outputs(keys[..n]);
    }
  }

  /** An accepted report answers every requested output. */
  lemma ReportAnswersTheRequest(u: Update)
    requires WithinLimits(u) && AccountingOk(u)
    ensures RowKeys(u.report) == Outputs(u.requested)
  {
    hide InputKey, MappedKey, WellShaped, ValidDigest, CountMapped, MappedKeys;
    var keys := seq(|u.report|, i requires 0 <= i < |u.report| => u.report[i].key);
    DistinctCount(keys);
    DistinctCount(u.requested);
    assert Outputs(keys) == RowKeys(u.report) by {
      forall p | p in Outputs(keys) ensures p in RowKeys(u.report) {
        var i :| 0 <= i < |keys| && keys[i] == p;
        assert u.report[i].key == p;
      }
      forall p | p in RowKeys(u.report) ensures p in Outputs(keys) {
        var i :| 0 <= i < |u.report| && u.report[i].key == p;
        assert keys[i] == p;
      }
    }
    SubsetOfSameSize(RowKeys(u.report), Outputs(u.requested));
  }

  // ---- merging ----------------------------------------------------------------------------------------------

  lemma RowKeysPrefix(rows: seq<Row>)
    requires rows != []
    ensures RowKeys(rows) == RowKeys(rows[..|rows| - 1]) + {rows[|rows| - 1].key}
  {
    var n := |rows| - 1;
    forall p | p in RowKeys(rows[..n]) ensures p in RowKeys(rows) {
      var i :| 0 <= i < n && rows[..n][i].key == p;
      assert rows[i].key == p;
    }
    forall p | p in RowKeys(rows) ensures p in RowKeys(rows[..n]) + {rows[n].key} {
      var i :| 0 <= i < |rows| && rows[i].key == p;
      if i < n { assert rows[..n][i].key == p; }
    }
    assert rows[n].key in RowKeys(rows);
  }

  lemma {:induction false} AddedRows(ledger: map<RowKey, Row>, rows: seq<Row>)
    requires forall i, j :: 0 <= i < j < |rows| ==> rows[i].key != rows[j].key
    ensures AddRows(ledger, rows).Keys == ledger.Keys + RowKeys(rows)
    ensures forall i :: 0 <= i < |rows| ==> AddRows(ledger, rows)[rows[i].key] == rows[i]
    ensures forall p :: p in ledger && p !in RowKeys(rows) ==> AddRows(ledger, rows)[p] == ledger[p]
  {
    if rows == [] {
      assert RowKeys(rows) == {};
    } else {
      hide RowKeys;
      var n := |rows| - 1;
      AddedRows(ledger, rows[..n]);
      RowKeysPrefix(rows);
      AddedRow(AddRows(ledger, rows[..n]), rows);
    }
  }

  lemma AddedRow(before: map<RowKey, Row>, rows: seq<Row>)
    requires rows != []
    requires forall i, j :: 0 <= i < j < |rows| ==> rows[i].key != rows[j].key
    requires var prefix := rows[..|rows| - 1]; forall i :: 0 <= i < |prefix| ==> prefix[i].key in before && before[prefix[i].key] == prefix[i]
    ensures var after := before[rows[|rows| - 1].key := rows[|rows| - 1]];
      forall i :: 0 <= i < |rows| ==> rows[i].key in after && after[rows[i].key] == rows[i]
  {
    var n := |rows| - 1;
    forall i | 0 <= i < n ensures rows[i].key in before && before[rows[i].key] == rows[i] && rows[i].key != rows[n].key {
      assert rows[..n][i] == rows[i];
    }
  }

  /** Where a line of the merged ledger comes from: the report, or an old line of an untouched fact. */
  lemma MergedRow(s: Asset, u: Update, p: RowKey)
    requires AccountingOk(u)
    ensures var merged := MergeLedger(s.ledger, InputKeys(u.facts), u.report);
      (p in RowKeys(u.report) ==>
         p in merged && exists i :: 0 <= i < |u.report| && u.report[i].key == p && merged[p] == u.report[i]) &&
      (p !in RowKeys(u.report) ==>
         (p in merged <==> p in s.ledger && !Dropped(s.ledger[p], InputKeys(u.facts))) &&
         (p in merged ==> merged[p] == s.ledger[p]))
  {
    hide InputKeys, MappedKey, WellShaped, ValidDigest, CountMapped, MappedKeys, Dropped;
    AddedRows(KeptRows(s.ledger, InputKeys(u.facts)), u.report);
    if p in RowKeys(u.report) {
      var i :| 0 <= i < |u.report| && u.report[i].key == p;
      assert MergeLedger(s.ledger, InputKeys(u.facts), u.report)[u.report[i].key] == u.report[i];
    }
  }

  lemma ReportRowMaps(u: Update, i: nat)
    requires DistinctInputs(u.facts) && AccountingOk(u) && i < |u.report| && u.report[i].outcome == Mapped
    ensures MappedKey(u.report[i]).Some? && MappedKey(u.report[i]).value in InputKeys(u.facts)
  {
    hide InputKeys, ValidDigest, CountMapped, KeyOf, MappedKeys, DistinctInputs;
    ReportMapsTheInputs(u);
    assert WellShaped(u.report[i]);
    MappedKeysContain(u.report, i, MappedKey(u.report[i]).value);
  }

  /** A reported mapping names a fact of the update, by its id, its dimensions and its origin. */
  lemma ReportRowOk(catalog: Catalog, facts: Facts, u: Update, i: nat)
    requires BarFree(catalog) && FactsOk(catalog, facts, u.evaluated) && DistinctInputs(u.facts) && AccountingOk(u)
    requires forall j :: 0 <= j < |u.facts| ==> Installed(facts, u.source, u.facts[j])
    requires i < |u.report|
    ensures RowOk(facts, u.report[i].key, u.report[i])
  {
    hide ValidDigest, CountMapped, KeyOf, MappedKeys, DistinctInputs, Catalogued, ValidValue, BarFree;
    var row := u.report[i];
    assert WellShaped(row) && row.key.sourceRef == u.source.observationRef;
    if row.outcome == Mapped {
      ReportRowMaps(u, i);
      var j :| 0 <= j < |u.facts| && InputKey(u.facts[j]) == MappedKey(row).value;
      assert Installed(facts, u.source, u.facts[j]);
      var f := facts[InputKey(u.facts[j])];
      assert FactOk(catalog, InputKey(u.facts[j]), f, u.evaluated);
      CataloguedKeyDetermines(catalog, f.id, f.dimensions, row.factID, row.dimensions.value);
    }
  }

  lemma KeptRowOk(facts: Facts, after: Facts, updated: set<FactKey>, p: RowKey, row: Row, t: Nanos)
    requires RowOk(facts, p, row) && !Dropped(row, updated)
    requires forall k :: k in facts ==> k in after && (k !in updated ==> after[k] == Refreshed(facts[k], t))
    ensures RowOk(after, p, row) && row.outcome == Mapped && MappedKey(row).Some? && MappedKey(row).value !in updated
  {
    hide KeyOf, EvaluateTemporal, PolicyByID;
  }

  lemma MergedRowsOk(catalog: Catalog, s: Asset, t: Nanos, u: Update, facts: Facts)
    requires BarFree(catalog) && RowsOk(s.facts, s.ledger)
    requires FactsOk(catalog, facts, u.evaluated) && DistinctInputs(u.facts) && AccountingOk(u)
    requires forall j :: 0 <= j < |u.facts| ==> Installed(facts, u.source, u.facts[j])
    requires forall k :: k in s.facts ==>
      k in facts && (k !in InputKeys(u.facts) ==> facts[k] == Refreshed(s.facts[k], u.evaluated))
    ensures RowsOk(facts, MergeLedger(s.ledger, InputKeys(u.facts), u.report))
  {
    hide InputKeys, FactsOk, AccountingOk, BarFree, MergeLedger, RowOk, Dropped, DistinctInputs, Installed, Refreshed, RowKeys;
    var merged := MergeLedger(s.ledger, InputKeys(u.facts), u.report);
    forall p | p in merged ensures RowOk(facts, p, merged[p]) {
      MergedRow(s, u, p);
      if p in RowKeys(u.report) {
        var i :| 0 <= i < |u.report| && u.report[i].key == p && merged[p] == u.report[i];
        ReportRowOk(catalog, facts, u, i);
      } else {
        KeptRowOk(s.facts, facts, InputKeys(u.facts), p, s.ledger[p], u.evaluated);
      }
    }
  }

  lemma ReportMapsOnce(u: Update, i: nat, j: nat)
    requires DistinctInputs(u.facts) && AccountingOk(u) && i < |u.report| && j < |u.report|
    requires MappedKey(u.report[i]).Some? && MappedKey(u.report[i]) == MappedKey(u.report[j])
    ensures i == j
  {
    hide ValidDigest, CountMapped, MappedKeys, DistinctInputs, InputKey, WellShaped;
    var k := MappedKey(u.report[i]).value;
    ReportRowMaps(u, i);
    assert k in InputKeys(u.facts);
    var n :| 0 <= n < |u.facts| && InputKey(u.facts[n]) == k;
    assert CountMapped(u.report, k) == 1;
    CountFinds(u.report, k);
  }

  lemma KeptRowMaps(s: Asset, updated: set<FactKey>, p: RowKey)
    requires RowsOk(s.facts, s.ledger) && p in s.ledger && !Dropped(s.ledger[p], updated)
    ensures MappedKey(s.ledger[p]).Some? && MappedKey(s.ledger[p]).value !in updated
  {
    assert RowOk(s.facts, p, s.ledger[p]);
  }

  lemma MergedMapsOnce(s: Asset, u: Update)
    requires RowsOk(s.facts, s.ledger) && MapsOnce(s.ledger) && DistinctInputs(u.facts) && AccountingOk(u)
    ensures MapsOnce(MergeLedger(s.ledger, InputKeys(u.facts), u.report))
  {
    hide InputKeys, AccountingOk, MergeLedger, RowsOk, Dropped, DistinctInputs, RowKeys, MappedKey;
    var merged := MergeLedger(s.ledger, InputKeys(u.facts), u.report);
    forall p, q | p in merged && q in merged && MappedKey(merged[p]).Some? && MappedKey(merged[p]) == MappedKey(merged[q])
      ensures p == q
    {
      MergedRow(s, u, p);
      MergedRow(s, u, q);
      if p in RowKeys(u.report) {
        var i :| 0 <= i < |u.report| && u.report[i].key == p && merged[p] == u.report[i];
        MapsMeansMapped(u.report[i]);
        ReportRowMaps(u, i);
        if q in RowKeys(u.report) {
          var j :| 0 <= j < |u.report| && u.report[j].key == q && merged[q] == u.report[j];
          ReportMapsOnce(u, i, j);
        } else {
          KeptRowMaps(s, InputKeys(u.facts), q);
        }
      } else {
        KeptRowMaps(s, InputKeys(u.facts), p);
        if q in RowKeys(u.report) {
          var j :| 0 <= j < |u.report| && u.report[j].key == q && merged[q] == u.report[j];
          MapsMeansMapped(u.report[j]);
          ReportRowMaps(u, j);
        }
      }
    }
  }

  lemma MapsMeansMapped(row: Row)
    ensures MappedKey(row).Some? ==> row.outcome == Mapped
  {}

  lemma MergedRequested(s: Asset, u: Update)
    requires s.requested == s.ledger.Keys && WithinLimits(u) && AccountingOk(u)
    ensures MergeRequested(s.requested, s.ledger, InputKeys(u.facts), u.requested) ==
            MergeLedger(s.ledger, InputKeys(u.facts), u.report).Keys
  {
    hide InputKeys, MappedKey, WellShaped, ValidDigest, CountMapped, MappedKeys, Dropped;
    AddedRows(KeptRows(s.ledger, InputKeys(u.facts)), u.report);
    ReportAnswersTheRequest(u);
    assert Outputs(u.requested) == set i | 0 <= i < |u.requested| :: u.requested[i];
  }

  lemma MergedOrigins(s: Asset, u: Update, facts: Facts)
    requires OriginsNamed(s.origins) && OriginsCover(s.origins, s.facts)
    requires facts.Keys == s.facts.Keys + InputKeys(u.facts)
    requires forall k :: k in s.facts && k !in InputKeys(u.facts) ==> facts[k] == Refreshed(s.facts[k], u.evaluated)
    requires forall j :: 0 <= j < |u.facts| ==> Installed(facts, u.source, u.facts[j])
    ensures OriginsNamed(Committed(s, u, facts).origins) && OriginsCover(Committed(s, u, facts).origins, facts)
    ensures OriginsExact(Committed(s, u, facts))
  {
    hide InputKey, MergeLedger, MergeRequested, EvaluateTemporal, PolicyByID;
    var origins := s.origins[u.source.observationRef := u.source];
    forall k | k in facts ensures facts[k].originRef in origins {
      if k in InputKeys(u.facts) {
        var j :| 0 <= j < |u.facts| && InputKey(u.facts[j]) == k;
        assert Installed(facts, u.source, u.facts[j]);
      } else {
        assert facts[k].originRef == s.facts[k].originRef;
      }
    }
  }

  /** An accepted update stores a well-formed asset, whatever came before. */
  lemma ApplyKeeps(env: Admission, catalog: Catalog, s: Asset, t: Nanos, u: Update)
    requires BarFree(catalog) && Ledgered(catalog, s, t) && Apply(env, catalog, s, u).Ok?
    ensures Stored(catalog, Apply(env, catalog, s, u).value, u.evaluated)
    ensures Apply(env, catalog, s, u).value.generation == s.generation + 1
  {
    hide FactsOk, InputKeys, AccountingOk, BarFree, MergeLedger, MergeRequested, RowsOk, MapsOnce, DistinctInputs,
      Installed, Refreshed, UpdateFacts, ValidProvenance, WithinLimits, OriginsNamed, OriginsCover, OriginsExact,
      PruneOrigins, ThreePhaseSatisfied;
    UpdatedFacts(catalog, s, t, u);
    var facts := UpdateFacts(catalog, s, u).value;
    MergedRowsOk(catalog, s, t, u, facts);
    MergedMapsOnce(s, u);
    MergedRequested(s, u);
    MergedOrigins(s, u, facts);
  }
}
