// The catalog of pv/catalog.go, and the one way an accepted update can lose a mapped row.
module PvCatalog {
  import opened Numerals
  import opened PvCounter
  import opened PvFacts
  import opened PvRegistry
  import opened PvInvariant
  import opened PvTheorems

  function DecimalFact(unit: string, dimension: DimensionKind, policy: PolicyID, accumulator: bool): FactDefinition
  {
    FactDefinition(DecimalKind, unit, dimension, policy, accumulator, {})
  }

  const OPERATING_STATES: set<string> :=
    {"UNKNOWN", "OFF", "STANDBY", "STARTING", "OPERATING", "DERATED", "FAULT", "SHUTTING_DOWN"}

  const EVENT_FLAGS: set<string> :=
    {"GROUND_FAULT", "DC_OVER_VOLTAGE", "AC_DISCONNECT", "DC_DISCONNECT", "GRID_DISCONNECT", "CABINET_OPEN",
     "MANUAL_SHUTDOWN", "OVER_TEMPERATURE", "FREQUENCY_OUT_OF_RANGE", "VOLTAGE_OUT_OF_RANGE",
     "COMMUNICATION_FAULT", "INTERNAL_FAULT"}

  /** CatalogV1 */
  function CatalogV1(addressLike: string -> bool): Catalog
  {
    Catalog(map[
      "pv.ac.power.active" := DecimalFact("W", ByScope, TelemetryFast, false),
      "pv.ac.power.apparent" := DecimalFact("VA", ByScope, TelemetryFast, false),
      "pv.ac.power.reactive" := DecimalFact("var", ByScope, TelemetryFast, false),
      "pv.ac.power_factor" := DecimalFact("1", ByScope, TelemetryFast, false),
      "pv.ac.frequency" := DecimalFact("Hz", ByScope, TelemetryFast, false),
      "pv.ac.current" := DecimalFact("A", ByPhase, TelemetryFast, false),
      "pv.ac.voltage.line_to_neutral" := DecimalFact("V", ByPhase, TelemetryFast, false),
      "pv.ac.voltage.line_to_line" := DecimalFact("V", ByPhasePair, TelemetryFast, false),
      "pv.energy.active_export_total" := DecimalFact("Wh", ByScope, Accumulator, true),
      "pv.dc.current" := DecimalFact("A", ByInput, TelemetryFast, false),
      "pv.dc.voltage" := DecimalFact("V", ByInput, TelemetryFast, false),
      "pv.dc.power.active" := DecimalFact("W", ByInput, TelemetryFast, false),
      "pv.dc.energy.active_total" := DecimalFact("Wh", ByInput, Accumulator, true),
      "pv.temperature" := DecimalFact("Cel", BySensor, TelemetryFast, false),
      "pv.operating.state" := FactDefinition(EnumKind, "1", ByScope, Status, false, OPERATING_STATES),
      "pv.event.flags" := FactDefinition(BitfieldKind, "1", ByScope, Status, false, EVENT_FLAGS),
      "pv.rating.ac.active_power" := DecimalFact("W", ByScope, Rating, false)
    ], addressLike)
  }

  lemma PowerIds()
    ensures Lacks("pv.ac.power.active", '|') && Lacks("pv.ac.power.apparent", '|') && Lacks("pv.ac.power.reactive", '|')
  {}

  lemma AcIds()
    ensures Lacks("pv.ac.power_factor", '|') && Lacks("pv.ac.frequency", '|') && Lacks("pv.ac.current", '|')
  {}

  lemma VoltageIds()
    ensures Lacks("pv.ac.voltage.line_to_neutral", '|') && Lacks("pv.ac.voltage.line_to_line", '|')
  {}

  lemma EnergyIds()
    ensures Lacks("pv.energy.active_export_total", '|') && Lacks("pv.dc.energy.active_total", '|')
  {}

  lemma DcIds()
    ensures Lacks("pv.dc.current", '|') && Lacks("pv.dc.voltage", '|') && Lacks("pv.dc.power.active", '|')
  {}

  lemma OtherIds()
    ensures Lacks("pv.temperature", '|') && Lacks("pv.operating.state", '|') && Lacks("pv.event.flags", '|')
  {}

  lemma RatingIds()
    ensures Lacks("pv.rating.ac.active_power", '|')
  {}

  /** The catalog meets what the theorems ask of it. */
  lemma CatalogIsBarFree(addressLike: string -> bool)
    ensures BarFree(CatalogV1(addressLike))
  {
    hide Lacks, DecimalFact, OPERATING_STATES, EVENT_FLAGS;
    PowerIds();
    AcIds();
    VoltageIds();
    EnergyIds();
    DcIds();
    OtherIds();
    RatingIds();
  }

  // ---- a line answered twice ---------------------------------------------------------------

  function Ref(): Digest
  {
    "sha256:" + seq(64, i => '0')
  }

  function Source(): Provenance
  {
    Provenance(SourceIdentity("sunspec", "sunspec@1", "1", "terminal_verified"), Ref(), Ref(), Ref(), Ref())
  }

  function Line(): RowKey
  {
    RowKey(Ref(), Ref())
  }

  const TOTAL := Dimensions("total", "", "", "", "")

  // An update of one fact at time zero, answered on the one line.
  function Sample(id: string, unit: string): Update
  {
    Update(
      "pv-asset-1", 0, TimeUnavailable, Source(),
      [FactInput(Candidate(id, TOTAL, FactValue(DecimalKind, Some(Decimal("0", 0)), "", []), unit),
                 Good, 0, TelemetryFast, NO_EVIDENCE)],
      CAPABILITY_ID, NotSatisfied, [Line()], [Row(Line(), id, Some(TOTAL), Mapped)])
  }

  function Open(): Admission
  {
    Admission((identity: SourceIdentity) => Some(Ref()), (ref: string) => true, (identity: SourceIdentity) => true)
  }

  ghost predicate Plain(catalog: Catalog, id: string, unit: string)
  {
    id in catalog.facts && catalog.facts[id] == DecimalFact(unit, ByScope, TelemetryFast, false) &&
    id != "pv.operating.state"
  }

  lemma SampleAdmitted(id: string, unit: string)
    requires id != ""
    ensures Admit(Open(), Sample(id, unit)).None?
  {
    hide KeyOf;
    var u := Sample(id, unit);
    assert MappedKey(u.report[0]) == Some(InputKey(u.facts[0]));
    assert MappedKeys(u.report) == {InputKey(u.facts[0])};
    assert u.report[..0] == [];
    assert CountMapped(u.report, InputKey(u.facts[0])) == 1;
  }

  lemma ZeroIsValid()
    ensures Valid(Decimal("0", 0))
  {}

  lemma SampleFact(catalog: Catalog, facts: Facts, origins: map<Digest, Provenance>, id: string, unit: string)
    requires Plain(catalog, id, unit)
    ensures ApplyFact(catalog, facts, origins, Source(), 0, Sample(id, unit).facts[0]).Ok?
  {
    hide Valid;
    ZeroIsValid();
  }

  lemma TotalIsCatalogued(catalog: Catalog, id: string, unit: string)
    requires Plain(catalog, id, unit)
    ensures Catalogued(catalog, id, TOTAL)
  {}

  lemma Within<T>(x: set<T>, y: set<T>)
    requires x <= y
    ensures |x| <= |y|
  {
    assert |y - x| == |y| - |x|;
  }

  const STATE := "pv.operating.state"

  ghost predicate Roomy(s: Asset)
  {
    |s.facts| <= 10 && |s.requested| <= 10 && s.origins.Keys <= {Ref()} &&
    (Ref() in s.origins ==> s.origins[Ref()] == Source()) && KeyOf(STATE, TOTAL) !in s.facts
  }

  lemma SampleInstalls(catalog: Catalog, s: Asset, id: string, unit: string)
    requires BarFree(catalog) && Plain(catalog, id, unit) && FactsOk(catalog, s.facts, 0)
    requires Ref() in s.origins ==> s.origins[Ref()] == Source()
    ensures UpdateFacts(catalog, s, Sample(id, unit)).Ok?
  {
    hide FactsOk, ApplyFact, EvaluateRetained, KeyOf, Plain, BarFree;
    var u := Sample(id, unit);
    EvaluatedAgain(catalog, s.facts, 0);
    var origins := s.origins[Ref() := Source()];
    SampleFact(catalog, s.facts, origins, id, unit);
    assert u.facts[..0] == [];
    assert ApplyFacts(catalog, s.facts, origins, Source(), 0, []) == Ok(s.facts);
    assert ApplyFacts(catalog, s.facts, origins, Source(), 0, u.facts).Ok?;
    AppliedFacts(catalog, s.facts, origins, Source(), 0, u.facts);
    EvaluatedAgain(catalog, ApplyFacts(catalog, s.facts, origins, Source(), 0, u.facts).value, 0);
  }

  lemma StateMissing(catalog: Catalog, facts: Facts, id: string, unit: string)
    requires BarFree(catalog) && Plain(catalog, id, unit) && facts.Keys == facts.Keys - {KeyOf(STATE, TOTAL)} + {KeyOf(id, TOTAL)}
    ensures KeyOf(STATE, TOTAL) !in facts && !ThreePhaseSatisfied(facts)
  {
    hide KeyOf;
    TotalIsCatalogued(catalog, id, unit);
    if KeyOf(STATE, TOTAL) == KeyOf(id, TOTAL) {
      CataloguedKeyDetermines(catalog, id, TOTAL, STATE, TOTAL);
    }
    assert ByTotal(STATE) in RequiredKeys();
  }

  lemma OneLineAdded(ledger: map<RowKey, Row>, row: Row)
    ensures AddRows(ledger, [row]) == ledger[row.key := row]
  {
    assert [row][..0] == [];
    assert AddRows(ledger, []) == ledger;
  }

  lemma OneOrigin(s: Asset, u: Update, facts: Facts)
    requires s.origins.Keys <= {Ref()} && u.source == Source()
    ensures var origins := PruneOrigins(s.origins[u.source.observationRef := u.source], u.source, facts);
      origins.Keys <= {Ref()} && OriginAt(origins, Ref()) == Source()
  {
    hide Ref;
    assert u.source.observationRef in Referenced(u.source, facts);
  }

  lemma OneLineRequested(requested: set<RowKey>, ledger: map<RowKey, Row>, k: FactKey)
    ensures MergeRequested(requested, ledger, {k}, [Line()]) <= requested + {Line()}
  {
    hide Line, Dropped;
  }

  lemma OneLineKept(ledger: map<RowKey, Row>, k: FactKey)
    ensures KeptRows(ledger, {k}).Keys <= ledger.Keys
  {
    hide Dropped;
  }

  // What the one line and the one fact make of an asset.
  lemma OneLineCommits(s: Asset, u: Update, k: FactKey, row: Row, facts: Facts)
    requires Roomy(s) && s.requested == s.ledger.Keys && facts.Keys == s.facts.Keys + {k}
    requires InputKeys(u.facts) == {k} && u.source == Source() && row.key == Line() && u.requested == [Line()] && u.report == [row]
    ensures var after := Committed(s, u, facts);
      !TooLarge(after) && after.ledger == KeptRows(s.ledger, {k})[Line() := row] &&
      after.requested <= s.requested + {Line()} && after.origins.Keys <= {Ref()} && OriginAt(after.origins, Ref()) == Source()
  {
    hide Ref, Line, Source, InputKeys, Dropped, KeyOf, PruneOrigins, AddRows, TooLarge, MergeRequested, KeptRows;
    OneLineRequested(s.requested, s.ledger, k);
    OneLineKept(s.ledger, k);
    var after := Committed(s, u, facts);
    OneLineAdded(KeptRows(s.ledger, {k}), row);
    OneOrigin(s, u, facts);
    SmallAsset(s, after, k);
  }

  lemma SmallAsset(s: Asset, after: Asset, k: FactKey)
    requires |s.facts| <= 10 && |s.requested| <= 10
    requires after.facts.Keys == s.facts.Keys + {k} && after.requested <= s.requested + {Line()}
    requires after.ledger.Keys <= s.requested + {Line()} && after.origins.Keys <= {Ref()}
    ensures !TooLarge(after)
  {
    hide Ref, Line;
    Within(after.requested, s.requested + {Line()});
    Within(after.ledger.Keys, s.requested + {Line()});
    Within(after.origins.Keys, {Ref()});
    Within(after.facts.Keys, s.facts.Keys + {k});
  }

  lemma SampleShape(id: string, unit: string)
    ensures var u := Sample(id, unit);
      InputKeys(u.facts) == {KeyOf(id, TOTAL)} && DistinctInputs(u.facts) && u.source == Source() && u.requested == [Line()] &&
      u.source.observationRef == Ref() && u.report == [Row(Line(), id, Some(TOTAL), Mapped)] && u.evaluated == 0
  {
    hide KeyOf, Ref, Line;
    assert InputKey(Sample(id, unit).facts[0]) == KeyOf(id, TOTAL);
  }

  lemma AcceptedWhen(env: Admission, catalog: Catalog, s: Asset, u: Update)
    requires Admit(env, u).None? && UpdateFacts(catalog, s, u).Ok? && u.capabilityID == CAPABILITY_ID
    requires u.capability == if ThreePhaseSatisfied(UpdateFacts(catalog, s, u).value) then Satisfied else NotSatisfied
    requires !TooLarge(Committed(s, u, UpdateFacts(catalog, s, u).value))
    ensures Apply(env, catalog, s, u) == Ok(Committed(s, u, UpdateFacts(catalog, s, u).value))
  {
    hide Admit, UpdateFacts, ThreePhaseSatisfied, Committed;
  }

  lemma SampleAccepted(catalog: Catalog, s: Asset, id: string, unit: string)
    requires BarFree(catalog) && Plain(catalog, id, unit) && id != "" && Ledgered(catalog, s, 0) && Roomy(s)
    ensures Apply(Open(), catalog, s, Sample(id, unit)).Ok?
    ensures var after := Apply(Open(), catalog, s, Sample(id, unit)).value;
      after.facts.Keys == s.facts.Keys + {KeyOf(id, TOTAL)} && KeyOf(STATE, TOTAL) !in after.facts &&
      after.ledger == KeptRows(s.ledger, {KeyOf(id, TOTAL)})[Line() := Row(Line(), id, Some(TOTAL), Mapped)] &&
      after.requested <= s.requested + {Line()} && after.origins.Keys <= {Ref()} &&
      OriginAt(after.origins, Ref()) == Source()
  {
    hide FactsOk, Plain, BarFree, Admit, UpdateFacts, ThreePhaseSatisfied, KeyOf, RowsOk, MapsOnce, OriginsNamed,
      OriginsCover, Apply, Ref, Line, MergeLedger, MergeRequested, PruneOrigins, InputKeys, Source, DistinctInputs, KeptRows, TooLarge;
    var u := Sample(id, unit);
    SampleAdmitted(id, unit);
    SampleInstalls(catalog, s, id, unit);
    SampleShape(id, unit);
    UpdatedFacts(catalog, s, 0, u);
    var facts := UpdateFacts(catalog, s, u).value;
    StateMissing(catalog, facts, id, unit);
    OneLineCommits(s, u, KeyOf(id, TOTAL), Row(Line(), id, Some(TOTAL), Mapped), facts);
    AcceptedWhen(Open(), catalog, s, u);
  }

  // A second sample of another fact on the same line takes the first one's row.
  lemma SecondSampleTakesTheLine(catalog: Catalog, s: Asset, x: string, y: string, unit: string)
    requires BarFree(catalog) && Plain(catalog, y, unit) && y != "" && Ledgered(catalog, s, 0) && Roomy(s)
    requires KeyOf(x, TOTAL) in s.facts && KeyOf(x, TOTAL) != KeyOf(y, TOTAL) && s.ledger.Keys <= {Line()}
    ensures Apply(Open(), catalog, s, Sample(y, unit)).Ok?
    ensures var t := Apply(Open(), catalog, s, Sample(y, unit)).value;
      KeyOf(x, TOTAL) in t.facts && !HasRow(t.ledger, KeyOf(x, TOTAL))
  {
    hide Plain, BarFree, KeyOf, Apply, Ref, Line, Sample, Source, Ledgered, Roomy, Open;
    SampleAccepted(catalog, s, y, unit);
    var t := Apply(Open(), catalog, s, Sample(y, unit)).value;
    assert t.ledger.Keys <= {Line()};
    assert MappedKey(t.ledger[Line()]) == Some(KeyOf(y, TOTAL));
  }

  /** Two accepted updates that answer the same line for two facts leave the first fact stored without a row. */
  lemma ReusedLineLosesARow(catalog: Catalog, x: string, unitX: string, y: string, unitY: string)
    requires BarFree(catalog) && Plain(catalog, x, unitX) && Plain(catalog, y, unitY) && x != y && x != "" && y != ""
    ensures var s := Run(Open(), catalog, [Sample(x, unitX), Sample(y, unitY)]).asset;
      s.generation == 2 && KeyOf(x, TOTAL) in s.facts && !HasRow(s.ledger, KeyOf(x, TOTAL))
  {
    hide Plain, BarFree, KeyOf, Apply, Ref, Line, Sample, Source, Open, Ledgered, HasRow;
    var u, v := Sample(x, unitX), Sample(y, unitY);
    FirstSample(catalog, x, unitX);
    var s := Apply(Open(), catalog, NEW_ASSET, u).value;
    TotalIsCatalogued(catalog, x, unitX);
    if KeyOf(x, TOTAL) == KeyOf(y, TOTAL) {
      CataloguedKeyDetermines(catalog, x, TOTAL, y, TOTAL);
    }
    SecondSampleTakesTheLine(catalog, s, x, y, unitY);
    ApplyKeeps(Open(), catalog, s, 0, v);
    TwoUpdates(Open(), catalog, u, v);
    SampleShape(x, unitX);
  }

  lemma TwoUpdates(env: Admission, catalog: Catalog, u: Update, v: Update)
    requires Apply(env, catalog, NEW_ASSET, u).Ok? && Apply(env, catalog, Apply(env, catalog, NEW_ASSET, u).value, v).Ok?
    ensures Run(env, catalog, [u, v]).asset == Apply(env, catalog, Apply(env, catalog, NEW_ASSET, u).value, v).value
  {
    hide Apply;
    assert [u, v][..1] == [u] && [u][..0] == [];
    assert Run(env, catalog, [u]) == History(Apply(env, catalog, NEW_ASSET, u).value, u.evaluated);
  }

  lemma FirstSample(catalog: Catalog, id: string, unit: string)
    requires BarFree(catalog) && Plain(catalog, id, unit) && id != ""
    ensures Apply(Open(), catalog, NEW_ASSET, Sample(id, unit)).Ok?
    ensures var s := Apply(Open(), catalog, NEW_ASSET, Sample(id, unit)).value;
      Ledgered(catalog, s, 0) && Roomy(s) && KeyOf(id, TOTAL) in s.facts && s.ledger.Keys <= {Line()} && s.generation == 1
  {
    hide Plain, BarFree, KeyOf, Apply, Ref, Line, Sample, Source, Open, Ledgered;
    NewAssetLedgered(catalog, 0);
    SampleShape(id, unit);
    SampleAccepted(catalog, NEW_ASSET, id, unit);
    ApplyKeeps(Open(), catalog, NEW_ASSET, 0, Sample(id, unit));
    var s := Apply(Open(), catalog, NEW_ASSET, Sample(id, unit)).value;
    StoredIsLedgered(catalog, s, 0);
    Within(s.facts.Keys, {KeyOf(id, TOTAL)});
    Within(s.requested, {Line()});
  }

  lemma FrequencyIsPlain(addressLike: string -> bool)
    ensures Plain(CatalogV1(addressLike), "pv.ac.frequency", "Hz")
    ensures Plain(CatalogV1(addressLike), "pv.ac.power_factor", "1")
  {}

  /** The same on the catalog itself: the frequency keeps its fact and loses its row to the power factor. */
  lemma ReusedLineLosesTheFrequency(addressLike: string -> bool)
    ensures var run := [Sample("pv.ac.frequency", "Hz"), Sample("pv.ac.power_factor", "1")];
      var s := Run(Open(), CatalogV1(addressLike), run).asset;
      s.generation == 2 && KeyOf("pv.ac.frequency", TOTAL) in s.facts && !HasRow(s.ledger, KeyOf("pv.ac.frequency", TOTAL))
  {
    hide Plain, BarFree, KeyOf, HasRow, Run, Sample, Open, CatalogV1;
    CatalogIsBarFree(addressLike);
    FrequencyIsPlain(addressLike);
    ReusedLineLosesARow(CatalogV1(addressLike), "pv.ac.frequency", "Hz", "pv.ac.power_factor", "1");
  }
}
