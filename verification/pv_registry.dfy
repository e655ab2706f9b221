// pv/catalog.go and pv/registry.go: the photovoltaic fact registry as functions.
module PvRegistry {
  import opened Numerals
  import opened PvCounter
  import opened PvFacts

  datatype Error =
    | InvalidFact | InvalidMonotonicTime | InvalidCounter | SourceNotAdmitted | AssetNotFound
    | InvalidProjection | InvalidCapability

  datatype Result<+T> = Ok(value: T) | Err(error: Error)

  // ---- catalog ------------------------------------------------------------------

  datatype DimensionKind = ByScope | ByPhase | ByPhasePair | ByInput | BySensor
  datatype ValueKind = DecimalKind | EnumKind | BitfieldKind | UnknownKind

  datatype FactDefinition = FactDefinition(
    kind: ValueKind, unit: string, dimension: DimensionKind, policy: PolicyID, accumulator: bool, domain: set<string>)

  /** The admitted facts, with an address-literal test that is not part of this model. */
  datatype Catalog = Catalog(facts: map<string, FactDefinition>, addressLike: string -> bool)

  datatype FactValue = FactValue(kind: ValueKind, decimal: Option<Decimal>, symbol: string, symbols: seq<string>)
  datatype Candidate = Candidate(id: string, dimensions: Dimensions, value: FactValue, unit: string)

  predicate IdentifierChar(c: char)
  {
    'A' <= c <= 'Z' || 'a' <= c <= 'z' || '0' <= c <= '9' || c == '.' || c == '_' || c == ':' || c == '-'
  }

  predicate OpaqueIdentifier(catalog: Catalog, s: string)
  {
    0 < |s| <= 64 && (forall i :: 0 <= i < |s| ==> IdentifierChar(s[i])) && !catalog.addressLike(s)
  }

  predicate ValidDimensions(catalog: Catalog, kind: DimensionKind, d: Dimensions)
  {
    |Parts(d)| == 1 &&
    match kind
    case ByScope => d.scope == "total"
    case ByPhase => d.phase == "L1" || d.phase == "L2" || d.phase == "L3"
    case ByPhasePair => d.phasePair == "L1_L2" || d.phasePair == "L2_L3" || d.phasePair == "L3_L1"
    case ByInput => OpaqueIdentifier(catalog, d.inputID)
    case BySensor => OpaqueIdentifier(catalog, d.sensorID)
  }

  predicate ValidValue(definition: FactDefinition, v: FactValue)
  {
    v.kind == definition.kind &&
    match definition.kind
    case DecimalKind => v.decimal.Some? && v.symbol == "" && v.symbols == [] && Valid(v.decimal.value)
    case EnumKind => v.decimal.None? && v.symbols == [] && v.symbol in definition.domain
    case BitfieldKind =>
      v.decimal.None? && v.symbol == "" && (forall i :: 0 <= i < |v.symbols| ==> v.symbols[i] in definition.domain) &&
      (forall i, j :: 0 <= i < j < |v.symbols| ==> v.symbols[i] != v.symbols[j])
    case UnknownKind => false
  }

  /** Catalog.ValidateCandidate */
  predicate ValidCandidate(catalog: Catalog, c: Candidate)
  {
    c.id in catalog.facts && catalog.facts[c.id].unit == c.unit &&
    ValidDimensions(catalog, catalog.facts[c.id].dimension, c.dimensions) &&
    ValidValue(catalog.facts[c.id], c.value)
  }

  // ---- updates and stored state -----------------------------------------------------

  datatype Quality = Good | Suspect | Bad | OtherQuality
  datatype SourceTime = TimeUnavailable | TimeValid | TimeInvalid | OtherTime
  datatype Outcome = Mapped | Withheld | Unrepresentable | OtherOutcome
  datatype CapabilityOutcome = Satisfied | NotSatisfied | OtherCapability

  datatype SourceIdentity = SourceIdentity(protocol: string, profileID: string, profileVersion: string, validity: string)

  datatype Provenance = Provenance(
    identity: SourceIdentity, registryRef: Digest, observationRef: Digest, shadowRef: Digest, evidenceRef: Digest)

  datatype FactInput = FactInput(
    candidate: Candidate, quality: Quality, receipt: Nanos, policy: PolicyID, counter: Evidence)

  datatype RowKey = RowKey(sourceRef: Digest, outputRef: Digest)

  /** A line of the projection ledger. */
  datatype Row = Row(key: RowKey, factID: string, dimensions: Option<Dimensions>, outcome: Outcome)

  datatype Update = Update(
    assetRef: string, evaluated: Nanos, sourceTime: SourceTime, source: Provenance, facts: seq<FactInput>,
    capabilityID: string, capability: CapabilityOutcome, requested: seq<RowKey>, report: seq<Row>)

  datatype Fact = Fact(
    id: string, dimensions: Dimensions, value: FactValue, unit: string, quality: Quality,
    availability: Availability, freshness: Freshness, temporal: Temporal, originRef: Digest,
    continuity: Option<Continuity>)

  type Facts = map<FactKey, Fact>

  datatype Asset = Asset(
    generation: nat, source: Provenance, facts: Facts, origins: map<Digest, Provenance>,
    requested: set<RowKey>, ledger: map<RowKey, Row>, sourceTime: SourceTime)

  const NO_IDENTITY := SourceIdentity("", "", "", "")
  const NO_PROVENANCE := Provenance(NO_IDENTITY, "", "", "", "")
  const NEW_ASSET := Asset(0, NO_PROVENANCE, map[], map[], {}, map[], TimeUnavailable)

  function InputKey(input: FactInput): FactKey
  {
    KeyOf(input.candidate.id, input.candidate.dimensions)
  }

  function InputKeys(inputs: seq<FactInput>): set<FactKey>
  {
    set i | 0 <= i < |inputs| :: InputKey(inputs[i])
  }

  // ---- admission ------------------------------------------------------------------------

  /** The source resolver and the character tests of references, which are not part of this model. */
  datatype Admission = Admission(
    resolve: SourceIdentity -> Option<Digest>, assetRef: string -> bool, tokens: SourceIdentity -> bool)

  predicate ValidProvenance(env: Admission, p: Provenance)
  {
    p.identity.validity == "terminal_verified" && env.tokens(p.identity) &&
    ValidDigest(p.registryRef) && ValidDigest(p.observationRef) && ValidDigest(p.shadowRef) && ValidDigest(p.evidenceRef) &&
    env.resolve(p.identity) == Some(p.registryRef)
  }

  predicate WithinLimits(u: Update)
  {
    u.sourceTime != OtherTime && 0 < |u.facts| <= 256 && 0 < |u.requested| <= 512 &&
    |u.report| <= 512 && |u.report| == |u.requested|
  }

  predicate DistinctInputs(inputs: seq<FactInput>)
  {
    forall i, j :: 0 <= i < j < |inputs| ==> InputKey(inputs[i]) != InputKey(inputs[j])
  }

  predicate WellShaped(row: Row)
  {
    match row.outcome
    case Mapped => row.factID != "" && row.dimensions.Some?
    case Withheld => row.factID == "" && row.dimensions.None?
    case Unrepresentable => row.factID == "" && row.dimensions.None?
    case OtherOutcome => false
  }

  /** The fact a row maps. */
  function MappedKey(row: Row): Option<FactKey>
  {
    if row.outcome == Mapped && row.dimensions.Some? then Some(KeyOf(row.factID, row.dimensions.value)) else None
  }

  function CountMapped(rows: seq<Row>, k: FactKey): nat
  {
    if rows == [] then 0
    else CountMapped(rows[..|rows| - 1], k) + (if MappedKey(rows[|rows| - 1]) == Some(k) then 1 else 0)
  }

  function MappedKeys(rows: seq<Row>): set<FactKey>
  {
    set i | 0 <= i < |rows| && MappedKey(rows[i]).Some? :: MappedKey(rows[i]).value
  }

  /** validateUpdateAccounting */
  predicate AccountingOk(u: Update)
  {
    (forall i :: 0 <= i < |u.requested| ==> ValidDigest(u.requested[i].sourceRef) && ValidDigest(u.requested[i].outputRef)) &&
    (forall i, j :: 0 <= i < j < |u.requested| ==> u.requested[i] != u.requested[j]) &&
    (forall i :: 0 <= i < |u.report| ==>
       u.report[i].key in u.requested && u.report[i].key.sourceRef == u.source.observationRef && WellShaped(u.report[i])) &&
    (forall i, j :: 0 <= i < j < |u.report| ==> u.report[i].key != u.report[j].key) &&
    (forall i :: 0 <= i < |u.facts| ==> CountMapped(u.report, InputKey(u.facts[i])) == 1) &&
    |MappedKeys(u.report)| == |u.facts|
  }

  function Admit(env: Admission, u: Update): Option<Error>
  {
    if !env.assetRef(u.assetRef) then Some(InvalidFact)
    else if !ValidProvenance(env, u.source) then Some(SourceNotAdmitted)
    else if !WithinLimits(u) then Some(InvalidProjection)
    else if !DistinctInputs(u.facts) then Some(InvalidFact)
    else if !AccountingOk(u) then Some(InvalidProjection)
    else if u.evaluated < 0 then Some(InvalidMonotonicTime)
    else None
  }

  // ---- evaluation of retained facts -------------------------------------------------------

  function StateOf(f: Fact, t: Nanos): Option<TemporalState>
  {
    match PolicyByID(f.temporal.policy)
    case None => None
    case Some(policy) => EvaluateTemporal(policy, f.temporal.receipt, t)
  }

  function Refreshed(f: Fact, t: Nanos): Fact
  {
    match StateOf(f, t)
    case None => f
    case Some(state) => f.(availability := state.availability, freshness := state.freshness)
  }

  /** evaluateRetainedFacts; an unknown policy is reported before a bad time. */
  function EvaluateRetained(facts: Facts, t: Nanos): Result<Facts>
  {
    if exists k :: k in facts && PolicyByID(facts[k].temporal.policy).None? then Err(InvalidFact)
    else if exists k :: k in facts && StateOf(facts[k], t).None? then Err(InvalidMonotonicTime)
    else Ok(map k | k in facts :: Refreshed(facts[k], t))
  }

  // ---- one fact ------------------------------------------------------------------------------

  predicate SameSource(x: Provenance, y: Provenance)
  {
    x.identity == y.identity && x.registryRef == y.registryRef
  }

  function OriginAt(origins: map<Digest, Provenance>, d: Digest): Provenance
  {
    if d in origins then origins[d] else NO_PROVENANCE
  }

  /** A prior value that a delta may be published against. */
  predicate Comparable(facts: Facts, origins: map<Digest, Provenance>, source: Provenance, key: FactKey)
  {
    key in facts ==> facts[key].availability == Available && SameSource(OriginAt(origins, facts[key].originRef), source)
  }

  function ContinuityOf(facts: Facts, origins: map<Digest, Provenance>, source: Provenance, key: FactKey,
                        current: Decimal, counter: Evidence): Option<Continuity>
  {
    if Comparable(facts, origins, source, key)
    then EvaluateCounter(if key in facts then facts[key].value.decimal else None, current, counter)
    else Some(Continuity(Discontinuity, None, None, ""))
  }

  function ApplyFact(catalog: Catalog, facts: Facts, origins: map<Digest, Provenance>, source: Provenance,
                     evaluated: Nanos, input: FactInput): Result<Fact>
  {
    var c := input.candidate;
    if !ValidCandidate(catalog, c) || catalog.facts[c.id].policy != input.policy || input.quality == OtherQuality ||
       PolicyByID(input.policy).None?
    then Err(InvalidFact)
    else
      match EvaluateTemporal(PolicyByID(input.policy).value, input.receipt, evaluated)
      case None => Err(InvalidMonotonicTime)
      case Some(state) =>
        var fact := Fact(c.id, c.dimensions, c.value, c.unit, input.quality, state.availability, state.freshness,
                         state.temporal, source.observationRef, None);
        if catalog.facts[c.id].accumulator then
          if c.value.decimal.None? then Err(InvalidFact)
          else
            match ContinuityOf(facts, origins, source, InputKey(input), c.value.decimal.value, input.counter)
            case None => Err(InvalidCounter)
            case Some(continuity) => Ok(fact.(continuity := Some(continuity)))
        else if input.counter != NO_EVIDENCE then Err(InvalidCounter)
        else Ok(fact)
  }

  function ApplyFacts(catalog: Catalog, facts: Facts, origins: map<Digest, Provenance>, source: Provenance,
                      evaluated: Nanos, inputs: seq<FactInput>): Result<Facts>
  {
    if inputs == [] then Ok(facts)
    else
      var n := |inputs| - 1;
      match ApplyFacts(catalog, facts, origins, source, evaluated, inputs[..n])
      case Err(error) => Err(error)
      case Ok(before) =>
        match ApplyFact(catalog, before, origins, source, evaluated, inputs[n])
        case Err(error) => Err(error)
        case Ok(fact) => Ok(before[InputKey(inputs[n]) := fact])
  }

  // ---- capability -------------------------------------------------------------------------------

  const CAPABILITY_ID := "helianthus.pv.inverter.three_phase.telemetry.v1"

  function ByTotal(id: string): FactKey { KeyOf(id, Dimensions("total", "", "", "", "")) }
  function ForPhase(id: string, phase: string): FactKey { KeyOf(id, Dimensions("", phase, "", "", "")) }

  function RequiredKeys(): set<FactKey>
  {
    {ByTotal("pv.ac.power.active"), ByTotal("pv.ac.frequency"), ByTotal("pv.energy.active_export_total"),
     ByTotal("pv.operating.state"),
     ForPhase("pv.ac.current", "L1"), ForPhase("pv.ac.current", "L2"), ForPhase("pv.ac.current", "L3"),
     ForPhase("pv.ac.voltage.line_to_neutral", "L1"), ForPhase("pv.ac.voltage.line_to_neutral", "L2"),
     ForPhase("pv.ac.voltage.line_to_neutral", "L3")}
  }

  predicate ThreePhaseSatisfied(facts: Facts)
  {
    forall k :: k in RequiredKeys() ==>
      k in facts && (facts[k].availability == Available || facts[k].availability == Unavailable)
  }

  // ---- accounting ----------------------------------------------------------------------------------

  /** mergeAccounting drops a mapped row whose fact is updated, and every row that maps nothing. */
  predicate Dropped(row: Row, updated: set<FactKey>)
  {
    if row.dimensions.Some? then KeyOf(row.factID, row.dimensions.value) in updated else row.outcome != Mapped
  }

  function KeptRows(ledger: map<RowKey, Row>, updated: set<FactKey>): map<RowKey, Row>
  {
    map p | p in ledger && !Dropped(ledger[p], updated) :: ledger[p]
  }

  function AddRows(ledger: map<RowKey, Row>, rows: seq<Row>): map<RowKey, Row>
  {
    if rows == [] then ledger else AddRows(ledger, rows[..|rows| - 1])[rows[|rows| - 1].key := rows[|rows| - 1]]
  }

  function MergeLedger(ledger: map<RowKey, Row>, updated: set<FactKey>, report: seq<Row>): map<RowKey, Row>
  {
    AddRows(KeptRows(ledger, updated), report)
  }

  function MergeRequested(requested: set<RowKey>, ledger: map<RowKey, Row>, updated: set<FactKey>, more: seq<RowKey>): set<RowKey>
  {
    (set p | p in requested && !(p in ledger && Dropped(ledger[p], updated))) + (set i | 0 <= i < |more| :: more[i])
  }

  function Referenced(source: Provenance, facts: Facts): set<Digest>
  {
    {source.observationRef} + (set k | k in facts :: facts[k].originRef)
  }

  function PruneOrigins(origins: map<Digest, Provenance>, source: Provenance, facts: Facts): map<Digest, Provenance>
  {
    map d | d in origins && d in Referenced(source, facts) :: origins[d]
  }

  // ---- Apply and Snapshot ----------------------------------------------------------------------------

  // The facts after the update, with the origins they are judged against.
  function UpdateFacts(catalog: Catalog, s: Asset, u: Update): Result<Facts>
  {
    match EvaluateRetained(s.facts, u.evaluated)
    case Err(error) => Err(error)
    case Ok(retained) =>
      if u.source.observationRef in s.origins && s.origins[u.source.observationRef] != u.source
      then Err(SourceNotAdmitted)
      else
        match ApplyFacts(catalog, retained, s.origins[u.source.observationRef := u.source], u.source, u.evaluated, u.facts)
        case Err(error) => Err(error)
        case Ok(facts) => EvaluateRetained(facts, u.evaluated)
  }

  function Committed(s: Asset, u: Update, facts: Facts): Asset
  {
    Asset(
      s.generation + 1, u.source, facts,
      PruneOrigins(s.origins[u.source.observationRef := u.source], u.source, facts),
      MergeRequested(s.requested, s.ledger, InputKeys(u.facts), u.requested),
      MergeLedger(s.ledger, InputKeys(u.facts), u.report), u.sourceTime)
  }

  predicate TooLarge(s: Asset)
  {
    |s.facts| > 256 || |s.origins| > 256 || |s.requested| > 512 || |s.ledger| > 512
  }

  /** Apply after the admission of the update. */
  function Transact(catalog: Catalog, s: Asset, u: Update): Result<Asset>
  {
    match UpdateFacts(catalog, s, u)
    case Err(error) => Err(error)
    case Ok(facts) =>
      if u.capabilityID != CAPABILITY_ID ||
         u.capability != (if ThreePhaseSatisfied(facts) then Satisfied else NotSatisfied)
      then Err(InvalidCapability)
      else if TooLarge(Committed(s, u, facts)) then Err(InvalidProjection)
      else Ok(Committed(s, u, facts))
  }

  function Apply(env: Admission, catalog: Catalog, s: Asset, u: Update): Result<Asset>
  {
    match Admit(env, u)
    case Some(error) => Err(error)
    case None => Transact(catalog, s, u)
  }

  function Snapshot(s: Asset, evaluated: Nanos): Result<Asset>
  {
    if evaluated < 0 then Err(InvalidMonotonicTime)
    else
      match EvaluateRetained(s.facts, evaluated)
      case Err(error) => Err(error)
      case Ok(facts) => Ok(s.(facts := facts, origins := PruneOrigins(s.origins, s.source, facts)))
  }
}
