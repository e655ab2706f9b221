// pv/lifecycle.go, pv/catalog.go and the keys of pv/types.go.
module PvFacts {
  import opened Numerals
  import opened PvCounter

  // ---- monotonic time: int64, so every sum below is checked against overflow ---------

  newtype Nanos = x: int | -0x8000_0000_0000_0000 <= x < 0x8000_0000_0000_0000

  const MAX_NANOS: Nanos := 0x7FFF_FFFF_FFFF_FFFF

  datatype PolicyID = TelemetryFast | Status | Accumulator | Rating | OtherPolicy(name: string)

  datatype FreshnessPolicy = FreshnessPolicy(id: PolicyID, freshFor: Nanos, retainFor: Nanos)

  function PolicyByID(id: PolicyID): Option<FreshnessPolicy>
  {
    match id
    case TelemetryFast => Some(FreshnessPolicy(id, 30_000_000_000, 300_000_000_000))
    case Status => Some(FreshnessPolicy(id, 60_000_000_000, 600_000_000_000))
    case Accumulator => Some(FreshnessPolicy(id, 900_000_000_000, 86_400_000_000_000))
    case Rating => Some(FreshnessPolicy(id, 86_400_000_000_000, 2_592_000_000_000_000))
    case OtherPolicy(_) => None
  }

  datatype Availability = Available | Unavailable | Unsupported
  datatype Freshness = Fresh | Stale | Expired

  datatype Temporal = Temporal(receipt: Nanos, freshUntil: Nanos, retainUntil: Nanos, policy: PolicyID)
  datatype TemporalState = TemporalState(availability: Availability, freshness: Freshness, temporal: Temporal)

  /** The freshness of a receipt at a time, or None for ErrInvalidMonotonicTime. */
  function EvaluateTemporal(policy: FreshnessPolicy, receipt: Nanos, evaluated: Nanos): Option<TemporalState>
  {
    if receipt < 0 || evaluated < receipt || policy.freshFor <= 0 || policy.retainFor <= policy.freshFor then None
    else if receipt > MAX_NANOS - policy.retainFor then None
    else
      var temporal := Temporal(receipt, receipt + policy.freshFor, receipt + policy.retainFor, policy.id);
      Some(if evaluated >= temporal.retainUntil then TemporalState(Unavailable, Expired, temporal)
           else if evaluated >= temporal.freshUntil then TemporalState(Available, Stale, temporal)
           else TemporalState(Available, Fresh, temporal))
  }

  function Age(f: Freshness): nat
  {
    match f
    case Fresh => 0
    case Stale => 1
    case Expired => 2
  }

  /** A receipt that evaluates once evaluates at every later time; its window stays, its freshness only
      moves forward, and it is unavailable exactly when expired. */
  lemma FreshnessMovesForward(policy: FreshnessPolicy, receipt: Nanos, t: Nanos, u: Nanos)
    requires EvaluateTemporal(policy, receipt, t).Some? && t <= u
    ensures EvaluateTemporal(policy, receipt, u).Some?
    ensures var a, b := EvaluateTemporal(policy, receipt, t).value, EvaluateTemporal(policy, receipt, u).value;
      a.temporal == b.temporal && Age(a.freshness) <= Age(b.freshness) &&
      (b.availability == Unavailable <==> b.freshness == Expired) && b.availability != Unsupported
  {}

  /** Evaluation fails exactly on a time before the receipt, a receipt before zero, or a window past int64. */
  lemma TemporalFailsExactly(id: PolicyID, receipt: Nanos, evaluated: Nanos)
    requires PolicyByID(id).Some?
    ensures EvaluateTemporal(PolicyByID(id).value, receipt, evaluated).Some? <==>
      0 <= receipt <= evaluated &&
      receipt as int + PolicyByID(id).value.retainFor as int <= MAX_NANOS as int
  {}

  // ---- dimensions and fact keys ---------------------------------------------------------

  datatype Dimensions = Dimensions(scope: string, phase: string, phasePair: string, inputID: string, sensorID: string)

  function Part(name: string, value: string): seq<string>
  {
    if value == "" then [] else [name + value]
  }

  // The present parts in sorted order: the order of their names.
  function Parts(d: Dimensions): seq<string>
  {
    Part("input_id=", d.inputID) + (Part("phase=", d.phase) + (Part("phase_pair=", d.phasePair) +
    (Part("scope=", d.scope) + Part("sensor_id=", d.sensorID))))
  }

  function Join(parts: seq<string>): string
  {
    if parts == [] then ""
    else if |parts| == 1 then parts[0]
    else parts[0] + "," + Join(parts[1..])
  }

  type FactKey = string

  /** NewFactKey */
  function KeyOf(id: string, d: Dimensions): FactKey
  {
    id + "|" + Join(Parts(d))
  }

  predicate Lacks(s: string, c: char)
  {
    forall i :: 0 <= i < |s| ==> s[i] != c
  }

  // The one present dimension.
  function OnlyPart(d: Dimensions): string
  {
    if |Parts(d)| == 1 then Parts(d)[0] else ""
  }

  lemma JoinHasComma(parts: seq<string>)
    requires |parts| >= 2
    ensures !Lacks(Join(parts), ',')
  {
    assert Join(parts)[|parts[0]|] == ',';
  }

  lemma SplitAtBar(x: string, y: string, x': string, y': string)
    requires x + "|" + y == x' + "|" + y' && Lacks(x, '|') && Lacks(y, '|')
    ensures x == x' && y == y'
  {
    var s := x + "|" + y;
    assert s == x' + "|" + y';
    assert s[|x'|] == '|' && s[|x|] == '|';
    assert forall i :: 0 <= i < |x| ==> s[i] == x[i];
    assert forall i :: |x| < i < |s| ==> s[i] == y[i - |x| - 1];
    assert |x| == |x'|;
    assert x == s[..|x|] && x' == s[..|x'|];
    assert y == s[|x| + 1..] && y' == s[|x'| + 1..];
  }

  /** A printed key determines the fact and its dimensions, among all ids and dimensions whatever, as soon
      as one side is a bar-free id with one dimension free of bars and commas. */
  lemma KeyDetermines(id: string, d: Dimensions, id': string, d': Dimensions)
    requires KeyOf(id, d) == KeyOf(id', d')
    requires Lacks(id, '|') && |Parts(d)| == 1 && Lacks(OnlyPart(d), '|') && Lacks(OnlyPart(d), ',')
    ensures id == id' && d == d'
  {
    SplitAtBar(id, Join(Parts(d)), id', Join(Parts(d')));
    assert Join(Parts(d)) == OnlyPart(d) && OnlyPart(d) != "";
    if |Parts(d')| >= 2 { JoinHasComma(Parts(d')); }
    assert |Parts(d')| == 1;
    assert OnlyPart(d) == OnlyPart(d');
    OnlyPartDetermines(d, d');
  }

  lemma NameCancels(name: string, x: string, y: string)
    requires name + x == name + y
    ensures x == y
  {
    assert x == (name + x)[|name|..] && y == (name + y)[|name|..];
  }

  lemma SinglePart(d: Dimensions)
    requires |Parts(d)| == 1
    ensures (d == Dimensions("", "", "", d.inputID, "") && OnlyPart(d) == "input_id=" + d.inputID) ||
            (d == Dimensions("", d.phase, "", "", "") && OnlyPart(d) == "phase=" + d.phase) ||
            (d == Dimensions("", "", d.phasePair, "", "") && OnlyPart(d) == "phase_pair=" + d.phasePair) ||
            (d == Dimensions(d.scope, "", "", "", "") && OnlyPart(d) == "scope=" + d.scope) ||
            (d == Dimensions("", "", "", "", d.sensorID) && OnlyPart(d) == "sensor_id=" + d.sensorID)
  {}

  lemma OnlyPartDetermines(d: Dimensions, d': Dimensions)
    requires |Parts(d)| == 1 && |Parts(d')| == 1 && OnlyPart(d) == OnlyPart(d')
    ensures d == d'
  {
    SinglePart(d);
    SinglePart(d');
    hide Parts, OnlyPart;
    var x := OnlyPart(d);
    if x[0] == 'i' {
      NameCancels("input_id=", d.inputID, d'.inputID);
    } else if x[0] == 'p' {
      if x[5] == '=' { NameCancels("phase=", d.phase, d'.phase); }
      else { NameCancels("phase_pair=", d.phasePair, d'.phasePair); }
    } else if x[1] == 'c' {
      NameCancels("scope=", d.scope, d'.scope);
    } else {
      NameCancels("sensor_id=", d.sensorID, d'.sensorID);
    }
  }
}
