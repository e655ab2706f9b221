// pv/types.go and pv/counter.go: scaled decimals and counter continuity.
module PvCounter {
  import opened Numerals

  // ---- canonical coefficients ---------------------------------------------------

  datatype Decimal = Decimal(coefficient: string, scale: int)

  /** -?(0|[1-9][0-9]*), but not "-0". */
  predicate CanonicalInteger(s: string)
  {
    s != "-0" &&
    (var digits := if s != "" && s[0] == '-' then s[1..] else s;
     digits != "" && AllDigits(digits) && (digits[0] == '0' ==> digits == "0"))
  }

  predicate Valid(d: Decimal)
  {
    CanonicalInteger(d.coefficient) && -18 <= d.scale <= 18
  }

  function ParseInteger(s: string): int
    requires CanonicalInteger(s)
  {
    if s[0] == '-' then 0 - ParseDigits(s[1..]) else ParseDigits(s) as int
  }

  /** big.Int.String */
  function PrintInteger(n: int): string
  {
    if n < 0 then "-" + Digits(-n) else Digits(n)
  }

  /** Every printed integer is a canonical coefficient that reads back as itself. */
  lemma PrintedIsCanonical(n: int)
    ensures CanonicalInteger(PrintInteger(n)) && ParseInteger(PrintInteger(n)) == n
  {
    var s := PrintInteger(n);
    if n < 0 {
      ParseOfDigits(-n);
      assert s[1..] == Digits(-n);
      assert ParseDigits("0") == 0 by { assert "0"[..0] == ""; }
    } else {
      ParseOfDigits(n);
    }
  }

  /** A canonical coefficient is the one spelling of its value. */
  lemma CanonicalIsPrinted(s: string)
    requires CanonicalInteger(s)
    ensures PrintInteger(ParseInteger(s)) == s
  {
    if s[0] == '-' {
      DigitsOfParse(s[1..]);
      assert s == "-" + s[1..];
    } else {
      DigitsOfParse(s);
    }
  }

  // ---- exact value --------------------------------------------------------------------

  function Pow10(n: nat): nat
    ensures Pow10(n) > 0
  {
    if n == 0 then 1 else 10 * Pow10(n - 1)
  }

  lemma {:induction false} Pow10Sum(m: nat, n: nat)
    ensures Pow10(m + n) == Pow10(m) * Pow10(n)
  {
    if n > 0 {
      Pow10Sum(m, n - 1);
    }
  }

  /** coefficient * 10^(scale - target), the coefficient at a finer scale. */
  function Scaled(d: Decimal, target: int): int
    requires Valid(d) && target <= d.scale
  {
    ParseInteger(d.coefficient) * Pow10(d.scale - target)
  }

  /** The exact value of a valid decimal, counted in units of 10^-18. */
  function Units(d: Decimal): int
    requires Valid(d)
  {
    ParseInteger(d.coefficient) * Pow10(d.scale + 18)
  }

  /** Units is the value coefficient * 10^scale, on both sides of the point. */
  lemma UnitsMeaning(d: Decimal)
    requires Valid(d)
    ensures d.scale >= 0 ==> Units(d) == ParseInteger(d.coefficient) * Pow10(d.scale) * Pow10(18)
    ensures d.scale <= 0 ==> Units(d) * Pow10(-d.scale) == ParseInteger(d.coefficient) * Pow10(18)
  {
    hide Pow10, ParseInteger, CanonicalInteger;
    var c := ParseInteger(d.coefficient);
    if d.scale >= 0 {
      Pow10Sum(d.scale, 18);
      Regroup(c, Pow10(d.scale), Pow10(18));
    }
    if d.scale <= 0 {
      Pow10Sum(d.scale + 18, -d.scale);
      Regroup(c, Pow10(d.scale + 18), Pow10(-d.scale));
    }
  }

  lemma Regroup(x: int, y: int, z: int)
    ensures x * y * z == x * (y * z)
  {}

  lemma ScaledUnits(d: Decimal, target: int)
    requires Valid(d) && -18 <= target <= d.scale
    ensures Scaled(d, target) * Pow10(target + 18) == Units(d)
  {
    hide Pow10, ParseInteger, CanonicalInteger;
    Pow10Sum(d.scale - target, target + 18);
    Regroup(ParseInteger(d.coefficient), Pow10(d.scale - target), Pow10(target + 18));
  }

  function Finer(l: Decimal, r: Decimal): int
  {
    if r.scale < l.scale then r.scale else l.scale
  }

  // ---- compare, subtract, add ------------------------------------------------------------

  /** The sign of l - r. */
  function Compare(l: Decimal, r: Decimal): int
    requires Valid(l) && Valid(r)
  {
    var x, y := Scaled(l, Finer(l, r)), Scaled(r, Finer(l, r));
    if x < y then -1 else if x == y then 0 else 1
  }

  function Subtract(l: Decimal, r: Decimal): Decimal
    requires Valid(l) && Valid(r)
  {
    Decimal(PrintInteger(Scaled(l, Finer(l, r)) - Scaled(r, Finer(l, r))), Finer(l, r))
  }

  function Add(l: Decimal, r: Decimal): Decimal
    requires Valid(l) && Valid(r)
  {
    Decimal(PrintInteger(Scaled(l, Finer(l, r)) + Scaled(r, Finer(l, r))), Finer(l, r))
  }

  lemma ScalingKeepsOrder(x: int, y: int, f: nat)
    requires f > 0
    ensures x < y <==> x * f < y * f
    ensures x == y <==> x * f == y * f
  {}

  /** Comparing is comparing exact values, at any pair of scales. */
  lemma CompareExact(l: Decimal, r: Decimal)
    requires Valid(l) && Valid(r)
    ensures Compare(l, r) < 0 <==> Units(l) < Units(r)
    ensures Compare(l, r) == 0 <==> Units(l) == Units(r)
  {
    hide Units, Scaled, Pow10, CanonicalInteger;
    var t := Finer(l, r);
    ScaledUnits(l, t);
    ScaledUnits(r, t);
    ScalingKeepsOrder(Scaled(l, t), Scaled(r, t), Pow10(t + 18));
  }

  lemma PrintedUnits(n: int, t: int)
    requires -18 <= t <= 18
    ensures Valid(Decimal(PrintInteger(n), t)) && Units(Decimal(PrintInteger(n), t)) == n * Pow10(t + 18)
  {
    PrintedIsCanonical(n);
    hide PrintInteger, CanonicalInteger, ParseInteger, Pow10;
  }

  lemma Distribute(x: int, y: int, f: int)
    ensures (x + y) * f == x * f + y * f && (x - y) * f == x * f - y * f
  {}

  /** Differences are exact and valid again. */
  lemma SubtractExact(l: Decimal, r: Decimal)
    requires Valid(l) && Valid(r)
    ensures Valid(Subtract(l, r)) && Units(Subtract(l, r)) == Units(l) - Units(r)
  {
    hide Units, Scaled, Pow10, PrintInteger, CanonicalInteger;
    var t := Finer(l, r);
    PrintedUnits(Scaled(l, t) - Scaled(r, t), t);
    ScaledUnits(l, t);
    ScaledUnits(r, t);
    Distribute(Scaled(l, t), Scaled(r, t), Pow10(t + 18));
  }

  /** Sums are exact and valid again. */
  lemma AddExact(l: Decimal, r: Decimal)
    requires Valid(l) && Valid(r)
    ensures Valid(Add(l, r)) && Units(Add(l, r)) == Units(l) + Units(r)
  {
    hide Units, Scaled, Pow10, PrintInteger, CanonicalInteger;
    var t := Finer(l, r);
    PrintedUnits(Scaled(l, t) + Scaled(r, t), t);
    ScaledUnits(l, t);
    ScaledUnits(r, t);
    Distribute(Scaled(l, t), Scaled(r, t), Pow10(t + 18));
  }

  // ---- EvaluateCounter ----------------------------------------------------------------------

  type Digest = string

  predicate ValidDigest(s: Digest)
  {
    |s| == 71 && "sha256:" <= s &&
    forall i :: 7 <= i < |s| ==> IsDigit(s[i]) || 'a' <= s[i] <= 'f'
  }

  /** A digest is its algorithm's name and 64 lower-case hexadecimal digits. */
  lemma DigestForm(hex: string)
    ensures ValidDigest("sha256:" + hex) <==> |hex| == 64 && forall i :: 0 <= i < |hex| ==> hex[i] in "0123456789abcdef"
  {
    var s := "sha256:" + hex;
    assert |"sha256:"| == 7 && forall i :: 0 <= i < |hex| ==> s[i + 7] == hex[i];
    assert forall i :: 7 <= i < |s| ==> s[i] == hex[i - 7];
    forall c: char ensures c in "0123456789abcdef" <==> IsDigit(c) || 'a' <= c <= 'f' { HexDigits(c); }
  }

  lemma HexDigits(c: char)
    ensures c in "0123456789abcdef" <==> IsDigit(c) || 'a' <= c <= 'f'
  {
    var all := "0123456789abcdef";
    if IsDigit(c) { assert all[c as int - '0' as int] == c; }
    if 'a' <= c <= 'f' { assert all[c as int - 'a' as int + 10] == c; }
  }

  datatype CounterKind = NoEvent | Reset | Rollover | OtherKind(name: string)

  datatype Evidence = Evidence(kind: CounterKind, modulus: Option<Decimal>, boundaryVerified: bool, evidenceRef: Digest)

  const NO_EVIDENCE := Evidence(NoEvent, None, false, "")

  datatype ContinuityState = Baseline | Contiguous | RolledOver | WasReset | Discontinuity

  datatype Continuity = Continuity(
    state: ContinuityState, delta: Option<Decimal>, modulus: Option<Decimal>, evidenceRef: Digest)

  /** The continuity of a reading, or None for ErrInvalidCounter. */
  function EvaluateCounter(previous: Option<Decimal>, current: Decimal, evidence: Evidence): Option<Continuity>
  {
    if !Valid(current) then None
    else if previous.None? then
      if evidence != NO_EVIDENCE then None else Some(Continuity(Baseline, None, None, ""))
    else if !Valid(previous.value) then None
    else
      var comparison := Compare(current, previous.value);
      if comparison >= 0 && evidence == NO_EVIDENCE then
        Some(Continuity(Contiguous, Some(Subtract(current, previous.value)), None, ""))
      else
        match evidence.kind
        case NoEvent => if evidence != NO_EVIDENCE then None else Some(Continuity(Discontinuity, None, None, ""))
        case Reset =>
          if evidence.modulus.Some? || evidence.boundaryVerified || !ValidDigest(evidence.evidenceRef) then None
          else Some(Continuity(WasReset, None, None, evidence.evidenceRef))
        case Rollover =>
          if comparison >= 0 || evidence.modulus.None? || !evidence.boundaryVerified ||
             !ValidDigest(evidence.evidenceRef) then None
          else if !Valid(evidence.modulus.value) || ParseInteger(evidence.modulus.value.coefficient) <= 0 ||
                  Compare(previous.value, evidence.modulus.value) >= 0 then None
          else
            var remaining := Subtract(evidence.modulus.value, previous.value);
            SubtractExact(evidence.modulus.value, previous.value);
            Some(Continuity(RolledOver, Some(Add(remaining, current)), evidence.modulus, evidence.evidenceRef))
        case OtherKind(_) => None
  }

  /** The value of a published delta, in units. */
  function DeltaUnits(c: Continuity): int
  {
    if c.delta.Some? && Valid(c.delta.value) then Units(c.delta.value) else 0
  }

  function ModulusUnits(c: Continuity): int
  {
    if c.modulus.Some? && Valid(c.modulus.value) then Units(c.modulus.value) else 0
  }

  /** What each kind of delta is, and that no other outcome carries one. */
  lemma DeltasAreExact(previous: Option<Decimal>, current: Decimal, evidence: Evidence)
    requires EvaluateCounter(previous, current, evidence).Some?
    ensures var c := EvaluateCounter(previous, current, evidence).value;
      Valid(current) && (previous.Some? ==> Valid(previous.value)) &&
      (c.delta.Some? <==> c.state == Contiguous || c.state == RolledOver) &&
      (c.delta.Some? ==> Valid(c.delta.value) && previous.Some?) &&
      (c.modulus.Some? <==> c.state == RolledOver) && (c.modulus.Some? ==> Valid(c.modulus.value)) &&
      (c.delta.Some? ==> DeltaUnits(c) == Units(current) - Units(previous.value) + ModulusUnits(c)) &&
      (c.state == Contiguous ==> DeltaUnits(c) >= 0) &&
      (c.state == RolledOver ==> DeltaUnits(c) < ModulusUnits(c) &&
                                 (Units(current) >= 0 ==> DeltaUnits(c) > 0))
  {
    hide Units, Compare, Subtract, Add, ParseInteger, Valid, ValidDigest;
    if previous.Some? {
      CompareExact(current, previous.value);
      SubtractExact(current, previous.value);
      if evidence.modulus.Some? && Valid(evidence.modulus.value) {
        var m := evidence.modulus.value;
        CompareExact(previous.value, m);
        SubtractExact(m, previous.value);
        AddExact(Subtract(m, previous.value), current);
      }
    }
  }

  /** Which outcome a reading gets: contiguous exactly when it does not fall and nothing else is claimed,
      a rollover exactly when a verified boundary explains the fall. */
  lemma OutcomesExact(previous: Decimal, current: Decimal, evidence: Evidence)
    requires Valid(previous) && Valid(current)
    ensures var r := EvaluateCounter(Some(previous), current, evidence);
      (r.Some? && r.value.state == Contiguous <==> evidence == NO_EVIDENCE && Units(current) >= Units(previous)) &&
      (r.Some? && r.value.state == Discontinuity <==> evidence == NO_EVIDENCE && Units(current) < Units(previous)) &&
      (r.Some? && r.value.state == RolledOver <==>
         evidence.kind == Rollover && evidence.boundaryVerified && ValidDigest(evidence.evidenceRef) &&
         evidence.modulus.Some? && Valid(evidence.modulus.value) &&
         0 < Units(evidence.modulus.value) && Units(current) < Units(previous) < Units(evidence.modulus.value)) &&
      (r.Some? && r.value.state == WasReset <==>
         evidence.kind == Reset && evidence.modulus.None? && !evidence.boundaryVerified && ValidDigest(evidence.evidenceRef)) &&
      (r.Some? ==> r.value.state != Baseline && r.value.evidenceRef == evidence.evidenceRef && r.value.modulus == evidence.modulus)
  {
    hide Units, Compare, Subtract, Add, ParseInteger, Valid, ValidDigest;
    CompareExact(current, previous);
    if evidence.modulus.Some? && Valid(evidence.modulus.value) {
      CompareExact(previous, evidence.modulus.value);
      PositiveUnits(evidence.modulus.value);
    }
  }

  lemma PositiveUnits(d: Decimal)
    requires Valid(d)
    ensures Units(d) > 0 <==> ParseInteger(d.coefficient) > 0
  {
    ScalingKeepsOrder(0, ParseInteger(d.coefficient), Pow10(d.scale + 18));
  }

  // ---- a run of readings of one accumulator ---------------------------------------------------

  datatype Reading = Reading(value: Decimal, evidence: Evidence)

  function LastReading(first: Decimal, readings: seq<Reading>): Decimal
  {
    if readings == [] then first else readings[|readings| - 1].value
  }

  /** Every reading continues the one before it: contiguous or rolled over. */
  ghost predicate Continuous(first: Decimal, readings: seq<Reading>)
  {
    readings != [] ==>
      var n := |readings| - 1;
      Continuous(first, readings[..n]) &&
      (var r := EvaluateCounter(Some(LastReading(first, readings[..n])), readings[n].value, readings[n].evidence);
       r.Some? && (r.value.state == Contiguous || r.value.state == RolledOver))
  }

  ghost function Steps(first: Decimal, readings: seq<Reading>): seq<Continuity>
    requires Continuous(first, readings)
  {
    if readings == [] then []
    else
      var n := |readings| - 1;
      Steps(first, readings[..n]) +
      [EvaluateCounter(Some(LastReading(first, readings[..n])), readings[n].value, readings[n].evidence).value]
  }

  function SumDeltas(steps: seq<Continuity>): int
  {
    if steps == [] then 0 else SumDeltas(steps[..|steps| - 1]) + DeltaUnits(steps[|steps| - 1])
  }

  function SumModuli(steps: seq<Continuity>): int
  {
    if steps == [] then 0 else SumModuli(steps[..|steps| - 1]) + ModulusUnits(steps[|steps| - 1])
  }

  /** The deltas of a continuous run add up to the change of the counter plus its rollovers. */
  lemma {:induction false} DeltasTelescope(first: Decimal, readings: seq<Reading>)
    requires Valid(first) && Continuous(first, readings)
    ensures Valid(LastReading(first, readings))
    ensures SumDeltas(Steps(first, readings)) ==
            Units(LastReading(first, readings)) - Units(first) + SumModuli(Steps(first, readings))
  {
    if readings != [] {
      var n := |readings| - 1;
      var front, last := readings[..n], readings[n];
      DeltasTelescope(first, front);
      DeltasAreExact(Some(LastReading(first, front)), last.value, last.evidence);
      var c := EvaluateCounter(Some(LastReading(first, front)), last.value, last.evidence).value;
      assert Steps(first, readings) == Steps(first, front) + [c];
      assert (Steps(first, front) + [c])[..|Steps(first, front)|] == Steps(first, front);
      hide EvaluateCounter, Units, DeltaUnits, ModulusUnits;
    }
  }
}
