// What normalizing, the serial sentinels and a complete triple mean.
module IdentityLaws {
  import opened Numerals
  import opened Identity

  // ---- normal forms -------------------------------------------------------------------

  const LOWER := "abcdefghijklmnopqrstuvwxyz"
  const UPPER := "ABCDEFGHIJKLMNOPQRSTUVWXYZ"

  // A letter in capitals, and anything else as it is.
  ghost predicate Capital(c: char, d: char)
  {
    if c in LOWER then exists i :: 0 <= i < 26 && LOWER[i] == c && UPPER[i] == d else d == c
  }

  lemma CapitalIs(c: char)
    ensures Capital(c, UpperChar(c))
  {
    if 'a' <= c <= 'z' {
      var i := c as int - 'a' as int;
      assert LOWER[i] == c && UPPER[i] == UpperChar(c);
    } else {
      assert forall i :: 0 <= i < 26 ==> 'a' <= LOWER[i] <= 'z';
    }
  }

  /** Blank, tabulator, line feed, vertical tab, form feed and carriage return. */
  predicate White(c: char)
  {
    c as int in {0x20, 0x09, 0x0A, 0x0B, 0x0C, 0x0D}
  }

  lemma {:induction false} TrimLeftIs(s: string) returns (i: nat)
    ensures i <= |s| && TrimLeft(s) == s[i..] && forall k :: 0 <= k < i ==> White(s[k])
  {
    if s != [] && IsSpace(s[0]) {
      i := TrimLeftIs(s[1..]);
      assert s[1..][i..] == s[i + 1..];
      forall k | 0 <= k < i + 1 ensures White(s[k]) { if k > 0 { assert s[1..][k - 1] == s[k]; } }
      i := i + 1;
    } else {
      i := 0;
    }
  }

  lemma {:induction false} TrimRightIs(s: string)
    ensures forall k :: |TrimRight(s)| <= k < |s| ==> White(s[k])
  {
    if s != [] && IsSpace(s[|s| - 1]) {
      var front := s[..|s| - 1];
      TrimRightIs(front);
      forall k | |TrimRight(s)| <= k < |s| ensures White(s[k]) { if k < |front| { assert front[k] == s[k]; } }
    }
  }

  /** A normal form is what lies between the outer white space, in capitals. */
  lemma NormalizeIs(s: string) returns (i: nat, j: nat)
    ensures i <= j <= |s|
    ensures forall k :: 0 <= k < |s| && (k < i || j <= k) ==> White(s[k])
    ensures i < j ==> !White(s[i]) && !White(s[j - 1])
    ensures |Normalize(s)| == j - i && forall k :: 0 <= k < j - i ==> Capital(s[i + k], Normalize(s)[k])
  {
    i := TrimLeftIs(s);
    var t := TrimLeft(s);
    TrimRightIs(t);
    j := i + |TrimRight(t)|;
    forall k | j <= k < |s| ensures White(s[k]) { assert t[k - i] == s[k]; }
    forall k | 0 <= k < j - i ensures Capital(s[i + k], Normalize(s)[k]) {
      assert TrimRight(t)[k] == t[k] == s[i + k];
      CapitalIs(s[i + k]);
    }
    hide Capital;
    if i < j {
      assert TrimRight(t)[0] == t[0] == s[i];
      assert TrimRight(t)[j - i - 1] == t[j - i - 1] == s[j - 1];
    }
  }

  // ---- serials that stand for no serial ---------------------------------------------------

  const HEX := "0123456789ABCDEF"

  function HexDigit(c: char): nat
    requires IsHex(c)
  {
    if c <= '9' then c as int - '0' as int else c as int - 'A' as int + 10
  }

  function HexValue(s: string): nat
    requires AllHex(s)
  {
    if s == [] then 0 else 16 * HexValue(s[..|s| - 1]) + HexDigit(s[|s| - 1])
  }

  lemma HexDigitIs(c: char)
    requires IsHex(c)
    ensures HexDigit(c) < 16 && HEX[HexDigit(c)] == c
  {}

  lemma {:induction false} LeadingZeros(s: string)
    requires AllHex(s)
    ensures AllHex(TrimZeros(s)) && HexValue(TrimZeros(s)) == HexValue(s)
    ensures TrimZeros(s) != [] ==> TrimZeros(s)[0] != '0'
  {
    if s != [] && s[0] == '0' {
      LeadingZeros(s[1..]);
      ZeroInFront(s);
    }
  }

  lemma {:induction false} ZeroInFront(s: string)
    requires AllHex(s) && s != [] && s[0] == '0'
    ensures HexValue(s[1..]) == HexValue(s)
  {
    if |s| > 1 {
      ZeroInFront(s[..|s| - 1]);
      assert s[..|s| - 1][1..] == s[1..][..|s| - 2];
    } else {
      assert s[..0] == [];
    }
  }

  lemma HexSplits(s: string)
    requires AllHex(s) && s != []
    ensures HexValue(s) == 16 * HexValue(s[..|s| - 1]) + HexDigit(s[|s| - 1])
  {}

  lemma LastHex(s: string)
    requires AllHex(s) && s != []
    ensures HexValue(s) / 16 == HexValue(s[..|s| - 1]) && HexValue(s) % 16 == HexDigit(s[|s| - 1])
  {
    hide HexValue, HexDigit, IsHex;
    HexDigitIs(s[|s| - 1]);
    HexSplits(s);
    Sixteen(HexValue(s[..|s| - 1]), HexDigit(s[|s| - 1]));
  }

  lemma Sixteen(x: nat, d: nat)
    requires d < 16
    ensures (16 * x + d) / 16 == x && (16 * x + d) % 16 == d
  {}

  /** Hexadecimal numerals without leading zeros are equal when their values are. */
  lemma {:induction false} HexUnique(s: string, t: string)
    requires AllHex(s) && AllHex(t) && (s != [] ==> s[0] != '0') && (t != [] ==> t[0] != '0')
    requires HexValue(s) == HexValue(t)
    ensures s == t
  {
    PositiveHex(s);
    PositiveHex(t);
    if s != [] && t != [] {
      LastHex(s);
      LastHex(t);
      hide HexDigit;
      HexDigitIs(s[|s| - 1]);
      HexDigitIs(t[|t| - 1]);
      HexUnique(s[..|s| - 1], t[..|t| - 1]);
      assert s == s[..|s| - 1] + [s[|s| - 1]] && t == t[..|t| - 1] + [t[|t| - 1]];
    } else {
      assert HexValue("") == 0;
    }
  }

  lemma {:induction false} PositiveHex(s: string)
    requires AllHex(s) && (s != [] ==> s[0] != '0')
    ensures s != [] ==> HexValue(s) > 0
  {
    if |s| > 1 { PositiveHex(s[..|s| - 1]); } else if |s| == 1 { HexDigitIs(s[0]); }
  }

  function Filled(first: nat, n: nat): nat
  {
    if n == 0 then 0 else if n == 1 then first else 16 * Filled(first, n - 1) + 15
  }

  lemma {:induction false} FilledHex(s: string, first: nat, n: nat)
    requires n <= |s| && AllHex(s) && (n > 0 ==> HexDigit(s[0]) == first) && forall i :: 0 < i < n ==> s[i] == 'F'
    ensures HexValue(s[..n]) == Filled(first, n)
  {
    if n > 0 {
      FilledHex(s, first, n - 1);
      assert s[..n][..n - 1] == s[..n - 1];
      if n == 1 { assert s[..0] == []; }
    }
  }

  // Eight hexadecimal digits, the last seven all F.
  lemma SentinelValue(s: string, first: nat)
    requires |s| == 8 && AllHex(s) && HexDigit(s[0]) == first && forall i :: 0 < i < 8 ==> s[i] == 'F'
    ensures HexValue(s) == Filled(first, 8)
  {
    FilledHex(s, first, 8);
    hide HexValue, HexDigit, IsHex;
    assert s[..8] == s;
  }

  lemma SentinelValues()
    ensures AllHex("FFFFFFFF") && HexValue("FFFFFFFF") == 0xFFFF_FFFF
    ensures AllHex("7FFFFFFF") && HexValue("7FFFFFFF") == 0x7FFF_FFFF
  {
    hide HexValue;
    SentinelValue("FFFFFFFF", 15);
    SentinelValue("7FFFFFFF", 7);
  }

  /** The number a normal form spells in hexadecimal, with or without 0X, if it does. */
  ghost function SpelledHex(n: string): Option<nat>
  {
    var digits := if |n| >= 2 && n[0] == '0' && n[1] == 'X' then n[2..] else n;
    if digits != "" && AllHex(digits) then Some(HexValue(digits)) else None
  }

  lemma HexSentinel(digits: string)
    requires AllHex(digits)
    ensures TrimZeros(digits) == "" || TrimZeros(digits) == "FFFFFFFF" || TrimZeros(digits) == "7FFFFFFF" <==>
            HexValue(digits) == 0 || HexValue(digits) == 0xFFFF_FFFF || HexValue(digits) == 0x7FFF_FFFF
  {
    var z := TrimZeros(digits);
    LeadingZeros(digits);
    SentinelValues();
    NoHex();
    hide HexValue, TrimZeros;
    if HexValue(z) == 0 { HexUnique(z, ""); }
    if HexValue(z) == 0xFFFF_FFFF { HexUnique(z, "FFFFFFFF"); }
    if HexValue(z) == 0x7FFF_FFFF { HexUnique(z, "7FFFFFFF"); }
  }

  lemma HexPrefix(n: string)
    ensures "0X" <= n <==> |n| >= 2 && n[0] == '0' && n[1] == 'X'
  {
    if |n| >= 2 { assert n[..2] == [n[0], n[1]]; }
  }

  /** The rejected serials are the hexadecimal spellings of zero, of 32 ones and of 31 ones, however many zeros lead. */
  lemma SentinelIsValue(serial: string)
    ensures InvalidSerialSentinel(serial) <==> SpelledHex(Normalize(serial)) in {Some(0), Some(0xFFFF_FFFF), Some(0x7FFF_FFFF)}
  {
    hide Normalize, HexValue, TrimZeros, AllHex;
    var n := Normalize(serial);
    HexPrefix(n);
    var digits := if "0X" <= n then n[2..] else n;
    if AllHex(digits) { HexSentinel(digits); }
  }

  lemma NoHex()
    ensures HexValue("") == 0
  {}

  /** A triple has a key exactly when its three members are known and its serial is no sentinel. */
  lemma KeyNeeds(info: DeviceInfo)
    ensures Key(Canonical(info)) != "" <==>
      Normalize(info.manufacturer) != "" && Normalize(info.deviceID) != "" && Normalize(info.serial) != "" &&
      SpelledHex(Normalize(info.serial)) !in {Some(0), Some(0xFFFF_FFFF), Some(0x7FFF_FFFF)}
  {
    NormalizeIdempotent(info.serial);
    SentinelIsValue(Normalize(info.serial));
    hide Normalize, EncodeTriple, SpelledHex, SentinelForm;
  }
}
