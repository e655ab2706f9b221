// registry/identity.go: normalized identity members, the complete-triple gate
// and the printed key that indexes the registry.  Strings are ASCII.
module Identity {
  import opened Numerals

  type Addr = x: int | 0 <= x < 256

  datatype DeviceInfo = DeviceInfo(
    address: Addr, manufacturer: string, deviceID: string, serial: string,
    mac: string, software: string, hardware: string)

  datatype PhysicalIdentity = PhysicalIdentity(
    manufacturer: string, deviceID: string, serial: string,
    mac: string, software: string, hardware: string)

  const NO_IDENTITY := PhysicalIdentity("", "", "", "", "", "")

  // ---- normalizeIdentityPart -------------------------------------------

  predicate IsSpace(c: char) { c == ' ' || 9 <= c as int <= 13 }

  function UpperChar(c: char): char
  {
    if 'a' <= c <= 'z' then ('A' as int + (c as int - 'a' as int)) as char else c
  }

  function Upper(s: string): string
  {
    seq(|s|, i requires 0 <= i < |s| => UpperChar(s[i]))
  }

  function TrimLeft(s: string): (t: string)
    ensures t != [] ==> !IsSpace(t[0])
    ensures s != [] && !IsSpace(s[0]) ==> t == s
  {
    if s != [] && IsSpace(s[0]) then TrimLeft(s[1..]) else s
  }

  function TrimRight(s: string): (t: string)
    ensures t <= s
    ensures t != [] ==> !IsSpace(t[|t| - 1])
    ensures s != [] && !IsSpace(s[|s| - 1]) ==> t == s
  {
    if s != [] && IsSpace(s[|s| - 1]) then TrimRight(s[..|s| - 1]) else s
  }

  function Normalize(s: string): string
  {
    Upper(TrimRight(TrimLeft(s)))
  }

  /** Blank members are the ones the raw-empty and the trimmed-empty tests disagree on. */
  predicate Blank(s: string) { s != "" && Normalize(s) == "" }

  lemma NormalizeIdempotent(s: string)
    ensures Normalize(Normalize(s)) == Normalize(s)
    ensures s == "" ==> Normalize(s) == ""
  {
    var t := TrimRight(TrimLeft(s));
    if t != [] {
      assert t[0] == TrimLeft(s)[0];
      var u := Upper(t);
      assert !IsSpace(u[0]) && !IsSpace(u[|u| - 1]);
      assert TrimLeft(u) == u && TrimRight(u) == u;
      assert Upper(u) == u;
    }
  }

  // ---- canonicalPhysicalIdentity, isQualified, key ------------------------

  function Canonical(info: DeviceInfo): PhysicalIdentity
  {
    PhysicalIdentity(Normalize(info.manufacturer), Normalize(info.deviceID), Normalize(info.serial),
                     Normalize(info.mac), Normalize(info.software), Normalize(info.hardware))
  }

  predicate IsHex(c: char) { '0' <= c <= '9' || 'A' <= c <= 'F' }

  predicate AllHex(s: string) { forall i :: 0 <= i < |s| ==> IsHex(s[i]) }

  function TrimZeros(s: string): string
  {
    if s != [] && s[0] == '0' then TrimZeros(s[1..]) else s
  }

  predicate SentinelForm(normalized: string)
  {
    var digits := if "0X" <= normalized then normalized[2..] else normalized;
    digits != "" && AllHex(digits) &&
    (TrimZeros(digits) == "" || TrimZeros(digits) == "FFFFFFFF" || TrimZeros(digits) == "7FFFFFFF")
  }

  /** Serials that stand for "no serial": zero, all-ones and the signed maximum, in hexadecimal. */
  predicate InvalidSerialSentinel(serial: string)
  {
    SentinelForm(Normalize(serial))
  }

  predicate Qualified(p: PhysicalIdentity)
  {
    p.manufacturer != "" && p.deviceID != "" && p.serial != "" && !InvalidSerialSentinel(p.serial)
  }

  const KEY_PREFIX := "triple:"

  function EncodeMember(m: string): string { Digits(|m|) + ":" + m }

  function EncodeTriple(manufacturer: string, deviceID: string, serial: string): string
  {
    EncodeMember(manufacturer) + (EncodeMember(deviceID) + EncodeMember(serial))
  }

  function Key(p: PhysicalIdentity): string
  {
    if Qualified(p) then KEY_PREFIX + EncodeTriple(p.manufacturer, p.deviceID, p.serial) else ""
  }

  /** isStableIdentityKey */
  predicate StableKey(k: string) { KEY_PREFIX <= k }

  predicate SameTriple(p: PhysicalIdentity, q: PhysicalIdentity)
  {
    p.manufacturer == q.manufacturer && p.deviceID == q.deviceID && p.serial == q.serial
  }

  // The first colon of a string that starts with digits ends those digits.
  lemma DigitsSplit(d: string, x: string, e: string, y: string)
    requires AllDigits(d) && AllDigits(e) && d + (":" + x) == e + (":" + y)
    ensures d == e && x == y
  {
    var l := d + (":" + x);
    assert l[|d|] == ':' && l[|e|] == ':';
    assert forall i :: 0 <= i < |d| ==> IsDigit(l[i]);
    assert forall i :: 0 <= i < |e| ==> IsDigit(l[i]);
    assert |d| == |e|;
    assert d == l[..|d|] && e == l[..|e|];
    assert x == l[|d| + 1..] && y == l[|e| + 1..];
  }

  lemma PrefixesAgree(a: string, x: string, b: string, y: string)
    requires a + x == b + y && |a| == |b|
    ensures a == b && x == y
  {
    assert a == (a + x)[..|a|] && b == (b + y)[..|b|];
    assert x == (a + x)[|a|..] && y == (b + y)[|b|..];
  }

  // A length-prefixed member can be split off its string in one way only.
  lemma MemberSplits(a: string, x: string, b: string, y: string)
    requires EncodeMember(a) + x == EncodeMember(b) + y
    ensures a == b && x == y
  {
    assert EncodeMember(a) + x == Digits(|a|) + (":" + (a + x));
    assert EncodeMember(b) + y == Digits(|b|) + (":" + (b + y));
    DigitsSplit(Digits(|a|), a + x, Digits(|b|), b + y);
    ParseOfDigits(|a|);
    ParseOfDigits(|b|);
    PrefixesAgree(a, x, b, y);
  }

  lemma TripleSplits(m: string, d: string, s: string, m': string, d': string, s': string)
    requires EncodeTriple(m, d, s) == EncodeTriple(m', d', s')
    ensures m == m' && d == d' && s == s'
  {
    MemberSplits(m, EncodeMember(d) + EncodeMember(s), m', EncodeMember(d') + EncodeMember(s'));
    MemberSplits(d, EncodeMember(s), d', EncodeMember(s'));
    assert EncodeMember(s) + "" == EncodeMember(s') + "";
    MemberSplits(s, "", s', "");
  }

  lemma PrefixCancels(x: string, y: string)
    requires KEY_PREFIX + x == KEY_PREFIX + y
    ensures x == y
  {
    assert x == (KEY_PREFIX + x)[|KEY_PREFIX|..];
    assert y == (KEY_PREFIX + y)[|KEY_PREFIX|..];
  }

  /** The printed key determines the whole triple, whatever punctuation its members carry. */
  lemma KeyInjective(p: PhysicalIdentity, q: PhysicalIdentity)
    requires Key(p) != ""
    ensures Key(p) == Key(q) <==> Qualified(q) && SameTriple(p, q)
  {
    if Key(p) == Key(q) {
      var x := EncodeTriple(p.manufacturer, p.deviceID, p.serial);
      var y := EncodeTriple(q.manufacturer, q.deviceID, q.serial);
      PrefixCancels(x, y);
      TripleSplits(p.manufacturer, p.deviceID, p.serial, q.manufacturer, q.deviceID, q.serial);
    }
  }

  lemma KeyFacts(p: PhysicalIdentity)
    ensures Key(p) != "" <==> Qualified(p)
    ensures Key(p) != "" ==> StableKey(Key(p))
  {}

  // ---- merge gates (registry_alias.go, registry_registration.go) -------------

  predicate AgreesOrMissing(incoming: string, current: string)
  {
    incoming == "" || incoming == current
  }

  predicate Compatible(x: string, y: string)
  {
    var n, m := Normalize(x), Normalize(y);
    n == "" || m == "" || n == m
  }

  /** canMergeIdentity: neither serial nor MAC contradict. */
  predicate CanMerge(incoming: DeviceInfo, existing: DeviceInfo)
  {
    Compatible(incoming.serial, existing.serial) && Compatible(incoming.mac, existing.mac)
  }

  predicate ConflictingModel(incoming: DeviceInfo, existing: DeviceInfo)
  {
    var p, q := Canonical(incoming), Canonical(existing);
    p.deviceID != "" && q.deviceID != "" && p.software != "" && q.software != "" &&
    p.hardware != "" && q.hardware != "" &&
    (p.deviceID != q.deviceID || p.software != q.software || p.hardware != q.hardware)
  }

  // Every member left empty by `info` is filled from `last` (raw emptiness decides).
  function Or(x: string, last: string): string { if x == "" then last else x }
}
