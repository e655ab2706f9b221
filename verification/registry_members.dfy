// What entries hold after a merge: whose members, whose addresses and in what order, and whose claim.
module RegistryMembers {
  import opened Numerals
  import opened Identity
  import opened RegistryState
  import opened RegistryInvariant
  import opened RegistrySteps
  import opened RegistryAliasSteps
  import opened RegistryIndexTheorems
  import opened RegistryIndexRuns
  import opened RegistryProvenance
  import opened RegistrySlots
  import opened RegistryTheorems
  import opened RegistryGroups
  import opened RegistryDecisions

  // ---- lists ----------------------------------------------------------------------------

  /** The list without one of its elements, the others in their order. */
  ghost predicate LeavesOut<T>(before: seq<T>, x: T, after: seq<T>)
  {
    exists i :: 0 <= i < |before| && before[i] == x && after == before[..i] + before[i + 1..]
  }

  lemma {:induction false} WithoutAt<T>(xs: seq<T>, x: T) returns (i: nat)
    requires x in xs
    ensures i < |xs| && xs[i] == x && Without(xs, x) == xs[..i] + xs[i + 1..]
  {
    if xs[0] == x {
      i := 0;
    } else {
      var k := WithoutAt(xs[1..], x);
      i := k + 1;
      assert xs[..i] == [xs[0]] + xs[1..][..k] && xs[i + 1..] == xs[1..][k + 1..];
    }
  }

  lemma WithoutLeavesOut<T>(xs: seq<T>, x: T)
    requires x in xs
    ensures LeavesOut(xs, x, Without(xs, x))
  {
    var i := WithoutAt(xs, x);
  }

  lemma {:induction false} IncludingNew<T>(xs: seq<T>, ys: seq<T>)
    requires Distinct(ys) && forall y :: y in ys ==> y !in xs
    ensures IncludingAll(xs, ys) == xs + ys
  {
    if ys != [] {
      var n := |ys| - 1;
      IncludingNew(xs, ys[..n]);
      assert ys[n] !in xs + ys[..n];
      assert xs + ys == (xs + ys[..n]) + [ys[n]];
    }
  }

  // ---- members -----------------------------------------------------------------------------

  // Its own member if it had one, the other's otherwise.
  ghost predicate Completed(own: string, other: string, result: string)
  {
    result == if own != "" then own else other
  }

  /** Each of the six members is the own one if that was known, and the other's otherwise; the display address is the own. */
  ghost predicate MembersCompleted(own: DeviceInfo, other: DeviceInfo, result: DeviceInfo)
  {
    result.address == own.address &&
    Completed(own.manufacturer, other.manufacturer, result.manufacturer) &&
    Completed(own.deviceID, other.deviceID, result.deviceID) && Completed(own.serial, other.serial, result.serial) &&
    Completed(own.mac, other.mac, result.mac) && Completed(own.software, other.software, result.software) &&
    Completed(own.hardware, other.hardware, result.hardware)
  }

  lemma AbsorbCompletes(dst: DeviceEntry, src: DeviceEntry)
    ensures MembersCompleted(dst.info, src.info, Absorb(dst, src).info)
  {}

  // ---- aliases that remove an entry --------------------------------------------------------------

  /** The alias takes the other operand's only address: its entry goes. */
  ghost predicate Removes(s: Registry, a: Addr, b: Addr)
  {
    a in s.entries && b in s.entries && s.entries[a] != s.entries[b] && At(s, s.entries[b]).addresses == [b]
  }

  lemma YieldRemoved(s: Registry, c: EntryId, r: EntryId, m: Addr)
    requires Core(s) && IndexCurrent(s) && m in s.entries && s.entries[m] == r && c in s.order && c != r
    requires At(s, r).addresses == [m]
    ensures var y := Yield(s, c, r, m);
      y.order == Without(s.order, r) && MembersCompleted(At(s, c).info, At(s, r).info, At(y, c).info) &&
      At(y, c).addresses == At(s, c).addresses && At(y, c).primary == At(s, c).primary &&
      (forall x :: x != c && x != r ==> At(y, x) == At(s, x)) &&
      var claim := if At(s, c).identityKey == "" then At(s, r).identityKey else At(s, c).identityKey;
      At(y, c).identityKey == if Triple(At(y, c).info) == claim then claim else ""
  {
    hide Core, IndexCurrent, MergeRemoved, Absorb, Key, Canonical, SyncFaces;
    var d := At(s, r).(addresses := Without(At(s, r).addresses, m));
    assert d.addresses == [];
    var s0 := WithEntry(s, r, d);
    RemovedMergeIndex(s, c, r, m, d);
    MergeRemovedInfo(s0, c, r, c);
    MergeRemovedShape(s0, c, r);
    AbsorbCompletes(At(s0, c), At(s0, r));
  }

  lemma MergeRemovedShape(s: Registry, c: EntryId, r: EntryId)
    ensures var t := MergeRemoved(s, c, r);
      At(t, c).addresses == At(s, c).addresses && At(t, c).primary == At(s, c).primary &&
      forall x :: x != c ==> At(t, x) == At(s, x)
  {
    hide Without, PublishedRows, PublishedKey, Canonical, Key, RetainBinding;
  }

  lemma EnterShape(y: Registry, c: EntryId, m: Addr)
    ensures var t := Enter(y, c, m);
      At(t, c) == At(y, c).(addresses := Including(At(y, c).addresses, m), faces := At(t, c).faces) &&
      t.order == y.order && forall x :: x != c ==> At(t, x) == At(y, x)
  {
    hide Including, FacesOf, AdoptSlots;
  }

  /** What an alias that removes an entry leaves: the other entry, with each member it lacked from the removed one, the
      moved address after its own, every other entry untouched, and the claim of the two that its triple still prints. */
  ghost predicate Merged(s: Registry, t: Registry, c: EntryId, r: EntryId, m: Addr)
  {
    t.order == Without(s.order, r) && MembersCompleted(At(s, c).info, At(s, r).info, At(t, c).info) &&
    At(t, c).addresses == At(s, c).addresses + [m] && At(t, c).primary == At(s, c).primary &&
    (forall x :: x != c && x != r ==> At(t, x) == At(s, x)) &&
    var claim := if At(s, c).identityKey == "" then At(s, r).identityKey else At(s, c).identityKey;
    At(t, c).identityKey == if Triple(At(t, c).info) == claim then claim else ""
  }

  lemma NotOwn(s: Registry, c: EntryId, m: Addr)
    requires Core(s) && c in s.order && (m in s.entries ==> s.entries[m] != c)
    ensures m !in At(s, c).addresses
  {
    hide SlotsAgree, IndexRows, Canon, FacesSynced, TopologyOk;
  }

  lemma JoinMerges(s: Registry, c: EntryId, r: EntryId, m: Addr)
    requires Core(s) && IndexCurrent(s) && m in s.entries && s.entries[m] == r && c in s.order && c != r
    requires At(s, r).addresses == [m]
    ensures Merged(s, JoinAlias(s, c, m), c, r, m)
  {
    JoinShapeOf(s, c, m);
    hide Core, IndexCurrent, JoinAlias, Yield, Enter, Triple, MembersCompleted;
    YieldRemoved(s, c, r, m);
    var y := Yield(s, c, r, m);
    EnterShape(y, c, m);
    NotOwn(s, c, m);
  }

  lemma JoinShapeOf(s: Registry, c: EntryId, m: Addr)
    requires Core(s)
    ensures JoinAlias(s, c, m) == Enter(if m in s.entries && s.entries[m] != c then Yield(s, c, s.entries[m], m) else s, c, m)
  {
    JoinShape(s, c, m);
  }

  /** An alias that takes the other operand's only address merges the two entries. */
  lemma AliasMerges(env: Protocol, s: Registry, a: Addr, b: Addr)
    requires WellFormed(env, s) && IndexCurrent(s) && Removes(s, a, b)
    ensures Merged(s, AliasAddresses(env, s, a, b), s.entries[a], s.entries[b], b)
    ensures var t, c := AliasAddresses(env, s, a, b), s.entries[a];
      c in t.order && At(t, c).physical == Canonical(At(t, c).info) &&
      (At(s, c).identityKey != "" ==> At(t, c).identityKey == At(s, c).identityKey) &&
      (At(t, c).identityKey != "" ==> At(t, c).identityKey in t.identity && t.identity[At(t, c).identityKey] == c)
  {
    hide WellFormed, Core, AliasGroups, JoinAlias, EnsureSlot, AliasAddresses, RecordEdge, IndexCurrent, Merged;
    var s0, t := EnsureSlot(EnsureSlot(s, a), b), AliasAddresses(env, s, a, b);
    AliasCases(env, s, a, b);
    AliasFrame(env, s, a, b);
    AliasKeeps(env, s, a, b);
    AliasIndex(env, s, a, b);
    AliasEntries(env, s, a, b);
    WellFormedCore(env, s0);
    SameIndexAs(s, s0);
    JoinMerges(s0, s.entries[a], s.entries[b], b);
    MergedElsewhere(s0, AliasGroups(s, a, b), s, t, s.entries[a], s.entries[b], b);
    WellFormedCore(env, t);
    LiveEntry(env, t, a);
    ClaimHeld(t, s.entries[a]);
    WellFormedCore(env, s);
    LiveEntry(env, s, a);
    ClaimKept(s, t, s.entries[a], s.entries[b], b);
  }

  lemma CompletedKeepsTriple(own: DeviceInfo, other: DeviceInfo, result: DeviceInfo)
    requires MembersCompleted(own, other, result) && Triple(own) != ""
    ensures Triple(result) == Triple(own)
  {
    NormalizeIdempotent("");
    hide Upper, TrimLeft, TrimRight, EncodeTriple, SentinelForm;
  }

  lemma ClaimKept(s: Registry, t: Registry, c: EntryId, r: EntryId, m: Addr)
    requires Core(s) && IndexCurrent(s) && c in s.order && Merged(s, t, c, r, m)
    ensures At(s, c).identityKey != "" ==> At(t, c).identityKey == At(s, c).identityKey
  {
    hide Core, Key, Canonical, IndexCurrent, MembersCompleted, Without;
    OwnedEntry(s, c);
    if At(s, c).identityKey != "" { CompletedKeepsTriple(At(s, c).info, At(s, r).info, At(t, c).info); }
  }

  lemma MergedElsewhere(s: Registry, t: Registry, s': Registry, t': Registry, c: EntryId, r: EntryId, m: Addr)
    requires Merged(s, t, c, r, m) && s'.arena == s.arena && s'.order == s.order && t'.arena == t.arena && t'.order == t.order
    ensures Merged(s', t', c, r, m)
  {
    hide Without, MembersCompleted, Triple, Look;
    assert forall x: EntryId {:trigger At(t', x)} :: At(t', x) == At(t, x);
    assert forall x: EntryId {:trigger At(s', x)} :: At(s', x) == At(s, x);
  }

  lemma ClaimHeld(t: Registry, c: EntryId)
    requires Core(t) && IndexCurrent(t) && c in t.order
    ensures At(t, c).physical == Canonical(At(t, c).info)
    ensures At(t, c).identityKey != "" ==> At(t, c).identityKey in t.identity && t.identity[At(t, c).identityKey] == c
  {
    hide Core, Key, Canonical;
    OwnedEntry(t, c);
  }

  // ---- groups that lose an address ---------------------------------------------------------------------

  /** A group without one of its addresses: the others in their order, the first of them primary if the primary left;
      nothing else but the faces changes. */
  ghost predicate Shrunk(before: DeviceEntry, m: Addr, after: DeviceEntry)
  {
    LeavesOut(before.addresses, m, after.addresses) && after.addresses != [] &&
    (var primary := if before.primary == m then after.addresses[0] else before.primary;
     after == before.(addresses := after.addresses, faces := after.faces, primary := primary,
                      info := before.info.(address := if before.primary == m then primary else before.info.address)))
  }

  lemma RehomedShrinks(d: DeviceEntry, m: Addr)
    requires m in d.addresses && Without(d.addresses, m) != []
    ensures Shrunk(d, m, Rehomed(d.(addresses := Without(d.addresses, m)), m))
  {
    WithoutLeavesOut(d.addresses, m);
    hide Without, LeavesOut;
  }

  lemma ShrunkFaces(d: DeviceEntry, m: Addr, x: DeviceEntry, y: DeviceEntry)
    requires Shrunk(d, m, x) && y == x.(faces := y.faces)
    ensures Shrunk(d, m, y)
  {
    hide LeavesOut;
  }

  lemma SyncEntry(s: Registry, e: EntryId)
    ensures var t := SyncFaces(s, e);
      At(t, e) == At(s, e).(faces := At(t, e).faces) && t.order == s.order && forall x :: x != e ==> At(t, x) == At(s, x)
  {
    hide FacesOf, AdoptSlots;
  }

  // ---- aliases that move an address or nothing -------------------------------------------------------------

  /** The group gains an address at its end, if it did not have it. */
  ghost predicate Grown(before: DeviceEntry, m: Addr, after: DeviceEntry)
  {
    after == before.(addresses := if m in before.addresses then before.addresses else before.addresses + [m], faces := after.faces)
  }

  /** Address m at entry c, out of the entry it was in, which keeps other addresses; nothing else moves. */
  ghost predicate Moved(s: Registry, t: Registry, c: EntryId, m: Addr)
  {
    t.order == s.order && Grown(At(s, c), m, At(t, c)) &&
    (m in s.entries && s.entries[m] != c ==> Shrunk(At(s, s.entries[m]), m, At(t, s.entries[m]))) &&
    forall x :: x != c && ExistingAt(s, m) != Some(x) ==> At(t, x) == At(s, x)
  }

  // The last part of a move, when the entry left behind has already shrunk.
  lemma EnterMoves(s: Registry, y: Registry, c: EntryId, m: Addr)
    requires y.order == s.order && At(y, c) == At(s, c)
    requires m in s.entries && s.entries[m] != c ==> Shrunk(At(s, s.entries[m]), m, At(y, s.entries[m]))
    requires forall x :: x != c && ExistingAt(s, m) != Some(x) ==> At(y, x) == At(s, x)
    ensures Moved(s, Enter(y, c, m), c, m)
  {
    hide Enter, Shrunk, At;
    EnterShape(y, c, m);
  }

  lemma JoinMoves(s: Registry, c: EntryId, m: Addr)
    requires Core(s) && c in s.order && (m in s.entries && s.entries[m] != c ==> At(s, s.entries[m]).addresses != [m])
    ensures Moved(s, JoinAlias(s, c, m), c, m)
  {
    hide Core, JoinAlias, Yield, Enter, Shrunk, Moved, At;
    JoinShapeOf(s, c, m);
    if m in s.entries && s.entries[m] != c {
      YieldShrinks(s, c, s.entries[m], m);
      EnterMoves(s, Yield(s, c, s.entries[m], m), c, m);
    } else {
      EnterMoves(s, s, c, m);
    }
  }

  lemma OnlyElement(l: seq<Addr>, m: Addr)
    requires m in l
    ensures |l| == 1 ==> l == [m]
  {}

  lemma OneOfMore(s: Registry, m: Addr)
    requires Core(s) && m in s.entries && At(s, s.entries[m]).addresses != [m]
    ensures m in At(s, s.entries[m]).addresses && Without(At(s, s.entries[m]).addresses, m) != []
  {
    InOrder(s.order, s.arena, s.entries, m);
    var l := At(s, s.entries[m]).addresses;
    WithoutMembers(l, m);
    OnlyElement(l, m);
  }

  lemma YieldShrinks(s: Registry, c: EntryId, r: EntryId, m: Addr)
    requires Core(s) && m in s.entries && s.entries[m] == r && r != c && At(s, r).addresses != [m]
    ensures var y := Yield(s, c, r, m);
      y.order == s.order && Shrunk(At(s, r), m, At(y, r)) && forall x :: x != r ==> At(y, x) == At(s, x)
  {
    hide Core, SyncFaces, MergeRemoved, Without, Rehomed, Shrunk;
    OneOfMore(s, m);
    var d := At(s, r).(addresses := Without(At(s, r).addresses, m));
    RehomedShrinks(At(s, r), m);
    var s1 := WithEntry(s, r, Rehomed(d, m));
    SyncEntry(s1, r);
    ShrunkFaces(At(s, r), m, Rehomed(d, m), At(SyncFaces(s1, r), r));
  }

  lemma MovedElsewhere(s: Registry, t: Registry, s': Registry, t': Registry, c: EntryId, m: Addr)
    requires Moved(s, t, c, m) && s'.arena == s.arena && s'.order == s.order && s'.entries == s.entries
    requires t'.arena == t.arena && t'.order == t.order
    ensures Moved(s', t', c, m)
  {
    hide Shrunk, Grown, Look;
    assert forall x: EntryId {:trigger At(t', x)} :: At(t', x) == At(t, x);
    assert forall x: EntryId {:trigger At(s', x)} :: At(s', x) == At(s, x);
  }

  /** Every other alias moves one address, or none: an operand known to neither side is left out, and an entry that
      loses an address keeps the rest and all it knows. */
  lemma AliasMoves(env: Protocol, s: Registry, a: Addr, b: Addr)
    requires WellFormed(env, s) && !Removes(s, a, b)
    ensures var t := AliasAddresses(env, s, a, b);
      if a in s.entries then Moved(s, t, s.entries[a], b)
      else if b in s.entries then Moved(s, t, s.entries[b], a)
      else t.order == s.order && t.arena == s.arena
  {
    hide WellFormed, Core, AliasGroups, JoinAlias, EnsureSlot, AliasAddresses, RecordEdge, Moved;
    var s0, t := EnsureSlot(EnsureSlot(s, a), b), AliasAddresses(env, s, a, b);
    AliasCases(env, s, a, b);
    AliasFrame(env, s, a, b);
    WellFormedCore(env, s0);
    if a in s.entries {
      JoinMoves(s0, s.entries[a], b);
      MovedElsewhere(s0, AliasGroups(s, a, b), s, t, s.entries[a], b);
    } else if b in s.entries {
      JoinMoves(s0, s.entries[b], a);
      MovedElsewhere(s0, AliasGroups(s, a, b), s, t, s.entries[b], a);
    }
  }

  // ---- registrations --------------------------------------------------------------------------------------

  const NOTHING := DeviceInfo(0, "", "", "", "", "", "")

  // The first of three that is known.
  ghost function First(x: string, y: string, z: string): string
  {
    if x != "" then x else if y != "" then y else z
  }

  /** What is stored of an observation: what was heard first, then what the entry knew, then what a joining group knew;
      but the device id of an entry that the address joins for its triple is the last to be replaced. */
  ghost predicate Stores(heard: DeviceInfo, own: DeviceInfo, other: DeviceInfo, joined: bool, stored: DeviceInfo)
  {
    stored.manufacturer == First(heard.manufacturer, own.manufacturer, other.manufacturer) &&
    stored.deviceID == (if joined then First(own.deviceID, other.deviceID, heard.deviceID)
                        else First(heard.deviceID, own.deviceID, other.deviceID)) &&
    stored.serial == First(heard.serial, own.serial, other.serial) && stored.mac == First(heard.mac, own.mac, other.mac) &&
    stored.software == First(heard.software, own.software, other.software) &&
    stored.hardware == First(heard.hardware, own.hardware, other.hardware)
  }

  lemma StoredIs(heard: DeviceInfo, own: DeviceInfo, other: DeviceInfo, placed: DeviceEntry, joined: bool)
    requires (SameMembers(placed.info, own) && other == NOTHING) || MembersCompleted(own, other, placed.info)
    ensures Stores(heard, own, other, joined, StoredInfo(heard, placed, joined))
  {}

  /** The address's whole group joins the triple's owner. */
  ghost predicate GroupMerges(s: Registry, info: DeviceInfo, e: EntryId)
  {
    Triple(info) != "" && OwnerOf(s, info) == Some(e) && !Disputed(s, info) && GroupJoins(s, info, e)
  }

  lemma MergesIs(s: Registry, info: DeviceInfo)
    requires Core(s) && !Decide(s, info).retained
    ensures Decide(s, info).merge <==> GroupMerges(s, info, AdmittedEntry(s, info))
    ensures Decide(s, info).merge ==> info.address in s.entries && Decide(s, info).existing == Some(s.entries[info.address])
  {
    hide Core, Decide, AdmittedEntry, Disputed, GroupJoins, OwnerOf, Triple;
    AdmittedIs(s, info);
    DecisionFacts(s, info);
    ExistingIs(s, info.address);
    if Triple(info) == "" {
      PartialIs(s, info);
    } else if Disputed(s, info) {
      DisputedDecision(s, info);
    } else if OwnerOf(s, info).None? {
      UnownedDecision(s, info);
    } else {
      OwnedDecision(s, info, OwnerOf(s, info).value);
    }
  }

  lemma PartialIs(s: Registry, info: DeviceInfo)
    requires Triple(info) == ""
    ensures var d := Decide(s, info);
      d.target == d.existing == ExistingAt(s, info.address) && d.incumbent.None? && !d.conflict && !d.merge
  {
    hide Decide, Key, Canonical;
    PartialDecision(s, info);
  }

  lemma PreservesIs(s: Registry, info: DeviceInfo)
    requires Core(s) && !Decide(s, info).retained
    ensures var d, e := Decide(s, info), AdmittedEntry(s, info);
      d.incumbent.Some? && d.incumbent != d.existing <==> e in s.order && ExistingAt(s, info.address) != Some(e)
  {
    hide Core, Decide, AdmittedEntry;
    AdmittedIs(s, info);
    TargetCases(s, info);
    DecisionFacts(s, info);
  }

  lemma PlacedNew(s: Registry, a: Addr, d: Decision)
    requires d.target.None?
    ensures At(Place(s, a, d), s.next) == NewEntry(a)
  {}

  lemma AdmitStores(s: Registry, info: DeviceInfo)
    requires Core(s) && !Decide(s, info).retained
    ensures var e := AdmittedEntry(s, info);
      var own := if e in s.order then At(s, e).info else NOTHING;
      var other := if GroupMerges(s, info, e) then At(s, s.entries[info.address]).info else NOTHING;
      Stores(info, own, other, e in s.order && ExistingAt(s, info.address) != Some(e), At(Admit(s, info), e).info)
  {
    hide Decide, Settle, Core, Place, Refresh, Absorb, StoredInfo, Stores, GroupMerges, MembersCompleted, NewEntry;
    DecisionFacts(s, info);
    SettleFresh(s, info);
    MergesIs(s, info);
    PreservesIs(s, info);
    var d := Decide(s, info);
    var s1 := Settle(s, info, d);
    var e := TargetOf(s1, d);
    SettledMembers(s, info, e);
    PlacedMembers(s1, info.address, d, e);
    RefreshedMembers(Place(s1, info.address, d), e, info, d, e);
    var placed := At(Place(s1, info.address, d), e);
    var joined := d.incumbent.Some? && d.incumbent != d.existing;
    if d.target.None? {
      PlacedNew(s1, info.address, d);
      NewKnowsNothing(info.address);
      StoredIs(info, NOTHING, NOTHING, placed, joined);
    } else if d.merge {
      AbsorbCompletes(At(s, e), At(s, d.existing.value));
      StoredIs(info, At(s, e).info, At(s, d.existing.value).info, placed, joined);
    } else {
      StoredIs(info, At(s, e).info, NOTHING, placed, joined);
    }
  }

  lemma NewKnowsNothing(a: Addr)
    ensures SameMembers(NewEntry(a).info, NOTHING)
  {}

  lemma ObservationInfo(env: Protocol, s: Registry, step: Step)
    requires Observation(step).Some? && !Decide(s, Observation(step).value).retained
    ensures SameInfo(Admit(s, Observation(step).value), Do(env, s, step))
  {
    hide Admit, Decide, Register, RegisterMarked, AdmittedEntry, SameInfo;
    hide MarkSlot, ConfirmScan, AliasAddresses, AdmitCompanion;
    var info := Observation(step).value;
    match step {
      case Observe(_, now) => RegisterInfo(env, s, info, now);
      case Seed(_, role, at) => MarkedInfo(env, s, info, SeedMark(role, at));
      case Passive(_, role, at) => MarkedInfo(env, s, info, PassiveMark(role, at));
    }
  }

  /** What the entry of an observed address holds afterwards, member by member, unless the triple is disputed at a known
      address, where nothing changes. */
  lemma ObservationStores(env: Protocol, s: Registry, step: Step)
    requires WellFormed(env, s) && Observation(step).Some?
    requires var info := Observation(step).value; !(info.address in s.entries && Disputed(s, info))
    ensures Observation(step).value.address in Do(env, s, step).entries
    ensures var t, info := Do(env, s, step), Observation(step).value;
      var e := t.entries[info.address];
      var own := if e in s.order then At(s, e).info else NOTHING;
      var other := if GroupMerges(s, info, e) then At(s, s.entries[info.address]).info else NOTHING;
      Stores(info, own, other, e in s.order && ExistingAt(s, info.address) != Some(e), At(t, e).info)
  {
    hide WellFormed, Core, Do, Decide, AdmittedEntry, Disputed, Admit, Stores, GroupMerges, Regrouped;
    var info := Observation(step).value;
    WellFormedCore(env, s);
    NotRetained(s, info);
    AdmitStores(s, info);
    ObservationInfo(env, s, step);
    ObservationGroups(env, s, step);
    AdmitEntries(s, info);
    RegroupedResolves(s, info);
  }

  lemma NotRetained(s: Registry, info: DeviceInfo)
    requires Core(s)
    ensures Decide(s, info).retained <==> info.address in s.entries && Disputed(s, info)
  {
    hide Core, Decide, Disputed, Contradicted;
    ContradictedIs(s, info);
    RetainedIs(s, info);
  }

  lemma RetainedIs(s: Registry, info: DeviceInfo)
    ensures Decide(s, info).retained <==> info.address in s.entries && Contradicted(s, info)
  {
    hide Contradicted, Regroups, Kept, CompatibleEnrichment;
  }

  lemma DetachLists(s: Registry, x: EntryId, a: Addr)
    requires Core(s) && a in s.entries && s.entries[a] == x
    ensures var t := Detach(s, x, a);
      if At(s, x).addresses == [a] then t.order == Without(s.order, x)
      else t.order == s.order && Shrunk(At(s, x), a, At(t, x))
  {
    hide Core, SyncFaces, RetainBinding, ForgetAddress, Shrunk, Rehomed;
    HomeAddress(s, a);
    if At(s, x).addresses != [a] {
      OneOfMore(s, a);
      var d := At(s, x).(addresses := Without(At(s, x).addresses, a));
      RehomedShrinks(At(s, x), a);
      var s1 := s.(entries := s.entries - {a},
                   table := if SlotAt(s.table, a).device == Some(x) then s.table - {a} else s.table);
      var s2 := WithEntry(s1.(topology := ForgetAddress(s.topology, a)), x, Rehomed(d, a));
      hide Without;
      SyncEntry(s2, x);
      assert Detach(s, x, a) == SyncFaces(s2, x);
      ShrunkFaces(At(s, x), a, Rehomed(d, a), At(SyncFaces(s2, x), x));
    }
  }

  lemma HomeAddress(s: Registry, a: Addr)
    requires Core(s) && a in s.entries
    ensures a in At(s, s.entries[a]).addresses && s.entries[a] in s.order
  {
    InOrder(s.order, s.arena, s.entries, a);
  }

  lemma MergeLists(s: Registry, dst: EntryId, src: EntryId)
    requires Core(s) && dst in s.order && src in s.order && dst != src
    ensures var t := MergeGroup(s, dst, src);
      t.order == Without(s.order, src) && At(t, dst).primary == At(s, dst).primary &&
      At(t, dst).addresses == At(s, dst).addresses + At(s, src).addresses
  {
    ApartGroups(s, dst, src);
    IncludingNew(At(s, dst).addresses, At(s, src).addresses);
    AbsorbFrame(At(s, dst), At(s, src));
    hide Core, Absorb, MoveAll, MoveSlots, IncludingAll, Without, RetainBinding;
  }

  lemma ApartGroups(s: Registry, x: EntryId, y: EntryId)
    requires Core(s) && x in s.order && y in s.order && x != y
    ensures Distinct(At(s, y).addresses) && forall a :: a in At(s, y).addresses ==> a !in At(s, x).addresses
  {
    hide SlotsAgree, IndexRows, Canon, FacesSynced, TopologyOk;
    assert GroupOk(s.arena[y]) && At(s, y) == s.arena[y];
    forall a | a in At(s, y).addresses ensures a !in At(s, x).addresses {
      GroupMembers(s.order, s.arena, s.entries, y, a);
      GroupMembers(s.order, s.arena, s.entries, x, a);
    }
  }

  /** The entry that a registration takes the address out of: gone with its last address or its whole group. */
  ghost predicate Leaves(s: Registry, info: DeviceInfo, e: EntryId)
  {
    info.address in s.entries && s.entries[info.address] != e &&
    (GroupMerges(s, info, e) || At(s, s.entries[info.address]).addresses == [info.address])
  }

  // The selected entry's list and primary address.
  ghost predicate TargetListed(s: Registry, t: Registry, info: DeviceInfo, e: EntryId)
  {
    var a := info.address;
    if e !in s.order then e == s.next && At(t, e).addresses == [a] && At(t, e).primary == a
    else
      At(t, e).primary == At(s, e).primary &&
      At(t, e).addresses ==
        if ExistingAt(s, a) == Some(e) then At(s, e).addresses
        else if GroupMerges(s, info, e) then At(s, e).addresses + At(s, s.entries[a]).addresses
        else At(s, e).addresses + [a]
  }

  /** Addresses and order after a registration that selects entry e: the address last in its group, behind a joining
      group's, and a new entry last of all; the group it left shrinks or is gone. */
  ghost predicate Listed(s: Registry, t: Registry, info: DeviceInfo, e: EntryId)
  {
    var a := info.address;
    TargetListed(s, t, info, e) &&
    (a in s.entries && s.entries[a] != e && !Leaves(s, info, e) ==> Shrunk(At(s, s.entries[a]), a, At(t, s.entries[a]))) &&
    t.order == (if Leaves(s, info, e) then Without(s.order, s.entries[a]) else s.order) + (if e in s.order then [] else [e])
  }

  // Settling: the selected group has joined, or the address has left the group it was in.
  lemma SettleLists(s: Registry, info: DeviceInfo)
    requires Core(s) && !Decide(s, info).retained
    ensures var d, t, a := Decide(s, info), Settle(s, info, Decide(s, info)), info.address;
      (d.target.Some? ==>
         At(t, d.target.value).primary == At(s, d.target.value).primary &&
         At(t, d.target.value).addresses ==
           if d.merge then At(s, d.target.value).addresses + At(s, d.existing.value).addresses
           else At(s, d.target.value).addresses) &&
      (if d.existing.None? || d.existing == d.target then t.order == s.order
       else if d.merge || At(s, d.existing.value).addresses == [a] then t.order == Without(s.order, d.existing.value)
       else t.order == s.order && Shrunk(At(s, d.existing.value), a, At(t, d.existing.value)))
  {
    hide Decide, Core, Key, Canonical, DropStale, Detach, MergeGroup, Shrunk;
    DecisionFacts(s, info);
    ExistingIs(s, info.address);
    var d, key := Decide(s, info), Key(Canonical(info));
    DropEntries(s, key);
    DropStaleCore(s, key);
    var s1 := if key == "" then s else DropStale(s, key);
    if d.existing.Some? && d.existing != d.target {
      if d.merge {
        MergeLists(s1, d.target.value, d.existing.value);
      } else {
        DetachLists(s1, d.existing.value, info.address);
        if d.target.Some? { DetachShape(s1, d.existing.value, info.address); }
      }
    }
  }

  lemma PlacedLists(s: Registry, a: Addr, d: Decision)
    ensures var t, e := Place(s, a, d), TargetOf(s, d);
      if d.target.Some?
      then t.order == s.order && At(t, e).primary == At(s, e).primary &&
           At(t, e).addresses == if a in At(s, e).addresses then At(s, e).addresses else At(s, e).addresses + [a]
      else t.order == s.order + [e] && At(t, e).primary == a && At(t, e).addresses == [a]
  {}

  lemma RefreshedLists(s: Registry, e: EntryId, info: DeviceInfo, d: Decision)
    ensures At(Refresh(s, e, info, d), e).addresses == At(s, e).addresses
    ensures At(Refresh(s, e, info, d), e).primary == At(s, e).primary
    ensures Refresh(s, e, info, d).order == s.order
  {
    hide StoredInfo, AuthorityKey, PublishedRows, PublishedKey, Canonical;
  }

  lemma AdmitListsTarget(s: Registry, info: DeviceInfo)
    requires Core(s) && !Decide(s, info).retained
    ensures TargetListed(s, Admit(s, info), info, AdmittedEntry(s, info))
  {
    hide Decide, Settle, Core, Place, Refresh, Shrunk, GroupMerges, Look, Without;
    DecisionFacts(s, info);
    TargetCases(s, info);
    AdmittedIs(s, info);
    MergesIs(s, info);
    ExistingIs(s, info.address);
    SettleLists(s, info);
    var d := Decide(s, info);
    var s1 := Settle(s, info, d);
    var e := TargetOf(s1, d);
    PlacedLists(s1, info.address, d);
    RefreshedLists(Place(s1, info.address, d), e, info, d);
    if info.address in s.entries { HomeAddress(s, info.address); }
    if e in s.order && ExistingAt(s, info.address) != Some(e) { NotOwn(s, e, info.address); }
  }

  lemma AdmitLists(s: Registry, info: DeviceInfo)
    requires Core(s) && !Decide(s, info).retained
    ensures Listed(s, Admit(s, info), info, AdmittedEntry(s, info))
  {
    hide Decide, Settle, Core, Place, Refresh, Shrunk, GroupMerges, Look, Without, TargetListed;
    AdmitListsTarget(s, info);
    DecisionFacts(s, info);
    TargetCases(s, info);
    AdmittedIs(s, info);
    MergesIs(s, info);
    ExistingIs(s, info.address);
    SettleLists(s, info);
    var d := Decide(s, info);
    var s1 := Settle(s, info, d);
    var e := TargetOf(s1, d);
    PlacedLists(s1, info.address, d);
    RefreshedLists(Place(s1, info.address, d), e, info, d);
    if d.existing.Some? && d.existing != d.target {
      PlaceBystander(s1, info.address, d, d.existing.value);
      RefreshBystander(Place(s1, info.address, d), e, info, d, d.existing.value);
    }
  }

  // Stamping and syncing rebuild the faces of the selected entry, and of no other.
  lemma SettledEntry(s: Registry, a: Addr, e: EntryId, stamp: Stamp, confirm: bool)
    ensures At(Settled(s, a, e, stamp, confirm), e) == At(s, e).(faces := At(Settled(s, a, e, stamp, confirm), e).faces)
  {
    hide FacesOf, AdoptSlots, StampSlot, ConfirmTopology;
    ConfirmFrame(Stamped(s, a, stamp), a, e);
  }

  lemma ListedAlike(s: Registry, t: Registry, u: Registry, info: DeviceInfo, e: EntryId)
    requires Listed(s, t, info, e) && u.order == t.order
    requires At(u, e) == At(t, e).(faces := At(u, e).faces) && forall x :: x != e ==> At(u, x) == At(t, x)
    ensures Listed(s, u, info, e)
  {
    hide Shrunk, GroupMerges, Look, Without;
  }

  /** Every registration lists addresses and entries in the order they came. */
  lemma ObservationLists(env: Protocol, s: Registry, step: Step)
    requires WellFormed(env, s) && Observation(step).Some?
    requires var info := Observation(step).value; !(info.address in s.entries && Disputed(s, info))
    ensures var info := Observation(step).value;
      info.address in Do(env, s, step).entries && Listed(s, Do(env, s, step), info, Do(env, s, step).entries[info.address])
  {
    hide WellFormed, Core, Do, Decide, AdmittedEntry, Disputed, Admit, Regrouped, Listed, Settled, SameAuthority, Look;
    var info := Observation(step).value;
    var e := AdmittedEntry(s, info);
    WellFormedCore(env, s);
    NotRetained(s, info);
    AdmitLists(s, info);
    ObservationGroups(env, s, step);
    AdmitEntries(s, info);
    RegroupedResolves(s, info);
    ObservationAuthority(env, s, step);
    ObservationArena(env, s, step);
    var stamp, confirm :| Do(env, s, step).arena == Settled(Admit(s, info), info.address, e, stamp, confirm).arena;
    SettledEntry(Admit(s, info), info.address, e, stamp, confirm);
    forall x | x != e ensures At(Do(env, s, step), x) == At(Admit(s, info), x) {
      SettledBystander(Admit(s, info), info.address, e, stamp, confirm, x);
    }
    ListedAlike(s, Admit(s, info), Do(env, s, step), info, e);
  }
}
