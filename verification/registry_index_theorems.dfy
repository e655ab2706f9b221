// The identity index: when a step keeps every claimed key current, and where
// published keys come from.
module RegistryIndexTheorems {
  import opened Numerals
  import opened Identity
  import opened RegistryState
  import opened RegistryInvariant
  import opened RegistrySteps
  import opened RegistryAliasSteps

  // ---- current indexes ------------------------------------------------------------

  /** With a current index, lookup finds exactly the stored rows and no row is ever stale. */
  lemma RowsAreCurrent(s: Registry, k: string)
    requires IndexRows(s.identity, s.order, s.arena) && IndexCurrent(s)
    ensures CurrentOwner(s, k) == if k in s.identity then Some(s.identity[k]) else None
    ensures DropStale(s, k) == s
  {
    hide Key;
    if k in s.identity {
      assert k != "";
      assert Owned(s.identity, s.arena, s.identity[k]);
    } else {
      assert s.identity - {k} == s.identity;
    }
  }

  /** Rows and keyed live entries are in bijection. */
  lemma IndexBijection(s: Registry)
    requires IndexRows(s.identity, s.order, s.arena) && IndexCurrent(s)
    ensures forall k :: k in s.identity ==>
      s.identity[k] in s.order && At(s, s.identity[k]).identityKey == k && Key(At(s, s.identity[k]).physical) == k
    ensures forall e :: e in s.order && At(s, e).identityKey != "" ==> s.identity[At(s, e).identityKey] == e
    ensures forall k, j :: k in s.identity && j in s.identity && s.identity[k] == s.identity[j] ==> k == j
  {
    hide Key;
    forall k | k in s.identity
      ensures Key(At(s, s.identity[k]).physical) == k
    {
      assert Owned(s.identity, s.arena, s.identity[k]);
    }
  }

  ghost predicate NoOtherClaim(s: Registry, e: EntryId, k: string)
  {
    forall x :: x in s.order && x != e ==> At(s, x).identityKey != k
  }

  lemma PublishIndex(s: Registry, e: EntryId, k: string)
    requires IndexRows(s.identity, s.order, s.arena) && e in s.order && (k == "" || StableKey(k))
    requires forall x :: x in s.order && x != e ==> Owned(s.identity, s.arena, x)
    requires k != "" ==> NoOtherClaim(s, e, k)
    ensures IndexCurrent(Publish(s, e, k)) <==> k == "" || Key(At(s, e).physical) == k
    ensures At(Publish(s, e, k), e).identityKey == k
  {
    hide Key, CanMerge;
    var t := Publish(s, e, k);
    assert !Refused(s, e, k);
    forall x | x in s.order && x != e
      ensures Owned(t.identity, t.arena, x)
    {
      assert Owned(s.identity, s.arena, x);
    }
    assert Owned(t.identity, t.arena, e) <==> k == "" || Key(At(s, e).physical) == k;
  }

  // ---- settling and placing -----------------------------------------------------------

  ghost predicate SameClaims(s: Registry, t: Registry)
  {
    forall x: EntryId :: At(t, x).identityKey == At(s, x).identityKey && Key(At(t, x).physical) == Key(At(s, x).physical)
  }

  lemma UnchangedIndex(s: Registry, t: Registry)
    requires IndexCurrent(s) && SameClaims(s, t) && t.identity == s.identity && t.order == s.order
    ensures IndexCurrent(t)
  {
    hide Key;
    forall x | x in t.order
      ensures Owned(t.identity, t.arena, x)
    {
      assert Owned(s.identity, s.arena, x);
      assert At(t, x).identityKey == At(s, x).identityKey;
    }
  }

  lemma RetiredIndex(s: Registry, t: Registry, e: EntryId)
    requires IndexCurrent(s) && SameClaims(s, t) && Distinct(s.order)
    requires t.identity == RetainBinding(s.identity, e, "") && t.order == Without(s.order, e)
    ensures IndexCurrent(t)
  {
    hide Key, Without;
    WithoutMembers(s.order, e);
    forall x | x in t.order
      ensures Owned(t.identity, t.arena, x)
    {
      assert Owned(s.identity, s.arena, x);
      assert At(t, x).identityKey == At(s, x).identityKey;
    }
  }

  // Detaching rewrites one entry, whose claim and identity it keeps.
  lemma DetachForm(s: Registry, e: EntryId, a: Addr)
    ensures var t := Detach(s, e, a);
      (t.arena == s.arena || t.arena == s.arena[e := At(t, e)]) &&
      At(t, e).identityKey == At(s, e).identityKey && At(t, e).physical == At(s, e).physical &&
      ((t.identity == s.identity && t.order == s.order) ||
       (t.identity == RetainBinding(s.identity, e, "") && t.order == Without(s.order, e)))
  {
    hide FacesOf, AdoptSlots, ForgetAddress, Without, RetainBinding;
    if a in At(s, e).addresses && Without(At(s, e).addresses, a) != [] {
      var r := Rehomed(At(s, e).(addresses := Without(At(s, e).addresses, a)), a);
      assert Detach(s, e, a).arena == s.arena[e := r][e := At(Detach(s, e, a), e)];
    }
  }

  lemma DetachShape(s: Registry, e: EntryId, a: Addr)
    ensures var t := Detach(s, e, a);
      (forall x: EntryId :: At(t, x).identityKey == At(s, x).identityKey && At(t, x).physical == At(s, x).physical) &&
      (forall x: EntryId :: x != e ==> At(t, x) == At(s, x)) &&
      ((t.identity == s.identity && t.order == s.order) ||
       (t.identity == RetainBinding(s.identity, e, "") && t.order == Without(s.order, e)))
  {
    hide Detach, Without, RetainBinding;
    DetachForm(s, e, a);
  }

  lemma DetachIndex(s: Registry, e: EntryId, a: Addr)
    requires IndexCurrent(s) && Distinct(s.order)
    ensures IndexCurrent(Detach(s, e, a))
  {
    hide IndexCurrent, Detach, Without, RetainBinding, Key;
    DetachShape(s, e, a);
    var t := Detach(s, e, a);
    if t.identity == s.identity && t.order == s.order {
      UnchangedIndex(s, t);
    } else {
      RetiredIndex(s, t, e);
    }
  }

  lemma AbsorbKeepsKey(dst: DeviceEntry, src: DeviceEntry)
    requires dst.physical == Canonical(dst.info) && Key(dst.physical) != ""
    ensures Key(Absorb(dst, src).physical) == Key(dst.physical)
    ensures Key(Canonical(Absorb(dst, src).info)) == Key(dst.physical)
  {
    hide EncodeTriple, InvalidSerialSentinel, Upper, TrimLeft, TrimRight;
    NormalizeIdempotent("");
  }

  lemma MergeIndex(s: Registry, dst: EntryId, src: EntryId)
    requires Core(s) && IndexCurrent(s) && dst in s.order && src in s.order && dst != src
    requires At(s, dst).identityKey != ""
    ensures IndexCurrent(MergeGroup(s, dst, src))
    ensures At(MergeGroup(s, dst, src), dst).identityKey == At(s, dst).identityKey
    ensures Key(Canonical(At(MergeGroup(s, dst, src), dst).info)) == At(s, dst).identityKey
    ensures MergeGroup(s, dst, src).order == Without(s.order, src)
  {
    hide Key, Canonical, Absorb, MergeGroup, Without, Core, RetainBinding, IndexCurrent;
    var t := MergeGroup(s, dst, src);
    OwnedEntry(s, dst);
    AbsorbKeepsKey(At(s, dst), At(s, src));
    MergeShape(s, dst, src);
    hide Owned;
    assert SameClaims(s, t);
    RetiredIndex(s, t, src);
  }

  lemma OwnedEntry(s: Registry, e: EntryId)
    requires Core(s) && IndexCurrent(s) && e in s.order
    ensures Owned(s.identity, s.arena, e) && At(s, e).physical == Canonical(At(s, e).info) && Distinct(s.order)
  {
    EntryCanonical(s, e);
    OrderDistinct(s);
  }

  lemma MergeShape(s: Registry, dst: EntryId, src: EntryId)
    ensures var t := MergeGroup(s, dst, src); var absorbed := Absorb(At(s, dst), At(s, src));
      t.identity == RetainBinding(s.identity, src, "") && t.order == Without(s.order, src) &&
      At(t, dst).identityKey == At(s, dst).identityKey &&
      At(t, dst).physical == absorbed.physical && At(t, dst).info == absorbed.info &&
      forall x :: x != dst ==> At(t, x) == At(s, x)
  {
    AbsorbFrame(At(s, dst), At(s, src));
    hide Absorb, MoveAll, MoveSlots, IncludingAll, Without, RetainBinding;
  }

  // ---- the registering observation ------------------------------------------------------

  /** A partial observation that keeps an authority although one of its triple members is blank. */
  ghost predicate BlankRefresh(s: Registry, info: DeviceInfo)
  {
    Key(Canonical(info)) == "" && info.address in s.entries &&
    PreservesAuthority(info, At(s, s.entries[info.address])) &&
    (Blank(info.manufacturer) || Blank(info.deviceID) || Blank(info.serial))
  }

  // The stored triple, when the observation carries none of its own.
  lemma SparseStored(info: DeviceInfo, d: DeviceEntry)
    requires PreservesAuthority(info, d) && d.physical == Canonical(d.info)
    ensures Key(Canonical(StoredInfo(info, d, false))) == d.identityKey <==>
            !(Blank(info.manufacturer) || Blank(info.deviceID) || Blank(info.serial))
  {
    hide EncodeTriple, InvalidSerialSentinel, Upper, TrimLeft, TrimRight, StableKey;
    NormalizeIdempotent("");
    var p := Canonical(StoredInfo(info, d, false));
    assert !Blank(info.manufacturer) ==> p.manufacturer == d.physical.manufacturer;
    assert !Blank(info.deviceID) ==> p.deviceID == d.physical.deviceID;
    assert !Blank(info.serial) ==> p.serial == d.physical.serial;
  }

  // The stored triple is the observed one when that is complete.
  lemma CompleteStored(info: DeviceInfo, d: DeviceEntry, preserve: bool)
    requires Key(Canonical(info)) != ""
    requires preserve ==> Key(Canonical(d.info)) == Key(Canonical(info))
    ensures Key(Canonical(StoredInfo(info, d, preserve))) == Key(Canonical(info))
  {
    NormalizeIdempotent("");
    if preserve { KeyInjective(Canonical(info), Canonical(d.info)); }
    hide EncodeTriple, InvalidSerialSentinel, Upper, TrimLeft, TrimRight, StableKey;
  }

  // What settling and placing leave alone: the claims of every other entry.
  ghost predicate OthersClaimAsBefore(s: Registry, t: Registry, e: EntryId)
  {
    forall x :: x in t.order && x != e ==> x in s.order && At(t, x).identityKey == At(s, x).identityKey
  }

  lemma DetachClaims(s: Registry, e: EntryId, a: Addr)
    requires Distinct(s.order)
    ensures forall x :: x in Detach(s, e, a).order ==>
      x in s.order && At(Detach(s, e, a), x).identityKey == At(s, x).identityKey
    ensures forall x :: x != e ==> At(Detach(s, e, a), x) == At(s, x)
  {
    hide Detach, Without, RetainBinding;
    WithoutMembers(s.order, e);
    DetachShape(s, e, a);
  }

  lemma SettleIndex(s: Registry, info: DeviceInfo)
    requires Core(s) && IndexCurrent(s) && !Decide(s, info).retained
    ensures var d := Decide(s, info); var t := Settle(s, info, d);
      IndexCurrent(t) &&
      (forall x :: x in t.order ==> x in s.order && At(t, x).identityKey == At(s, x).identityKey) &&
      (d.incumbent.Some? ==> Key(Canonical(At(t, d.incumbent.value).info)) == Key(Canonical(info))) &&
      (Key(Canonical(info)) == "" ==> t == s)
  {
    hide Decide, Core, IndexCurrent, Key, Canonical, CurrentOwner, Detach, MergeGroup, DropStale;
    var d, k := Decide(s, info), Key(Canonical(info));
    DecisionFacts(s, info);
    CoreRowsCurrent(s, k);
    if d.incumbent.Some? { IncumbentKey(s, k, d.incumbent.value); }
    if k == "" { PartialDecision(s, info); }
    if d.existing.Some? && d.existing != d.target {
      if d.merge {
        SettleMergeIndex(s, d.target.value, d.existing.value);
      } else {
        CoreOrder(s);
        DetachIndex(s, d.existing.value, info.address);
        DetachClaims(s, d.existing.value, info.address);
      }
    }
  }

  lemma CoreRowsCurrent(s: Registry, k: string)
    requires Core(s) && IndexCurrent(s)
    ensures DropStale(s, k) == s
  {
    RowsAreCurrent(s, k);
  }

  lemma IncumbentKey(s: Registry, k: string, e: EntryId)
    requires Core(s) && IndexCurrent(s) && e in s.order && CurrentOwner(s, k) == Some(e)
    ensures Key(Canonical(At(s, e).info)) == k && At(s, e).identityKey == k && k != ""
  {
    hide Key, Canonical, Core;
    OwnedEntry(s, e);
  }

  lemma SettleMergeIndex(s: Registry, dst: EntryId, src: EntryId)
    requires Core(s) && IndexCurrent(s) && dst in s.order && src in s.order && dst != src
    requires At(s, dst).identityKey != ""
    ensures var t := MergeGroup(s, dst, src);
      IndexCurrent(t) && Key(Canonical(At(t, dst).info)) == At(s, dst).identityKey &&
      (forall x :: x in t.order ==> x in s.order && At(t, x).identityKey == At(s, x).identityKey)
  {
    CoreOrder(s);
    WithoutMembers(s.order, src);
    hide MergeGroup, Without, Core, IndexCurrent, Key, Canonical, Absorb;
    MergeIndex(s, dst, src);
    MergeShape(s, dst, src);
  }

  lemma CoreOrder(s: Registry)
    requires Core(s)
    ensures Distinct(s.order)
  {
    OrderDistinct(s);
  }

  // An observation without a complete triple stays where its address already is.
  lemma PartialDecision(s: Registry, info: DeviceInfo)
    requires Key(Canonical(info)) == ""
    ensures var d := Decide(s, info);
      d.target == d.existing == ExistingAt(s, info.address) && d.incumbent.None? && !d.conflict && !d.merge
  {
    hide CanMerge, CompatibleEnrichment, CurrentOwner;
  }

  lemma PlaceIndex(s: Registry, a: Addr, d: Decision)
    requires IndexCurrent(s) && FreshHandles(s.arena, s.next)
    requires d.target.Some? ==> d.target.value in s.order
    ensures var t := Place(s, a, d); var e := TargetOf(s, d);
      IndexCurrent(t) && OthersClaimAsBefore(s, t, e) && t.identity == s.identity &&
      (if d.target.Some? then At(t, e) == At(s, e).(addresses := At(t, e).addresses)
       else At(t, e) == NewEntry(a))
  {
    hide Key, Including;
    var t, e := Place(s, a, d), TargetOf(s, d);
    forall x | x in t.order
      ensures Owned(t.identity, t.arena, x)
    {
      if x in s.order { assert Owned(s.identity, s.arena, x); }
    }
  }

  lemma OwnKeyUnclaimed(t: Registry, e: EntryId)
    requires IndexCurrent(t) && e in t.order && At(t, e).identityKey != ""
    ensures NoOtherClaim(t, e, At(t, e).identityKey)
  {
    hide Key;
    assert Owned(t.identity, t.arena, e);
    assert forall x :: x in t.order ==> Owned(t.identity, t.arena, x);
  }

  lemma ClaimantIsCandidate(s: Registry, info: DeviceInfo, x: EntryId)
    requires Core(s) && IndexCurrent(s) && x in s.order && Key(Canonical(info)) != ""
    requires At(s, x).identityKey == Key(Canonical(info))
    ensures Candidate(s, info) == Some(x)
  {
    RowsAreCurrent(s, Key(Canonical(info)));
    hide Key, Canonical, CurrentOwner;
    assert Owned(s.identity, s.arena, x);
  }

  lemma CandidateIsIncumbent(s: Registry, info: DeviceInfo)
    requires !Decide(s, info).conflict && Key(Canonical(info)) != ""
    ensures Decide(s, info).incumbent == Candidate(s, info)
  {
    hide CanMerge, CompatibleEnrichment, CurrentOwner, Canonical, Key;
  }

  // The row that a registration publishes is claimed by nobody else.
  lemma PublishedUnclaimed(s: Registry, info: DeviceInfo, t: Registry, e: EntryId)
    requires Core(s) && IndexCurrent(s) && IndexCurrent(t) && OthersClaimAsBefore(s, t, e) && e in t.order
    requires var d := Decide(s, info); d.incumbent.Some? ==> d.incumbent == Some(e)
    ensures var k := AuthorityKey(info, At(t, e), Decide(s, info).conflict);
      k != "" ==> NoOtherClaim(t, e, k)
  {
    hide Canonical, Key, Core, Decide, PreservesAuthority, Candidate, IndexCurrent;
    var k := AuthorityKey(info, At(t, e), Decide(s, info).conflict);
    if k != "" {
      if Key(Canonical(info)) == "" {
        OwnKeyUnclaimed(t, e);
      } else {
        CandidateIsIncumbent(s, info);
        forall x | x in t.order && x != e
          ensures At(t, x).identityKey != k
        {
          if At(t, x).identityKey == k { ClaimantIsCandidate(s, info, x); }
        }
      }
    }
  }

  // Storing and publishing in an entry keeps the index exactly when the published key is stored.
  lemma RefreshIndex(s: Registry, e: EntryId, info: DeviceInfo, d: Decision)
    requires Sound(s, {e}) && IndexCurrent(s) && e in s.order
    requires var k := AuthorityKey(info, At(s, e), d.conflict); k != "" ==> NoOtherClaim(s, e, k)
    ensures var k := AuthorityKey(info, At(s, e), d.conflict);
      var stored := StoredInfo(info, At(s, e), d.incumbent.Some? && d.incumbent != d.existing);
      IndexCurrent(Refresh(s, e, info, d)) <==> k == "" || Key(Canonical(stored)) == k
    ensures At(Refresh(s, e, info, d), e).identityKey == AuthorityKey(info, At(s, e), d.conflict)
  {
    var stored := StoredInfo(info, At(s, e), d.incumbent.Some? && d.incumbent != d.existing);
    var k := AuthorityKey(info, At(s, e), d.conflict);
    AuthorityKeyStable(info, At(s, e), d.conflict);
    hide AuthorityKey, Canonical, StableKey, Key, StoredInfo;
    var n := At(s, e).(info := stored, physical := Canonical(stored));
    var s3 := WithEntry(s, e, n);
    RewriteKeepsRows(s.identity, s.order, s.arena, e, n);
    forall x | x in s.order && x != e
      ensures Owned(s3.identity, s3.arena, x)
    {
      assert Owned(s.identity, s.arena, x);
    }
    hide Owned, IndexRows;
    PublishIndex(s3, e, k);
    hide Publish;
  }

  // ---- exactly when a registration keeps the index --------------------------------------

  lemma PlacedIndex(s: Registry, info: DeviceInfo)
    requires Core(s) && IndexCurrent(s) && !Decide(s, info).retained
    ensures var d := Decide(s, info); var s1 := Settle(s, info, d);
      var t, e := Place(s1, info.address, d), TargetOf(s1, d);
      Sound(t, {e}) && e in t.order && IndexCurrent(t) && OthersClaimAsBefore(s, t, e) &&
      (d.target.None? ==> At(t, e) == NewEntry(info.address)) &&
      (Key(Canonical(info)) == "" && d.target.Some? ==> At(t, e) == At(s, e).(addresses := At(t, e).addresses)) &&
      (d.incumbent.Some? ==> d.incumbent == Some(e) && Key(Canonical(At(t, e).info)) == Key(Canonical(info)))
  {
    hide Decide, Settle, Core, IndexCurrent, Canonical, Key, CurrentOwner, Sound, TopologyOk, Place, TargetOf, NewEntry;
    hide FreshHandles, At;
    var d := Decide(s, info);
    var s1 := Settle(s, info, d);
    DecisionFacts(s, info);
    SettleKeeps(s, info);
    SettleIndex(s, info);
    DecisionTarget(s, info);
    SettledHandles(s1, info.address, d);
    PlacedTarget(s1, d);
    PlaceStep(s1, info.address, d);
    PlaceIndex(s1, info.address, d);
    PlacedOthers(s, s1, Place(s1, info.address, d), TargetOf(s1, d));
  }

  lemma PlacedOthers(s: Registry, s1: Registry, t: Registry, e: EntryId)
    requires OthersClaimAsBefore(s1, t, e)
    requires forall x :: x in s1.order ==> x in s.order && At(s1, x).identityKey == At(s, x).identityKey
    ensures OthersClaimAsBefore(s, t, e)
  {}

  lemma AdmitIndex(s: Registry, info: DeviceInfo)
    requires Core(s) && IndexCurrent(s) && !Decide(s, info).retained
    ensures IndexCurrent(Admit(s, info)) <==> !BlankRefresh(s, info)
    ensures Decide(s, info).incumbent.Some? ==>
      AdmittedEntry(s, info) == Decide(s, info).incumbent.value &&
      At(Admit(s, info), AdmittedEntry(s, info)).identityKey == Key(Canonical(info))
    ensures Key(Canonical(info)) != "" ==>
      At(Admit(s, info), AdmittedEntry(s, info)).identityKey ==
        if Contradicted(s, info) then "" else Key(Canonical(info))
  {
    hide Decide, Settle, Place, TargetOf, Refresh, Core, Sound, IndexCurrent, BlankRefresh, Contradicted;
    hide Canonical, Key, StoredInfo, AuthorityKey, OthersClaimAsBefore;
    var d := Decide(s, info);
    var s1 := Settle(s, info, d);
    var s2, e := Place(s1, info.address, d), TargetOf(s1, d);
    PlacedIndex(s, info);
    PublishedUnclaimed(s, info, s2, e);
    RefreshIndex(s2, e, info, d);
    PlacedTarget(s1, d);
    StoredKeyExact(s, info, d, s2, e);
    if d.incumbent.Some? { IncumbentAuthority(s, info, At(s2, e)); }
    if Key(Canonical(info)) != "" { CompleteAuthority(s, info, At(s2, e)); }
  }

  lemma CompleteAuthority(s: Registry, info: DeviceInfo, n: DeviceEntry)
    requires Key(Canonical(info)) != ""
    ensures AuthorityKey(info, n, Decide(s, info).conflict) == if Contradicted(s, info) then "" else Key(Canonical(info))
  {
    hide Canonical, Key, Contradicted, CurrentOwner, CompatibleEnrichment, PreservesAuthority;
  }

  lemma IncumbentAuthority(s: Registry, info: DeviceInfo, n: DeviceEntry)
    requires Decide(s, info).incumbent.Some?
    ensures AuthorityKey(info, n, Decide(s, info).conflict) == Key(Canonical(info))
  {
    hide Canonical, Key, CanMerge, CurrentOwner, CompatibleEnrichment;
  }

  lemma PlacedTarget(s: Registry, d: Decision)
    ensures d.target.Some? ==> TargetOf(s, d) == d.target.value
  {}

  lemma SettledHandles(s: Registry, a: Addr, d: Decision)
    requires if d.merge then d.target.Some? && Sound(s, {d.target.value}) && Homed(s, a, d.target.value)
             else Sound(s, {}) && (d.target.Some? ==> d.target.value in s.order)
    ensures FreshHandles(s.arena, s.next) && (d.target.Some? ==> d.target.value in s.order)
  {}

  // The key published is the key stored, except for a blank refresh.
  lemma StoredKeyExact(s: Registry, info: DeviceInfo, d: Decision, t: Registry, e: EntryId)
    requires Core(s) && d == Decide(s, info)
    requires Key(Canonical(info)) == "" && d.target.Some? ==>
      e == d.target.value && At(t, e) == At(s, e).(addresses := At(t, e).addresses)
    requires d.target.None? ==> At(t, e) == NewEntry(info.address)
    requires d.incumbent.Some? ==>
      d.incumbent == Some(e) && Key(Canonical(At(t, e).info)) == Key(Canonical(info))
    ensures var k := AuthorityKey(info, At(t, e), d.conflict);
      var stored := StoredInfo(info, At(t, e), d.incumbent.Some? && d.incumbent != d.existing);
      (k == "" || Key(Canonical(stored)) == k) <==> !BlankRefresh(s, info)
  {
    var preserve := d.incumbent.Some? && d.incumbent != d.existing;
    if Key(Canonical(info)) != "" {
      hide Canonical, Key, PreservesAuthority, Decide, Core;
      CompleteStored(info, At(t, e), preserve);
    } else {
      PartialDecision(s, info);
      hide Decide;
      if d.target.None? {
        hide Canonical, Key;
      } else {
        InOrder(s.order, s.arena, s.entries, info.address);
        EntryCanonical(s, e);
        hide Core, Canonical, Key;
        if PreservesAuthority(info, At(t, e)) { SparseStored(info, At(t, e)); }
      }
    }
  }
}
