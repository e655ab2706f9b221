// The registry's invariants and the effect of each helper on them.
module RegistryInvariant {
  import opened Numerals
  import opened Identity
  import opened RegistryState

  // ---- sequences without repetition ---------------------------------------------

  ghost predicate Distinct<T>(xs: seq<T>)
  {
    forall i, j :: 0 <= i < j < |xs| ==> xs[i] != xs[j]
  }

  lemma {:induction false} WithoutMembers<T>(xs: seq<T>, x: T)
    requires Distinct(xs)
    ensures Distinct(Without(xs, x))
    ensures forall y :: y in Without(xs, x) <==> y in xs && y != x
    ensures |Without(xs, x)| == if x in xs then |xs| - 1 else |xs|
  {
    if xs != [] {
      var tail := xs[1..];
      assert forall y :: y in xs <==> y == xs[0] || y in tail;
      assert forall j :: 0 <= j < |tail| ==> tail[j] == xs[j + 1];
      if xs[0] != x {
        WithoutMembers(tail, x);
        var rest := Without(tail, x);
        assert xs[0] !in rest;
        assert Without(xs, x) == [xs[0]] + rest;
        assert forall y :: y in [xs[0]] + rest <==> y == xs[0] || y in rest;
      }
    }
  }

  lemma IncludingMembers<T>(xs: seq<T>, x: T)
    requires Distinct(xs)
    ensures Distinct(Including(xs, x))
    ensures forall y :: y in Including(xs, x) <==> y in xs || y == x
  {}

  lemma {:induction false} IncludingAllMembers<T>(xs: seq<T>, ys: seq<T>)
    requires Distinct(xs)
    ensures Distinct(IncludingAll(xs, ys))
    ensures forall y :: y in IncludingAll(xs, ys) <==> y in xs || y in ys
  {
    if ys != [] {
      IncludingAllMembers(xs, ys[..|ys| - 1]);
      assert forall y :: y in ys <==> y in ys[..|ys| - 1] || y == ys[|ys| - 1];
      IncludingMembers(IncludingAll(xs, ys[..|ys| - 1]), ys[|ys| - 1]);
    }
  }

  // ---- invariants ----------------------------------------------------------------

  ghost predicate GroupOk(d: DeviceEntry)
  {
    d.addresses != [] && Distinct(d.addresses) && d.primary in d.addresses && d.info.address == d.primary
  }

  /** The live entries' address groups partition the registered addresses. */
  ghost predicate Partition(order: seq<EntryId>, arena: Arena, entries: map<Addr, EntryId>)
  {
    Distinct(order) &&
    (forall e :: e in order ==> e in arena && GroupOk(arena[e])) &&
    (forall a: Addr :: a in entries ==> entries[a] in order && a in Look(arena, entries[a]).addresses) &&
    (forall e: EntryId, a: Addr :: e in order && a in Look(arena, e).addresses ==> a in entries && entries[a] == e)
  }

  /** Every slot's device is what the entry map says. */
  ghost predicate SlotsAgree(entries: map<Addr, EntryId>, table: map<Addr, AddressSlot>)
  {
    (forall a: Addr :: a in entries ==> a in table && table[a].device == Some(entries[a])) &&
    (forall a: Addr :: a in table && table[a].device.Some? ==> a in entries)
  }

  /** Every index row names a live entry that claims the row's key. */
  ghost predicate IndexRows(identity: map<string, EntryId>, order: seq<EntryId>, arena: Arena)
  {
    forall k :: k in identity ==>
      StableKey(k) && identity[k] in order && Look(arena, identity[k]).identityKey == k
  }

  /** Symmetric, irreflexive, without empty rows, and only over registered addresses. */
  ghost predicate TopologyOk(topology: map<Addr, set<Addr>>, entries: map<Addr, EntryId>)
  {
    (forall a: Addr :: a in topology ==> a in entries && topology[a] != {} && a !in topology[a]) &&
    (forall a: Addr, b: Addr :: b in Edges(topology, a) ==> a in Edges(topology, b))
  }

  /** The cached identity is the normalized stored information (but for `skip`). */
  ghost predicate Canon(order: seq<EntryId>, arena: Arena, skip: set<EntryId>)
  {
    forall e :: e in order && e !in skip ==> Look(arena, e).physical == Canonical(Look(arena, e).info)
  }

  /** Faces are the image of the group's slots (but for `skip`). */
  ghost predicate FacesSynced(order: seq<EntryId>, arena: Arena, table: map<Addr, AddressSlot>, skip: set<EntryId>)
  {
    forall e :: e in order && e !in skip ==> Look(arena, e).faces == FacesOf(Look(arena, e).addresses, table)
  }

  ghost predicate FreshHandles(arena: Arena, next: EntryId)
  {
    forall e :: e in arena ==> e < next
  }

  /** All but the topology; entries in `skip` may be waiting for their derived fields. */
  ghost predicate Sound(s: Registry, skip: set<EntryId>)
  {
    Partition(s.order, s.arena, s.entries) && FreshHandles(s.arena, s.next) &&
    SlotsAgree(s.entries, s.table) &&
    IndexRows(s.identity, s.order, s.arena) &&
    Canon(s.order, s.arena, skip) &&
    FacesSynced(s.order, s.arena, s.table, skip)
  }

  ghost predicate Core(s: Registry)
  {
    Sound(s, {}) && TopologyOk(s.topology, s.entries)
  }

  /** Every stored witness passes the whole currentness check; proofs are numbered apart. */
  ghost predicate WitnessesOk(env: Protocol, s: Registry)
  {
    (forall a: Addr :: a in s.witnesses ==>
       WitnessCurrent(env, s, a, s.witnesses[a].proof) &&
       s.witnesses[a].proof.proofGeneration <= s.proofGeneration &&
       s.witnesses[a].proof.observationGeneration <= s.observationGeneration) &&
    (forall a: Addr, b: Addr :: a in s.witnesses && b in s.witnesses && a != b ==>
       s.witnesses[a].proof.proofGeneration != s.witnesses[b].proof.proofGeneration)
  }

  ghost predicate WellFormed(env: Protocol, s: Registry)
  {
    Core(s) && WitnessesOk(env, s)
  }

  /** The entry's claimed key, if any, is its own row and prints its current complete triple. */
  ghost predicate Owned(identity: map<string, EntryId>, arena: Arena, e: EntryId)
  {
    var k := Look(arena, e).identityKey;
    k != "" ==> k in identity && identity[k] == e && Key(Look(arena, e).physical) == k
  }

  /** Every claimed key is owned: rows and keyed live entries are in bijection. */
  ghost predicate IndexCurrent(s: Registry)
  {
    forall e :: e in s.order ==> Owned(s.identity, s.arena, e)
  }

  // ---- rewriting one entry in place ----------------------------------------------

  ghost predicate SameGroup(d: DeviceEntry, d': DeviceEntry)
  {
    d'.addresses == d.addresses && d'.primary == d.primary && d'.info.address == d.info.address
  }

  lemma RewriteKeepsPartition(order: seq<EntryId>, arena: Arena, entries: map<Addr, EntryId>, e: EntryId, d: DeviceEntry)
    requires Partition(order, arena, entries) && e in order && SameGroup(arena[e], d)
    ensures Partition(order, arena[e := d], entries)
  {
    assert forall x :: x in order ==> Look(arena[e := d], x).addresses == Look(arena, x).addresses;
  }

  lemma RewriteKeepsDerived(order: seq<EntryId>, arena: Arena, table: map<Addr, AddressSlot>, skip: set<EntryId>,
                            e: EntryId, d: DeviceEntry)
    requires Canon(order, arena, skip) && FacesSynced(order, arena, table, skip)
    ensures Canon(order, arena[e := d], skip + {e}) && FacesSynced(order, arena[e := d], table, skip + {e})
    ensures d.physical == Canonical(d.info) ==> Canon(order, arena[e := d], skip - {e})
    ensures d.faces == FacesOf(d.addresses, table) ==> FacesSynced(order, arena[e := d], table, skip - {e})
  {
    hide Canonical, FacesOf;
  }

  lemma CanonGrows(order: seq<EntryId>, arena: Arena, skip: set<EntryId>)
    requires Canon(order, arena, {})
    ensures Canon(order, arena, skip)
  {}

  lemma RewriteKeepsRows(identity: map<string, EntryId>, order: seq<EntryId>, arena: Arena, e: EntryId, d: DeviceEntry)
    requires IndexRows(identity, order, arena) && d.identityKey == Look(arena, e).identityKey
    ensures IndexRows(identity, order, arena[e := d])
  {
    hide StableKey;
  }

  // ---- faces ----------------------------------------------------------------------

  lemma AdoptIsIdle(s: Registry, e: EntryId)
    requires Partition(s.order, s.arena, s.entries) && SlotsAgree(s.entries, s.table) && e in s.order
    ensures AdoptSlots(s.table, At(s, e).addresses, e) == s.table
  {}

  lemma SyncKeeps(s: Registry, e: EntryId)
    requires Sound(s, {e}) && e in s.order && At(s, e).physical == Canonical(At(s, e).info)
    ensures SyncFaces(s, e) == WithEntry(s, e, At(s, e).(faces := FacesOf(At(s, e).addresses, s.table)))
    ensures Sound(SyncFaces(s, e), {})
  {
    AdoptIsIdle(s, e);
    hide Canonical, FacesOf, AdoptSlots, Partition, SlotsAgree, IndexRows, Canon, FacesSynced, StableKey;
    var d := At(s, e).(faces := FacesOf(At(s, e).addresses, s.table));
    LiveInArena(s.order, s.arena, s.entries, e);
    RewriteKeepsPartition(s.order, s.arena, s.entries, e, d);
    RewriteKeepsRows(s.identity, s.order, s.arena, e, d);
    RewriteKeepsDerived(s.order, s.arena, s.table, {e}, e, d);
    assert {e} - {e} == {};
  }

  lemma LiveInArena(order: seq<EntryId>, arena: Arena, entries: map<Addr, EntryId>, e: EntryId)
    requires Partition(order, arena, entries) && e in order
    ensures e in arena
  {}

  // ---- index -----------------------------------------------------------------------

  lemma DropStaleKeeps(s: Registry, k: string, skip: set<EntryId>)
    requires Sound(s, skip)
    ensures Sound(DropStale(s, k), skip)
    ensures CurrentOwner(DropStale(s, k), k) == CurrentOwner(s, k)
  {
    hide Partition, SlotsAgree, TopologyOk, Canon, FacesSynced, Key, StableKey;
  }

  lemma RewriteKeepsIndex(identity: map<string, EntryId>, order: seq<EntryId>, arena: Arena, e: EntryId,
                          d: DeviceEntry, k: string)
    requires IndexRows(identity, order, arena) && e in order && d.identityKey == k
    requires k == "" || StableKey(k)
    ensures IndexRows(RetainBinding(identity, e, k), order, arena[e := d])
    ensures k != "" ==> IndexRows(RetainBinding(identity, e, k)[k := e], order, arena[e := d])
  {
    hide StableKey;
  }

  lemma RekeyKeeps(s: Registry, e: EntryId, k: string, skip: set<EntryId>)
    requires Sound(s, skip) && e in s.order && (k == "" || StableKey(k))
    ensures var t := s.(identity := RetainBinding(s.identity, e, k),
                        arena := s.arena[e := At(s, e).(identityKey := k)]);
            Sound(t, skip) && (k != "" ==> Sound(t.(identity := t.identity[k := e]), skip))
  {
    hide StableKey, Canonical, FacesOf;
    var d := At(s, e).(identityKey := k);
    RewriteKeepsPartition(s.order, s.arena, s.entries, e, d);
    RewriteKeepsIndex(s.identity, s.order, s.arena, e, d, k);
    assert forall x :: Look(s.arena[e := d], x).physical == Look(s.arena, x).physical;
  }

  lemma PublishKeeps(s: Registry, e: EntryId, k: string, skip: set<EntryId>)
    requires Sound(s, skip) && e in s.order && (k == "" || StableKey(k))
    ensures Sound(Publish(s, e, k), skip)
  {
    hide Sound, StableKey, CanMerge, Key, RetainBinding;
    DropStaleKeeps(s, k, skip);
    RekeyKeeps(s, e, "", skip);
    RekeyKeeps(DropStale(s, k), e, "", skip);
    RekeyKeeps(DropStale(s, k), e, k, skip);
  }

  // Publishing touches the index rows and one entry's key, nothing else.
  lemma PublishFrame(s: Registry, e: EntryId, k: string)
    ensures var t := Publish(s, e, k);
            t == s.(identity := t.identity, arena := s.arena[e := At(s, e).(identityKey := At(t, e).identityKey)])
    ensures At(Publish(s, e, k), e).identityKey in {"", k}
  {
    hide CanMerge, Key, StableKey, RetainBinding;
  }

  // ---- topology ----------------------------------------------------------------------

  lemma ForgetKeeps(topology: map<Addr, set<Addr>>, entries: map<Addr, EntryId>, a: Addr)
    requires TopologyOk(topology, entries)
    ensures TopologyOk(ForgetAddress(topology, a), entries - {a})
    ensures forall x: Addr :: Edges(ForgetAddress(topology, a), x) == if x == a then {} else Edges(topology, x) - {a}
  {
    var after := ForgetAddress(topology, a);
    forall x: Addr
      ensures Edges(after, x) == if x == a then {} else Edges(topology, x) - {a}
    {
      if x != a && x in topology && x !in Edges(topology, a) {
        assert a !in Edges(topology, x);
      }
    }
  }

  lemma RecordEdgeKeeps(topology: map<Addr, set<Addr>>, entries: map<Addr, EntryId>, a: Addr, b: Addr)
    requires TopologyOk(topology, entries) && a in entries && b in entries
    ensures TopologyOk(RecordEdge(topology, a, b), entries)
  {
    if a != b {
      var after := RecordEdge(topology, a, b);
      assert forall x: Addr {:trigger Edges(after, x)} ::
          Edges(after, x) == Edges(topology, x) + (if x == a then {b} else if x == b then {a} else {});
    }
  }

  // ---- leaving a group ------------------------------------------------------------------

  lemma ShrinkKeepsPartition(order: seq<EntryId>, arena: Arena, entries: map<Addr, EntryId>, e: EntryId, a: Addr,
                             d: DeviceEntry)
    requires Partition(order, arena, entries) && a in entries && entries[a] == e
    requires d.addresses == Without(arena[e].addresses, a) && d.addresses != []
    requires d.primary in d.addresses && d.info.address == d.primary
    ensures Partition(order, arena[e := d], entries - {a})
  {
    hide Without;
    WithoutMembers(arena[e].addresses, a);
    forall x: EntryId, b: Addr | x in order && b in Look(arena[e := d], x).addresses
      ensures b in entries - {a} && (entries - {a})[b] == x
    {
      assert b in Look(arena, x).addresses;
    }
  }

  lemma EmptyKeepsPartition(order: seq<EntryId>, arena: Arena, entries: map<Addr, EntryId>, e: EntryId, a: Addr,
                            d: DeviceEntry)
    requires Partition(order, arena, entries) && a in entries && entries[a] == e
    requires Without(arena[e].addresses, a) == []
    ensures Partition(Without(order, e), arena[e := d], entries - {a})
  {
    hide Without;
    WithoutMembers(arena[e].addresses, a);
    WithoutMembers(order, e);
    forall b: Addr | b in entries - {a}
      ensures entries[b] != e
    {
      if entries[b] == e { assert false; }
    }
  }

  lemma DropSlotKeepsFaces(order: seq<EntryId>, arena: Arena, entries: map<Addr, EntryId>,
                           table: map<Addr, AddressSlot>, a: Addr)
    requires Partition(order, arena, entries) && a in entries && FacesSynced(order, arena, table, {})
    ensures FacesSynced(order, arena, table - {a}, {entries[a]})
  {
    forall e | e in order && e != entries[a]
      ensures FacesOf(Look(arena, e).addresses, table) == FacesOf(Look(arena, e).addresses, table - {a})
    {
      assert a !in Look(arena, e).addresses;
    }
  }

  lemma RetireKeeps(s: Registry, e: EntryId, d: DeviceEntry)
    requires IndexRows(s.identity, s.order, s.arena) && Distinct(s.order) && e in s.order
    requires Canon(s.order, s.arena, {}) && FacesSynced(s.order, s.arena, s.table, {e})
    ensures IndexRows(RetainBinding(s.identity, e, ""), Without(s.order, e), s.arena[e := d])
    ensures Canon(Without(s.order, e), s.arena[e := d], {})
    ensures FacesSynced(Without(s.order, e), s.arena[e := d], s.table, {})
  {
    hide Canonical, FacesOf, Without;
    WithoutMembers(s.order, e);
  }

  lemma DetachKeeps(s: Registry, e: EntryId, a: Addr)
    requires Core(s) && a in s.entries && s.entries[a] == e
    ensures Core(Detach(s, e, a))
    ensures Detach(s, e, a).entries == s.entries - {a}
    ensures Detach(s, e, a).table == s.table - {a}
    ensures Detach(s, e, a).topology == ForgetAddress(s.topology, a)
  {
    hide Canonical, FacesOf, StableKey, ForgetAddress, RetainBinding, Without, CurrentKey;
    ForgetKeeps(s.topology, s.entries, a);
    DropSlotKeepsFaces(s.order, s.arena, s.entries, s.table, a);
    assert SlotAt(s.table, a).device == Some(e);
    var d := At(s, e).(addresses := Without(At(s, e).addresses, a));
    var s2 := s.(entries := s.entries - {a}, table := s.table - {a}, topology := ForgetAddress(s.topology, a));
    assert SlotsAgree(s2.entries, s2.table);
    if d.addresses == [] {
      EmptyKeepsPartition(s.order, s.arena, s.entries, e, a, d);
      RetireKeeps(s2, e, d);
    } else {
      DetachedPrimary(At(s, e), a);
      ShrunkKeeps(s2, s.entries, e, a, Rehomed(d, a));
    }
  }

  lemma ShrunkKeeps(s: Registry, entries: map<Addr, EntryId>, e: EntryId, a: Addr, r: DeviceEntry)
    requires Partition(s.order, s.arena, entries) && a in entries && entries[a] == e && s.entries == entries - {a}
    requires FreshHandles(s.arena, s.next) && SlotsAgree(s.entries, s.table)
    requires IndexRows(s.identity, s.order, s.arena)
    requires Canon(s.order, s.arena, {}) && FacesSynced(s.order, s.arena, s.table, {e})
    requires r.addresses == Without(At(s, e).addresses, a) && r.addresses != []
    requires r.primary in r.addresses && r.info.address == r.primary
    requires r.physical == Canonical(r.info) && r.identityKey == At(s, e).identityKey
    ensures Sound(SyncFaces(WithEntry(s, e, r), e), {})
    ensures SyncFaces(WithEntry(s, e, r), e) ==
            WithEntry(s, e, r.(faces := FacesOf(r.addresses, s.table)))
  {
    hide Partition, IndexRows, Canon, FacesSynced, SlotsAgree, Canonical, FacesOf, Without, SyncFaces;
    InOrder(s.order, s.arena, entries, a);
    assert At(s, e) == s.arena[e];
    ShrinkKeepsPartition(s.order, s.arena, entries, e, a, r);
    RewriteKeepsRows(s.identity, s.order, s.arena, e, r);
    CanonGrows(s.order, s.arena, {e});
    assert {e} - {e} == {} && {e} + {e} == {e};
    RewriteKeepsDerived(s.order, s.arena, s.table, {e}, e, r);
    CanonGrows(s.order, s.arena[e := r], {e});
    SyncKeeps(WithEntry(s, e, r), e);
  }

  lemma InOrder(order: seq<EntryId>, arena: Arena, entries: map<Addr, EntryId>, a: Addr)
    requires Partition(order, arena, entries) && a in entries
    ensures entries[a] in order && entries[a] in arena && a in arena[entries[a]].addresses && GroupOk(arena[entries[a]])
  {}

  lemma DetachedPrimary(d: DeviceEntry, a: Addr)
    requires GroupOk(d) && Without(d.addresses, a) != []
    ensures var r := Rehomed(d.(addresses := Without(d.addresses, a)), a);
            r.primary in r.addresses && r.info.address == r.primary && r.addresses == Without(d.addresses, a)
    ensures d.physical == Canonical(d.info) ==>
              Rehomed(d.(addresses := Without(d.addresses, a)), a).physical ==
              Canonical(Rehomed(d.(addresses := Without(d.addresses, a)), a).info)
  {
    WithoutMembers(d.addresses, a);
    hide Normalize;
  }

  // ---- joining a group ------------------------------------------------------------------

  // An unregistered address joins the live entry e.
  lemma PlaceKeeps(s: Registry, a: Addr, e: EntryId)
    requires Sound(s, {}) && a !in s.entries && e in s.order
    ensures var d := At(s, e);
            Sound(s.(entries := s.entries[a := e],
                     table := s.table[a := SlotAt(s.table, a).(device := Some(e))],
                     arena := s.arena[e := d.(addresses := Including(d.addresses, a))]), {e})
  {
    hide StableKey, Canonical, Including;
    var d := At(s, e).(addresses := Including(At(s, e).addresses, a));
    var table := s.table[a := SlotAt(s.table, a).(device := Some(e))];
    IncludingMembers(At(s, e).addresses, a);
    PlaceKeepsPartition(s.order, s.arena, s.entries, a, e, d);
    hide Partition;
    PlaceKeepsFaces(s.order, s.arena, s.entries, s.table, a, e, d, table[a]);
    RewriteKeepsRows(s.identity, s.order, s.arena, e, d);
    RewriteKeepsCanon(s.order, s.arena, e, d);
  }

  lemma RewriteKeepsCanon(order: seq<EntryId>, arena: Arena, e: EntryId, d: DeviceEntry)
    requires Canon(order, arena, {})
    ensures Canon(order, arena[e := d], {e})
  {
    hide Canonical;
  }

  lemma PlaceKeepsPartition(order: seq<EntryId>, arena: Arena, entries: map<Addr, EntryId>, a: Addr, e: EntryId,
                            d: DeviceEntry)
    requires Partition(order, arena, entries) && a !in entries && e in order
    requires Distinct(d.addresses) && (forall x :: x in d.addresses <==> x in arena[e].addresses || x == a)
    requires d.primary == arena[e].primary && d.info.address == arena[e].info.address
    ensures Partition(order, arena[e := d], entries[a := e])
  {
    assert arena[e].primary in d.addresses;
    assert d.addresses != [];
    var arena' := arena[e := d];
    assert forall x :: x in order && x != e ==> Look(arena', x) == Look(arena, x);
    assert forall x, b :: x in order && b in Look(arena, x).addresses ==> b != a;
  }

  lemma PlaceKeepsFaces(order: seq<EntryId>, arena: Arena, entries: map<Addr, EntryId>, table: map<Addr, AddressSlot>,
                        a: Addr, e: EntryId, d: DeviceEntry, slot: AddressSlot)
    requires Partition(order, arena, entries) && FacesSynced(order, arena, table, {e})
    requires a in entries ==> entries[a] == e
    ensures FacesSynced(order, arena[e := d], table[a := slot], {e})
  {
    forall x | x in order && x != e
      ensures FacesOf(Look(arena, x).addresses, table[a := slot]) == FacesOf(Look(arena, x).addresses, table)
    {
      assert a !in Look(arena, x).addresses;
    }
  }

  // A new entry for an unregistered address.
  lemma CreateKeeps(s: Registry, a: Addr)
    requires Sound(s, {}) && a !in s.entries
    ensures Sound(s.(entries := s.entries[a := s.next],
                     table := s.table[a := SlotAt(s.table, a).(device := Some(s.next))],
                     arena := s.arena[s.next := NewEntry(a)],
                     order := s.order + [s.next], next := s.next + 1), {s.next})
  {
    hide StableKey, Canonical, NewEntry, Partition, FacesOf, FacesSynced;
    assert s.next !in s.arena;
    CreateKeepsPartition(s.order, s.arena, s.entries, a, s.next);
    CreateKeepsFaces(s, a, NewEntry(a));
    assert forall x :: x in s.order ==> x in s.arena by { OrderInArena(s); }
  }

  lemma OrderInArena(s: Registry)
    requires Partition(s.order, s.arena, s.entries)
    ensures forall x :: x in s.order ==> x in s.arena
  {}

  lemma CreateKeepsFaces(s: Registry, a: Addr, d: DeviceEntry)
    requires Partition(s.order, s.arena, s.entries) && a !in s.entries && s.next !in s.arena
    requires FacesSynced(s.order, s.arena, s.table, {})
    ensures FacesSynced(s.order + [s.next], s.arena[s.next := d],
                        s.table[a := SlotAt(s.table, a).(device := Some(s.next))], {s.next})
  {
    forall x | x in s.order
      ensures FacesOf(Look(s.arena, x).addresses, s.table) ==
              FacesOf(Look(s.arena, x).addresses, s.table[a := SlotAt(s.table, a).(device := Some(s.next))])
    {
      assert a !in Look(s.arena, x).addresses;
    }
    hide FacesOf;
  }

  lemma CreateKeepsPartition(order: seq<EntryId>, arena: Arena, entries: map<Addr, EntryId>, a: Addr, e: EntryId)
    requires Partition(order, arena, entries) && a !in entries && e !in arena
    ensures Partition(order + [e], arena[e := NewEntry(a)], entries[a := e])
  {
    var order', arena', entries' := order + [e], arena[e := NewEntry(a)], entries[a := e];
    assert forall x :: x in order' <==> x in order || x == e;
    assert forall x :: x in order ==> Look(arena', x) == Look(arena, x);
    assert e !in order;
    assert forall b: Addr :: b in entries ==> entries[b] != e;
    assert forall x, b :: x in order && b in Look(arena, x).addresses ==> b != a;
    forall x: EntryId, b: Addr | x in order' && b in Look(arena', x).addresses
      ensures b in entries' && entries'[b] == x
    {
      if x != e { assert b in Look(arena, x).addresses; }
    }
  }

  // ---- merging two groups ------------------------------------------------------------------

  lemma MergeKeepsPartition(order: seq<EntryId>, arena: Arena, entries: map<Addr, EntryId>, dst: EntryId, src: EntryId,
                            d: DeviceEntry)
    requires Partition(order, arena, entries) && dst in order && src in order && dst != src
    requires Distinct(d.addresses)
    requires forall x :: x in d.addresses <==> x in arena[dst].addresses || x in arena[src].addresses
    requires d.primary == arena[dst].primary && d.info.address == arena[dst].info.address
    ensures Partition(Without(order, src), arena[dst := d], MoveAll(entries, arena[src].addresses, dst))
  {
    hide Without;
    WithoutMembers(order, src);
    assert arena[dst].primary in d.addresses;
    assert d.addresses != [];
    var entries' := MoveAll(entries, arena[src].addresses, dst);
    assert arena[src] == Look(arena, src);
    forall x: EntryId, b: Addr | x in order && x != src && b in Look(arena[dst := d], x).addresses
      ensures b in entries' && entries'[b] == x
    {
      if x != dst {
        assert b in Look(arena, x).addresses;
      }
    }
    forall b: Addr | b in entries'
      ensures entries'[b] in order && entries'[b] != src && b in Look(arena[dst := d], entries'[b]).addresses
    {}
  }

  lemma MoveKeepsFaces(addresses: seq<Addr>, table: map<Addr, AddressSlot>, moved: seq<Addr>, dst: EntryId)
    ensures FacesOf(addresses, MoveSlots(table, moved, dst)) == FacesOf(addresses, table)
  {
    forall a: Addr
      ensures FaceOf(a, SlotAt(MoveSlots(table, moved, dst), a)) == FaceOf(a, SlotAt(table, a))
    {}
  }

  lemma MoveKeepsSlots(entries: map<Addr, EntryId>, table: map<Addr, AddressSlot>, moved: seq<Addr>, dst: EntryId)
    requires SlotsAgree(entries, table) && forall a :: a in moved ==> a in entries
    ensures SlotsAgree(MoveAll(entries, moved, dst), MoveSlots(table, moved, dst))
    ensures MoveAll(entries, moved, dst).Keys == entries.Keys
    ensures MoveSlots(table, moved, dst).Keys == table.Keys
  {}

  lemma MergeGroupKeeps(s: Registry, dst: EntryId, src: EntryId)
    requires Sound(s, {}) && dst in s.order && src in s.order && dst != src
    ensures Sound(MergeGroup(s, dst, src), {dst})
    ensures MergeGroup(s, dst, src).entries.Keys == s.entries.Keys
    ensures dst in MergeGroup(s, dst, src).order
  {
    hide StableKey, Canonical, FacesOf, Without, MoveAll, MoveSlots, IncludingAll, RetainBinding, Absorb;
    hide Partition, SlotsAgree, IndexRows, Canon, FacesSynced;
    var moved := At(s, src).addresses;
    var d := Absorb(At(s, dst), At(s, src)).(addresses := IncludingAll(At(s, dst).addresses, moved));
    AbsorbFrame(At(s, dst), At(s, src));
    MergePartition(s, dst, src, d);
    MoveKeepsSlots(s.entries, s.table, moved, dst);
    RewriteKeepsRows(s.identity, s.order, s.arena, dst, d);
    DropRows(s.identity, s.order, s.arena[dst := d], src);
    MergeKeepsDerived(s, dst, src, d);
  }

  lemma AbsorbFrame(dst: DeviceEntry, src: DeviceEntry)
    ensures SameGroup(dst, Absorb(dst, src))
    ensures Absorb(dst, src).identityKey == dst.identityKey && Absorb(dst, src).faces == dst.faces
  {}

  lemma MergePartition(s: Registry, dst: EntryId, src: EntryId, d: DeviceEntry)
    requires Sound(s, {}) && dst in s.order && src in s.order && dst != src
    requires d.addresses == IncludingAll(At(s, dst).addresses, At(s, src).addresses)
    requires d.primary == At(s, dst).primary && d.info.address == At(s, dst).info.address
    ensures Partition(Without(s.order, src), s.arena[dst := d], MoveAll(s.entries, At(s, src).addresses, dst))
    ensures Distinct(s.order) && dst in Without(s.order, src)
    ensures forall a :: a in At(s, src).addresses ==> a in s.entries
    ensures FreshHandles(s.arena[dst := d], s.next)
  {
    hide SlotsAgree, IndexRows, Canon, FacesSynced, Without, IncludingAll, MoveAll;
    IncludingAllMembers(At(s, dst).addresses, At(s, src).addresses);
    MergeKeepsPartition(s.order, s.arena, s.entries, dst, src, d);
    WithoutMembers(s.order, src);
  }

  lemma MergeKeepsDerived(s: Registry, dst: EntryId, src: EntryId, d: DeviceEntry)
    requires Distinct(s.order) && Canon(s.order, s.arena, {}) && FacesSynced(s.order, s.arena, s.table, {})
    ensures Canon(Without(s.order, src), s.arena[dst := d], {dst})
    ensures FacesSynced(Without(s.order, src), s.arena[dst := d], MoveSlots(s.table, At(s, src).addresses, dst), {dst})
  {
    hide Canonical, FacesOf, Without, MoveSlots;
    var table := MoveSlots(s.table, At(s, src).addresses, dst);
    WithoutMembers(s.order, src);
    forall e | e in s.order
      ensures FacesOf(Look(s.arena, e).addresses, table) == FacesOf(Look(s.arena, e).addresses, s.table)
    {
      MoveKeepsFaces(Look(s.arena, e).addresses, s.table, At(s, src).addresses, dst);
    }
  }

  lemma DropRows(identity: map<string, EntryId>, order: seq<EntryId>, arena: Arena, e: EntryId)
    requires IndexRows(identity, order, arena) && Distinct(order)
    ensures IndexRows(RetainBinding(identity, e, ""), Without(order, e), arena)
  {
    hide Without;
    WithoutMembers(order, e);
  }
}
