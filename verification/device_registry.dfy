// registry.DeviceRegistry: the mutable registry, refining the functions of
// RegistryState.  Locks are left out: every method is one critical section.
module DeviceRegistry {
  import opened Numerals
  import opened Identity
  import S = RegistryState
  import opened RegistryState
  import opened RegistryInvariant
  import opened RegistrySteps
  import opened RegistryAliasSteps
  import opened RegistryIndexRuns
  import opened RegistrySlots

  // ---- registry_index.go: removing one element -------------------------------------

  method RemoveFirst<T(==)>(xs: seq<T>, x: T) returns (r: seq<T>)
    ensures r == Without(xs, x)
  {
    var i := 0;
    while i < |xs| && xs[i] != x
      invariant 0 <= i <= |xs|
      invariant Without(xs, x) == xs[..i] + Without(xs[i..], x)
    {
      assert xs[i..][1..] == xs[i + 1..];
      assert xs[..i + 1] == xs[..i] + [xs[i]];
      i := i + 1;
    }
    if i < |xs| {
      assert xs[i..][1..] == xs[i + 1..];
      return xs[..i] + xs[i + 1..];
    }
    return xs;
  }

  // ---- reachability, for the confirmation worklist -----------------------------------

  lemma ReachesStart(s: Registry, e: EntryId, start: Addr)
    ensures Reaches(s, e, start, start) <==> ExistingAt(s, start) == Some(e)
  {
    if ExistingAt(s, start) == Some(e) { assert Chain(s, e, [start]); }
  }

  lemma ReachesStep(s: Registry, e: EntryId, start: Addr, a: Addr, b: Addr)
    requires Reaches(s, e, start, a) && b in Edges(s.topology, a) && ExistingAt(s, b) == Some(e)
    ensures Reaches(s, e, start, b)
  {
    var path :| Chain(s, e, path) && path[0] == start && path[|path| - 1] == a;
    assert Chain(s, e, path + [b]);
  }

  // A set that contains the start and follows every edge contains everything reached.
  ghost predicate Closed(s: Registry, e: EntryId, seen: set<Addr>)
  {
    forall a: Addr, b: Addr ::
      (a in seen && ExistingAt(s, a) == Some(e) && b in Edges(s.topology, a) && ExistingAt(s, b) == Some(e)) ==> b in seen
  }

  lemma {:induction false} ClosedContains(s: Registry, e: EntryId, seen: set<Addr>, path: seq<Addr>)
    requires Closed(s, e, seen) && Chain(s, e, path) && path[0] in seen
    ensures path[|path| - 1] in seen
  {
    var n := |path| - 1;
    if n > 0 {
      var front := path[..n];
      assert Chain(s, e, front);
      ClosedContains(s, e, seen, front);
      assert path[n] in Edges(s.topology, path[n - 1]);
    }
  }

  lemma ClosedIsReached(s: Registry, e: EntryId, start: Addr, seen: set<Addr>)
    requires Closed(s, e, seen) && start in seen
    ensures forall a :: Reaches(s, e, start, a) ==> a in seen
  {
    forall a | Reaches(s, e, start, a)
      ensures a in seen
    {
      var path :| Chain(s, e, path) && path[0] == start && path[|path| - 1] == a;
      ClosedContains(s, e, seen, path);
    }
  }

  class DeviceRegistry {
    const env: Protocol
    var observationGeneration: nat
    var proofGeneration: nat
    var entries: map<Addr, EntryId>
    var table: map<Addr, AddressSlot>
    var identity: map<string, EntryId>
    var witnesses: map<Addr, WitnessRecord>
    var topology: map<Addr, set<Addr>>
    var order: seq<EntryId>
    var arena: Arena
    var next: EntryId

    /** The registry's whole state as a value. */
    function Model(): Registry
      reads this
    {
      Registry(observationGeneration, proofGeneration, entries, table, identity, witnesses, topology, order, arena, next)
    }

    ghost predicate Valid()
      reads this
    {
      WellFormed(env, Model())
    }

    constructor (protocol: Protocol)
      ensures Valid() && env == protocol && Model() == EMPTY_REGISTRY
    {
      env := protocol;
      observationGeneration, proofGeneration, next := 0, 0, 0;
      entries, table, identity, witnesses, topology, arena := map[], map[], map[], map[], map[], map[];
      order := [];
      new;
      EmptyWellFormed(env);
    }

    method RegisterProvider()
      requires Valid()
      modifies this
      ensures Valid() && Model() == Tick(old(Model()))
    {
      hide WellFormed;
      TickWellFormed(env, Model());
      observationGeneration := observationGeneration + 1;
    }

    // ---- slots and faces ------------------------------------------------------------

    method EnsureAddressSlot(a: Addr) returns (slot: AddressSlot)
      modifies this
      ensures Model() == EnsureSlot(old(Model()), a) && slot == SlotAt(old(table), a)
      ensures a in table && table[a] == slot
    {
      slot := SlotAt(table, a);
      table := table[a := slot];
    }

    method ObserveAddressSlot(a: Addr, e: EntryId, level: Verification, now: Time)
      modifies this
      ensures Model() == WithSlot(old(Model()), a,
                                  StampSlot(SlotAt(old(table), a).(device := Some(e)), Observed(level, now)))
    {
      var slot := EnsureAddressSlot(a);
      slot := slot.(device := Some(e));
      slot := slot.(source := RecordSource(slot.source, ActiveConfirmed));
      if slot.verification < level {
        slot := slot.(verification := level);
      }
      if slot.first == 0 {
        slot := slot.(first := now);
      }
      slot := slot.(last := now);
      table := table[a := slot];
    }

    // markSlotPassiveObservedLocked and markSlotStaticSeedLocked.
    method MarkSlotLocked(a: Addr, source: DiscoverySource, level: Verification, role: SlotRole, at: Time)
      modifies this
      ensures Model() == Stamped(old(Model()), a, Marked(source, level, role, at))
    {
      hide RecordSource;
      var slot := EnsureAddressSlot(a);
      slot := slot.(source := RecordSource(slot.source, source));
      if slot.verification < level {
        slot := slot.(verification := level);
      }
      if role != RoleUnknown && slot.role == RoleUnknown {
        slot := slot.(role := role);
      }
      if slot.first == 0 && at != 0 {
        slot := slot.(first := at);
      }
      if at != 0 {
        slot := slot.(last := at);
      }
      table := table[a := slot];
    }

    method SyncEntryFaces(e: EntryId)
      modifies this
      ensures Model() == SyncFaces(old(Model()), e)
    {
      hide AdoptSlots, FacesOf;
      ghost var s := Model();
      var addresses := Look(arena, e).addresses;
      ghost var whole := AdoptSlots(s.table, addresses, e);
      var faces: seq<BusFace> := [];
      var i := 0;
      NoneAdopted(s.table, addresses, whole, e);
      while i < |addresses|
        invariant 0 <= i <= |addresses|
        invariant Model() == s.(table := AdoptSlots(s.table, addresses[..i], e))
        invariant faces == FacesOf(addresses[..i], whole)
      {
        var a := addresses[i];
        var slot := SlotAt(table, a);
        if slot.device == None {
          slot := slot.(device := Some(e));
        }
        AdoptOneMore(s.table, addresses, e, i);
        FacesOneMore(addresses, whole, i);
        table := table[a := slot];
        faces := faces + [FaceOf(a, slot)];
        i := i + 1;
      }
      assert addresses[..i] == addresses;
      arena := arena[e := Look(arena, e).(faces := faces)];
    }

    // ---- identity index ---------------------------------------------------------------

    method CurrentIdentityEntry(k: string) returns (owner: Option<EntryId>)
      modifies this
      ensures Model() == DropStale(old(Model()), k) && owner == CurrentOwner(old(Model()), k)
    {
      if k in identity {
        var d := Look(arena, identity[k]);
        if StableKey(k) && d.identityKey == k && Key(d.physical) == k {
          return Some(identity[k]);
        }
        identity := identity - {k};
      } else {
        assert identity - {k} == identity;
      }
      return None;
    }

    method RetainCurrentIdentityBinding(e: EntryId, k: string)
      modifies this
      ensures Model() == old(Model()).(identity := RetainBinding(old(identity), e, k))
    {
      ghost var rows := identity;
      var rest := identity.Keys;
      while rest != {}
        invariant rest <= rows.Keys
        invariant identity == map x | x in rows && (x in rest || rows[x] != e || x == k) :: rows[x]
        invariant Model() == old(Model()).(identity := identity)
        decreases |rest|
      {
        var x :| x in rest;
        if identity[x] == e && x != k {
          identity := identity - {x};
        }
        rest := rest - {x};
      }
    }

    method PublishCurrentIdentityBinding(e: EntryId, k: string)
      modifies this
      ensures Model() == Publish(old(Model()), e, k)
    {
      ghost var s := Model();
      if k != "" {
        var incumbent := CurrentIdentityEntry(k);
        if incumbent.Some? && incumbent.value != e &&
           !CanMerge(Look(arena, e).info, Look(arena, incumbent.value).info) {
          RetainCurrentIdentityBinding(e, "");
          arena := arena[e := Look(arena, e).(identityKey := "")];
          return;
        }
      }
      RetainCurrentIdentityBinding(e, k);
      arena := arena[e := Look(arena, e).(identityKey := k)];
      if k != "" {
        identity := identity[k := e];
      }
    }

    method AbsorbIdentity(dst: EntryId, src: EntryId)
      requires dst != src
      modifies this
      ensures Model() == WithEntry(old(Model()), dst, Absorb(At(old(Model()), dst), At(old(Model()), src)))
    {
      var d, from := Look(arena, dst), Look(arena, src);
      var info := d.info;
      if info.manufacturer == "" { info := info.(manufacturer := from.info.manufacturer); }
      if info.deviceID == "" { info := info.(deviceID := from.info.deviceID); }
      if info.serial == "" { info := info.(serial := from.info.serial); }
      if info.mac == "" { info := info.(mac := from.info.mac); }
      if info.software == "" { info := info.(software := from.info.software); }
      if info.hardware == "" { info := info.(hardware := from.info.hardware); }
      var physical := d.physical;
      if physical == NO_IDENTITY && from.physical != NO_IDENTITY {
        physical := from.physical;
      } else if physical != NO_IDENTITY {
        physical := Canonical(info);
      }
      arena := arena[dst := d.(info := info, physical := physical)];
    }

    // ---- topology -----------------------------------------------------------------------

    method RecordTopologyAlias(a: Addr, b: Addr)
      modifies this
      ensures Model() == old(Model()).(topology := RecordEdge(old(topology), a, b))
    {
      if a == b { return; }
      topology := topology[a := Edges(topology, a) + {b}];
      topology := topology[b := Edges(topology, b) + {a}];
    }

    method ForgetTopologyAddress(a: Addr)
      requires a !in Edges(topology, a)
      modifies this
      ensures Model() == old(Model()).(topology := ForgetAddress(old(topology), a))
    {
      hide ForgottenBy;
      ghost var rows := topology;
      var companions := Edges(topology, a);
      var rest := companions;
      ForgetNone(rows, a);
      while rest != {}
        invariant rest <= companions && topology == ForgottenBy(rows, a, companions - rest)
        invariant Model() == old(Model()).(topology := topology)
        decreases |rest|
      {
        var companion :| companion in rest;
        ForgetOne(rows, a, companions - rest, companion);
        if companion in topology {
          var row := topology[companion] - {a};
          topology := if row == {} then topology - {companion} else topology[companion := row];
        }
        assert companions - (rest - {companion}) == companions - rest + {companion};
        rest := rest - {companion};
      }
      assert companions - rest == companions;
      ForgetAll(rows, a);
      topology := topology - {a};
    }

    // ---- groups ---------------------------------------------------------------------------

    method DetachAddress(e: EntryId, a: Addr)
      requires a !in Edges(topology, a)
      modifies this
      ensures Model() == Detach(old(Model()), e, a)
    {
      hide ForgetAddress, Without, RetainBinding, SyncFaces;
      entries := entries - {a};
      if SlotAt(table, a).device == Some(e) {
        table := table - {a};
      }
      if a !in Look(arena, e).addresses {
        return;
      }
      ForgetTopologyAddress(a);
      var left := RemoveFirst(Look(arena, e).addresses, a);
      var d := Look(arena, e).(addresses := left);
      arena := arena[e := d];
      if left == [] {
        RetainCurrentIdentityBinding(e, "");
        order := RemoveFirst(order, e);
        return;
      }
      if d.primary == a {
        d := d.(primary := left[0], info := d.info.(address := left[0]));
        arena := arena[e := d];
      }
      assert arena == old(arena)[e := d];
      SyncEntryFaces(e);
    }

    method MergeRegisteredAliases(dst: EntryId, src: EntryId)
      requires dst != src
      modifies this
      ensures Model() == MergeGroup(old(Model()), dst, src)
    {
      hide MoveAll, MoveSlots, IncludingAll, Absorb, RetainBinding, Without, Including, SlotAt;
      ghost var s := Model();
      AbsorbIdentity(dst, src);
      AbsorbedAddresses(At(s, dst), At(s, src));
      var moved := Look(arena, src).addresses;
      ghost var absorbed := Look(arena, dst);
      NoneMoved(s.entries, s.table, absorbed.addresses, moved, dst);
      var i := 0;
      while i < |moved|
        invariant 0 <= i <= |moved|
        invariant Model() == s.(
          entries := MoveAll(s.entries, moved[..i], dst), table := MoveSlots(s.table, moved[..i], dst),
          arena := s.arena[dst := absorbed.(addresses := IncludingAll(absorbed.addresses, moved[..i]))])
      {
        var a := moved[i];
        OneMoreMoved(s.entries, s.table, absorbed.addresses, moved, dst, i);
        arena := arena[dst := Look(arena, dst).(addresses := Including(Look(arena, dst).addresses, a))];
        entries := entries[a := dst];
        table := table[a := SlotAt(table, a).(device := Some(dst))];
        i := i + 1;
      }
      assert moved[..i] == moved;
      RetainCurrentIdentityBinding(src, "");
      order := RemoveFirst(order, src);
    }

    method MergeRemovedAliasEntry(canonical: EntryId, secondary: EntryId)
      requires canonical != secondary
      modifies this
      ensures Model() == MergeRemoved(old(Model()), canonical, secondary)
    {
      hide Absorb, RetainBinding, Without, Publish, Key, Canonical;
      ghost var s := Model();
      var key := Look(arena, canonical).identityKey;
      if key == "" {
        key := Look(arena, secondary).identityKey;
      }
      AbsorbIdentity(canonical, secondary);
      RetainCurrentIdentityBinding(secondary, "");
      var d := Look(arena, canonical);
      d := d.(physical := Canonical(d.info));
      arena := arena[canonical := d];
      assert arena == s.arena[canonical := d];
      if Key(d.physical) != key {
        key := "";
      }
      PublishFrame(Model(), canonical, key);
      PublishCurrentIdentityBinding(canonical, key);
      order := RemoveFirst(order, secondary);
    }

    // ---- registerLocked -----------------------------------------------------------------------

    // Which entry an observation belongs to.
    method SelectEntry(info: DeviceInfo) returns (d: Decision)
      modifies this
      ensures d == Decide(old(Model()), info)
      ensures Model() == (if Key(Canonical(info)) == "" then old(Model())
                          else DropStale(old(Model()), Key(Canonical(info))))
    {
      hide Canonical, Key, CanMerge, CompatibleEnrichment, CurrentOwner;
      ghost var s := Model();
      var key := Key(Canonical(info));
      var existing := if info.address in entries then Some(entries[info.address]) else None;
      var incumbent, conflict := None, false;
      if key != "" {
        incumbent := CurrentIdentityEntry(key);
        if incumbent.Some? && !CanMerge(info, Look(arena, incumbent.value).info) {
          incumbent, conflict := None, true;
        }
      }
      assert conflict == Contradicted(s, info);
      var target := if incumbent.Some? then incumbent else existing;
      if existing.Some? && target == existing && key != "" && !CanMerge(info, Look(arena, existing.value).info) {
        target := None;
      }
      assert target == Kept(s, info);
      if Regroups(Model(), info, existing, target) {
        target, incumbent := existing, None;
      }
      hide Kept, Contradicted;
      var merge := existing.Some? && existing != target && incumbent.Some? && target.Some? &&
                   CompatibleEnrichment(info, Look(arena, existing.value)) &&
                   CompatibleEnrichment(Look(arena, target.value).info, Look(arena, existing.value));
      d := Decision(existing, incumbent, target, conflict, merge, conflict && existing.Some?);
    }

    // The address leaves a group it no longer belongs to.
    method SettleAddress(info: DeviceInfo, d: Decision, ghost s: Registry)
      requires info.address !in Edges(topology, info.address)
      requires Model() == (if Key(Canonical(info)) == "" then s else DropStale(s, Key(Canonical(info))))
      modifies this
      ensures Model() == Settle(s, info, d)
    {
      hide Canonical, Key, Detach, MergeGroup, DropStale;
      if d.existing.Some? && d.existing != d.target {
        if d.merge && d.target.Some? {
          MergeRegisteredAliases(d.target.value, d.existing.value);
        } else {
          DetachAddress(d.existing.value, info.address);
        }
      }
    }

    method RegisterLocked(info: DeviceInfo) returns (entry: EntryId, retained: bool)
      requires Core(Model())
      modifies this
      ensures retained == Decide(old(Model()), info).retained
      ensures retained ==> Model() == old(Model()) && ExistingAt(Model(), info.address) == Some(entry)
      ensures !retained ==> entry == AdmittedEntry(old(Model()), info)
      ensures !retained ==>
        Model().(table := table[info.address := SlotAt(table, info.address).(device := Some(entry))]) ==
        Admit(old(Model()), info)
    {
      hide Core, Decide, Settle, Canonical, Key, DropStale, Refresh, Place, TargetOf, Admit, AdmittedEntry;
      ghost var s := Model();
      var d := SelectEntry(info);
      if d.retained {
        RetainedDropsNothing(s, info);
        return d.existing.value, true;
      }
      retained := false;
      NoLoops(s, info.address);
      DropTopology(s, Key(Canonical(info)));
      SettleAddress(info, d, s);
      ghost var s1 := Model();
      entry := PlaceEntry(info.address, d);
      StoreAndPublish(entry, info, d, s1);
      AdmitParts(s, info);
    }

    // The target's group gains the address, or a new entry is allocated.
    method PlaceEntry(a: Addr, d: Decision) returns (entry: EntryId)
      modifies this
      ensures entry == TargetOf(old(Model()), d)
      ensures Model() == Place(old(Model()), a, d).(entries := old(entries), table := old(table))
    {
      hide Including;
      entry := if d.target.Some? then d.target.value else next;
      if d.target.None? {
        arena := arena[entry := NewEntry(a)];
        order := order + [entry];
        next := next + 1;
      } else {
        arena := arena[entry := Look(arena, entry).(addresses := Including(Look(arena, entry).addresses, a))];
      }
    }

    // The information to store: what was observed, completed from the entry.
    method CompleteInfo(info: DeviceInfo, n: DeviceEntry, preserve: bool) returns (stored: DeviceInfo)
      ensures stored == StoredInfo(info, n, preserve)
    {
      var deviceID := info.deviceID;
      if preserve && n.info.deviceID != "" && deviceID != n.info.deviceID {
        deviceID := n.info.deviceID;
      } else if deviceID == "" {
        deviceID := n.info.deviceID;
      }
      stored := DeviceInfo(
        n.primary, Or(info.manufacturer, n.info.manufacturer), deviceID, Or(info.serial, n.info.serial),
        Or(info.mac, n.info.mac), Or(info.software, n.info.software), Or(info.hardware, n.info.hardware));
    }

    // The stored information, its authority, and the entry's place in the address map.
    method StoreAndPublish(entry: EntryId, info: DeviceInfo, d: Decision, ghost s1: Registry)
      requires entry == TargetOf(s1, d)
      requires Model() == Place(s1, info.address, d).(entries := s1.entries, table := s1.table)
      modifies this
      ensures Model().(table := table[info.address := SlotAt(table, info.address).(device := Some(entry))]) ==
              Refresh(Place(s1, info.address, d), entry, info, d)
    {
      hide Canonical, Key, PreservesAuthority, Publish, Place, StoredInfo;
      ghost var s2 := Place(s1, info.address, d);
      var n := Look(arena, entry);
      var stored := CompleteInfo(info, n, d.incumbent.Some? && d.incumbent != d.existing);
      var key := Key(Canonical(info));
      if d.conflict {
        key := "";
      } else if key == "" && PreservesAuthority(info, n) {
        key := n.identityKey;
      }
      assert key == AuthorityKey(info, n, d.conflict);
      hide AuthorityKey;
      n := n.(info := stored, physical := Canonical(stored));
      arena := arena[entry := n];
      PublishCommutes(Model(), WithEntry(s2, entry, n), entry, key);
      PublishCurrentIdentityBinding(entry, key);
      entries := entries[info.address := entry];
      PlaceFrame(s1, info.address, d);
      PublishFrame(WithEntry(s2, entry, n), entry, key);
    }
  
    // ---- confirmation worklist ------------------------------------------------------------------

    method ConfirmTopologyIdentitySlots(address: Addr, entry: EntryId)
      modifies this
      ensures Model() == ConfirmTopology(old(Model()), address, entry)
    {
      hide Worklist, RaisedSlots;
      ghost var s := Model();
      var seen := {address};
      var pending := [address];
      StartWorklist(s, entry, address);
      while pending != []
        invariant Worklist(s, entry, address, seen, pending)
        invariant Model() == s.(table := RaisedSlots(s, entry, seen, pending))
        decreases AddrsBelow(256) - seen, |pending|
      {
        seen, pending := ConfirmOne(entry, seen, pending, s, address);
      }
      FinishWorklist(s, entry, address, seen);
    }

    // One turn of the worklist: the head is confirmed, if it still resolves, and its edges followed.
    method ConfirmOne(entry: EntryId, seen0: set<Addr>, pending0: seq<Addr>, ghost s: Registry, ghost start: Addr)
      returns (seen: set<Addr>, pending: seq<Addr>)
      requires pending0 != [] && Worklist(s, entry, start, seen0, pending0)
      requires Model() == s.(table := RaisedSlots(s, entry, seen0, pending0))
      modifies this
      ensures Worklist(s, entry, start, seen, pending)
      ensures Model() == s.(table := RaisedSlots(s, entry, seen, pending))
      ensures seen0 < seen <= AddrsBelow(256) || (seen == seen0 && |pending| < |pending0|)
    {
      hide Reaches, RaisedSlots, Followed, Distinct;
      var current := pending0[0];
      TakeHead(pending0);
      seen, pending := seen0, pending0[1..];
      if current in entries && entries[current] == entry {
        RaiseSlot(current);
        RaiseOne(s, entry, seen0, pending0, table);
        seen, pending := FollowEdges(current, entry, seen, pending, s, start);
        RaiseSame(s, entry, seen0, pending0[1..], seen, pending);
        FollowedOne(s, entry, seen0, pending0, seen, pending);
        assert forall a: Addr :: a in AddrsBelow(256);
      } else {
        SkipOne(s, entry, seen0, pending0);
      }
    }

    method RaiseSlot(a: Addr)
      modifies this
      ensures Model() == WithSlot(old(Model()), a, SlotAt(old(table), a).(verification := CONFIRMED))
    {
      var slot := EnsureAddressSlot(a);
      if slot.verification < CONFIRMED {
        table := table[a := slot.(verification := CONFIRMED)];
      }
    }

    // Every companion that still resolves to the entry and was not seen joins the queue.
    method FollowEdges(current: Addr, entry: EntryId, seen0: set<Addr>, pending0: seq<Addr>, ghost s: Registry, ghost start: Addr)
      returns (seen: set<Addr>, pending: seq<Addr>)
      requires topology == s.topology && entries == s.entries
      requires Distinct(pending0) && (forall a :: a in pending0 ==> a in seen0)
      requires Reaches(s, entry, start, current)
      ensures seen0 <= seen && Distinct(pending) && |pending| >= |pending0|
      ensures forall a :: a in pending <==> a in pending0 || a in seen - seen0
      ensures forall a :: a in seen - seen0 ==> ExistingAt(s, a) == Some(entry) && Reaches(s, entry, start, a)
      ensures forall b :: b in Edges(s.topology, current) && ExistingAt(s, b) == Some(entry) ==> b in seen
      ensures seen == seen0 ==> pending == pending0
    {
      hide Reaches;
      seen, pending := seen0, pending0;
      var companions := Edges(topology, current);
      var rest := companions;
      while rest != {}
        invariant rest <= companions && seen0 <= seen && Distinct(pending) && |pending| >= |pending0|
        invariant forall a :: a in pending <==> a in pending0 || a in seen - seen0
        invariant forall a :: a in seen - seen0 ==> ExistingAt(s, a) == Some(entry) && Reaches(s, entry, start, a)
        invariant forall b :: b in companions - rest && ExistingAt(s, b) == Some(entry) ==> b in seen
        invariant seen == seen0 ==> pending == pending0
        decreases |rest|
      {
        var companion :| companion in rest;
        rest := rest - {companion};
        if companion !in seen && companion in entries && entries[companion] == entry {
          ReachesStep(s, entry, start, current, companion);
          seen := seen + {companion};
          pending := pending + [companion];
        }
      }
    }
  
    // ---- witnesses ----------------------------------------------------------------------------------

    method ReconcileQualifiedIdentityWitnesses()
      modifies this
      ensures Model() == Reconcile(env, old(Model()))
    {
      hide WitnessCurrent;
      ghost var s := Model();
      var rest := witnesses.Keys;
      while rest != {}
        invariant rest <= s.witnesses.Keys
        invariant Model() == s.(witnesses := witnesses)
        invariant witnesses == map a | a in s.witnesses &&
                    (a in rest || WitnessCurrent(env, s, a, s.witnesses[a].proof)) :: s.witnesses[a]
        decreases |rest|
      {
        var a :| a in rest;
        var current := WitnessCurrent(env, Model(), a, witnesses[a].proof);
        WitnessIsLocal(env, s, Model(), a, witnesses[a].proof);
        if !current {
          witnesses := witnesses - {a};
        }
        rest := rest - {a};
      }
    }

    method RecordDirectQualifiedIdentityWitness(info: DeviceInfo, entry: EntryId)
      modifies this
      ensures Model() == RecordWitness(env, old(Model()), info, entry)
    {
      hide Canonical, Key, CurrentKey;
      var p := Canonical(info);
      var k := Key(p);
      if !WitnessAddress(env, info.address) || k == "" ||
         ExistingAt(Model(), info.address) != Some(entry) || !CurrentKey(Model(), entry, k) ||
         k !in identity || identity[k] != entry {
        return;
      }
      proofGeneration := proofGeneration + 1;
      var w := Witness(info.address, p.manufacturer, p.deviceID, p.serial, true, true, true,
                       observationGeneration, proofGeneration);
      witnesses := witnesses[info.address := WitnessRecord(w, k)];
    }

    /** The current witness of an address, if there is one: exactly where a record is stored. */
    method CurrentWitness(a: Addr) returns (w: Option<Witness>)
      requires Valid()
      ensures w.Some? <==> a in witnesses
      ensures w.Some? ==> WitnessCurrent(env, Model(), a, w.value)
    {
      hide Core, WitnessCurrent;
      if a in witnesses {
        w := if WitnessCurrent(env, Model(), a, witnesses[a].proof) then Some(witnesses[a].proof) else None;
      } else {
        w := None;
      }
    }

    // ---- registrations ----------------------------------------------------------------------------------

    method Register(info: DeviceInfo, now: Time) returns (entry: EntryId)
      requires Valid()
      modifies this
      ensures Valid() && Model() == S.Register(env, old(Model()), info, now)
      ensures ExistingAt(Model(), info.address) == Some(entry)
    {
      hide WellFormed, Core, Decide, Admit, AdmittedEntry, Canonical, Qualified, ConfirmTopology, SyncFaces, Reconcile,
        RecordWitness, Stamped, StampSlot, S.Register;
      ghost var s := Model();
      RegisterKeeps(env, s, info, now);
      RegisterParts(env, s, info, now);
      var retained;
      entry, retained := RegisterLocked(info);
      if retained { return; }
      ghost var m := Model();
      var state := if Qualified(Canonical(info)) then CONFIRMED else CANDIDATE;
      ObserveAddressSlot(info.address, entry, state, now);
      StampAfterAdmit(m, Admit(s, info), info.address, entry, Observed(state, now));
      if state == CONFIRMED {
        ConfirmTopologyIdentitySlots(info.address, entry);
      }
      SyncEntryFaces(entry);
      observationGeneration := observationGeneration + 1;
      ReconcileQualifiedIdentityWitnesses();
      RecordDirectQualifiedIdentityWitness(info, entry);
    }

    // What RegisterStaticSeed and RegisterPassiveObserved share.
    method RegisterWithMark(info: DeviceInfo, source: DiscoverySource, level: Verification, role: SlotRole, at: Time)
      returns (entry: EntryId)
      requires Valid()
      modifies this
      ensures Valid() && Model() == RegisterMarked(env, old(Model()), info, Marked(source, level, role, at))
      ensures ExistingAt(Model(), info.address) == Some(entry)
    {
      hide WellFormed, Core, Decide, Admit, AdmittedEntry, Canonical, SyncFaces, Reconcile, Stamped, RegisterMarked;
      ghost var s := Model();
      var stamp := Marked(source, level, role, at);
      RegisterMarkedKeeps(env, s, info, stamp);
      MarkedParts(env, s, info, stamp);
      var retained;
      entry, retained := RegisterLocked(info);
      if retained { return; }
      ghost var m := Model();
      var slot := EnsureAddressSlot(info.address);
      table := table[info.address := slot.(device := Some(entry))];
      assert Model() == m.(table := m.table[info.address := SlotAt(m.table, info.address).(device := Some(entry))]);
      MarkSlotLocked(info.address, source, level, role, at);
      SyncEntryFaces(entry);
      observationGeneration := observationGeneration + 1;
      ReconcileQualifiedIdentityWitnesses();
    }

    method RegisterStaticSeed(info: DeviceInfo, role: SlotRole, at: Time) returns (entry: EntryId)
      requires Valid()
      modifies this
      ensures Valid() && Model() == RegisterMarked(env, old(Model()), info, SeedMark(role, at))
      ensures ExistingAt(Model(), info.address) == Some(entry)
    {
      entry := RegisterWithMark(info, StaticSeed, CANDIDATE, role, at);
    }

    method RegisterPassiveObserved(info: DeviceInfo, role: SlotRole, at: Time) returns (entry: EntryId)
      requires Valid()
      modifies this
      ensures Valid() && Model() == RegisterMarked(env, old(Model()), info, PassiveMark(role, at))
      ensures ExistingAt(Model(), info.address) == Some(entry)
    {
      entry := RegisterWithMark(info, PassiveObserved, CORROBORATED, role, at);
    }

    // ---- slots ---------------------------------------------------------------------------------------------

    method MarkAddressSlot(a: Addr, source: DiscoverySource, level: Verification, role: SlotRole, at: Time)
      requires Valid()
      modifies this
      ensures Valid() && Model() == MarkSlot(old(Model()), a, Marked(source, level, role, at))
    {
      hide WellFormed, SyncFaces, StampSlot;
      MarkSlotKeeps(env, Model(), a, Marked(source, level, role, at));
      StampKeepsDevice(SlotAt(table, a), Marked(source, level, role, at));
      MarkSlotLocked(a, source, level, role, at);
      if table[a].device.Some? {
        SyncEntryFaces(table[a].device.value);
      }
      observationGeneration := observationGeneration + 1;
    }

    method MarkSlotPassiveObserved(a: Addr, role: SlotRole, at: Time)
      requires Valid()
      modifies this
      ensures Valid() && Model() == MarkSlot(old(Model()), a, PassiveMark(role, at))
    {
      MarkAddressSlot(a, PassiveObserved, CORROBORATED, role, at);
    }

    method MarkSlotStaticSeed(a: Addr, role: SlotRole, at: Time)
      requires Valid()
      modifies this
      ensures Valid() && Model() == MarkSlot(old(Model()), a, SeedMark(role, at))
    {
      MarkAddressSlot(a, StaticSeed, CANDIDATE, role, at);
    }

    method ConfirmScanIdentity(a: Addr, now: Time)
      requires Valid()
      modifies this
      ensures Valid() && Model() == ConfirmScan(old(Model()), a, now)
      ensures entries == old(entries)
    {
      hide WellFormed, SyncFaces, ConfirmTopology, StampSlot;
      ghost var s := Model();
      ConfirmScanKeeps(env, s, a, now);
      ConfirmScanSlots(env, s, a, now);
      if a !in entries { return; }
      var e := entries[a];
      ObserveAddressSlot(a, e, CONFIRMED, now);
      ConfirmTopologyIdentitySlots(a, e);
      SyncEntryFaces(e);
      observationGeneration := observationGeneration + 1;
    }

    /** Admits the canonical companion of a witnessed source as a passively observed target. */
    method AdmitPassiveCompanion(source: Addr, at: Time) returns (companion: Option<Addr>)
      requires Valid()
      modifies this
      ensures Valid() && Model() == AdmitCompanion(env, old(Model()), source, at)
      ensures companion == if AdmitsCompanion(env, old(Model()), source, at) then env.companionOf(source) else None
    {
      hide WellFormed, MarkSlot, WitnessCurrent;
      companion := None;
      if at == 0 || env.companionOf(source).None? { return; }
      var target := env.companionOf(source).value;
      if source !in witnesses || !WitnessCurrent(env, Model(), source, witnesses[source].proof) { return; }
      if target in table && table[target].role != RoleUnknown && table[target].role != RoleSlave { return; }
      MarkSlotPassiveObserved(target, RoleSlave, at);
      companion := Some(target);
    }

    // ---- aliases ----------------------------------------------------------------------------------------------

    // One side's address joins the canonical entry of the other.
    method JoinEntry(canonical: EntryId, a: Addr)
      modifies this
      ensures Model() == JoinAlias(old(Model()), canonical, a)
    {
      hide Without, SyncFaces, MergeRemoved, Including;
      var secondary := SlotAt(table, a).device;
      if secondary.Some? && secondary.value != canonical {
        YieldEntry(canonical, secondary.value, a);
      }
      table := table[a := SlotAt(table, a).(device := Some(canonical))];
      var d := Look(arena, canonical);
      arena := arena[canonical := d.(addresses := Including(d.addresses, a))];
      entries := entries[a := canonical];
      SyncEntryFaces(canonical);
    }

    method YieldEntry(canonical: EntryId, secondary: EntryId, a: Addr)
      requires canonical != secondary
      modifies this
      ensures Model() == Yield(old(Model()), canonical, secondary, a)
    {
      hide Without, SyncFaces, MergeRemoved;
      var left := RemoveFirst(Look(arena, secondary).addresses, a);
      var d := Look(arena, secondary).(addresses := left);
      arena := arena[secondary := d];
      if left == [] {
        MergeRemovedAliasEntry(canonical, secondary);
      } else {
        if d.primary == a {
          d := d.(primary := left[0], info := d.info.(address := left[0]));
          arena := arena[secondary := d];
        }
        assert arena == old(arena)[secondary := d];
        SyncEntryFaces(secondary);
      }
    }

    method AliasAddresses(a: Addr, b: Addr)
      requires Valid()
      modifies this
      ensures Valid() && Model() == S.AliasAddresses(env, old(Model()), a, b)
    {
      hide WellFormed, JoinAlias, RecordEdge, Reconcile;
      AliasKeeps(env, Model(), a, b);
      var slotA := EnsureAddressSlot(a);
      var slotB := EnsureAddressSlot(b);
      if slotA.device.Some? {
        JoinEntry(slotA.device.value, b);
      } else if slotB.device.Some? {
        JoinEntry(slotB.device.value, a);
      }
      if a in entries && b in entries && entries[a] == entries[b] {
        RecordTopologyAlias(a, b);
      }
      observationGeneration := observationGeneration + 1;
      ReconcileQualifiedIdentityWitnesses();
    }

    // ---- lookups --------------------------------------------------------------------------------------------------

    /** The first face with the role, else the first unknown face whose address class implies it. */
    method AddressByRole(e: EntryId, role: SlotRole) returns (r: Option<Addr>)
      requires Valid() && e in order
      ensures r == RoleByTable(env, table, Look(arena, e).addresses, role)
    {
      hide WellFormed, FacesOf;
      AddressByRoleScansTable(env, Model(), e, role);
      var faces := Look(arena, e).faces;
      for i := 0 to |faces|
        invariant FirstFaceWithRole(faces, role) == FirstFaceWithRole(faces[i..], role)
      {
        assert faces[i..][1..] == faces[i + 1..];
        if faces[i].role == role { return Some(faces[i].addr); }
      }
      for i := 0 to |faces|
        invariant FirstFaceWithRole(faces, role) == None
        invariant FirstInferredFace(env, faces, role) == FirstInferredFace(env, faces[i..], role)
      {
        assert faces[i..][1..] == faces[i + 1..];
        if faces[i].role == RoleUnknown {
          var class_ := env.classOf(faces[i].addr);
          if (class_ == ClassMaster && role == RoleMaster) || (class_ == ClassSlave && role == RoleSlave) {
            return Some(faces[i].addr);
          }
        }
      }
      return None;
    }

    /** The live entry an address resolves to. */
    method Lookup(a: Addr) returns (e: Option<EntryId>)
      requires Valid()
      ensures e == ExistingAt(Model(), a)
      ensures e.Some? ==> e.value in order && a in Look(arena, e.value).addresses
    {
      LookupResolves(Model(), a);
      e := if a in entries then Some(entries[a]) else None;
    }
  }

  // ---- loop steps ------------------------------------------------------------------------

  // The topology once these companions have dropped their edge to a.
  ghost function ForgottenBy(rows: map<Addr, set<Addr>>, a: Addr, done: set<Addr>): map<Addr, set<Addr>>
  {
    map x | x in rows && (x in done ==> rows[x] - {a} != {}) :: if x in done then rows[x] - {a} else rows[x]
  }

  lemma ForgetNone(rows: map<Addr, set<Addr>>, a: Addr)
    ensures ForgottenBy(rows, a, Edges(rows, a) - Edges(rows, a)) == rows
  {}

  lemma ForgetOne(rows: map<Addr, set<Addr>>, a: Addr, done: set<Addr>, x: Addr)
    requires x !in done
    ensures var t := ForgottenBy(rows, a, done);
      ForgottenBy(rows, a, done + {x}) ==
      (if x !in t then t else if t[x] - {a} == {} then t - {x} else t[x := t[x] - {a}])
  {}

  lemma ForgetAll(rows: map<Addr, set<Addr>>, a: Addr)
    requires a !in Edges(rows, a)
    ensures ForgottenBy(rows, a, Edges(rows, a)) - {a} == ForgetAddress(rows, a)
  {}

  lemma NoneAdopted(table: map<Addr, AddressSlot>, addresses: seq<Addr>, whole: map<Addr, AddressSlot>, e: EntryId)
    ensures AdoptSlots(table, addresses[..0], e) == table && FacesOf(addresses[..0], whole) == []
  {}

  lemma AdoptOneMore(table: map<Addr, AddressSlot>, addresses: seq<Addr>, e: EntryId, i: nat)
    requires i < |addresses|
    ensures var before := AdoptSlots(table, addresses[..i], e);
      AdoptSlots(table, addresses[..i + 1], e) == before[addresses[i] := Adopt(SlotAt(before, addresses[i]), e)]
    ensures FaceOf(addresses[i], Adopt(SlotAt(AdoptSlots(table, addresses[..i], e), addresses[i]), e)) ==
            FaceOf(addresses[i], SlotAt(AdoptSlots(table, addresses, e), addresses[i]))
  {
    assert addresses[..i + 1] == addresses[..i] + [addresses[i]];
  }

  lemma FacesOneMore(addresses: seq<Addr>, table: map<Addr, AddressSlot>, i: nat)
    requires i < |addresses|
    ensures FacesOf(addresses[..i + 1], table) ==
            FacesOf(addresses[..i], table) + [FaceOf(addresses[i], SlotAt(table, addresses[i]))]
  {}

  lemma AbsorbedAddresses(dst: DeviceEntry, src: DeviceEntry)
    ensures Absorb(dst, src).addresses == dst.addresses
  {}

  lemma NoneMoved(entries: map<Addr, EntryId>, table: map<Addr, AddressSlot>, xs: seq<Addr>, moved: seq<Addr>, dst: EntryId)
    ensures MoveAll(entries, moved[..0], dst) == entries && MoveSlots(table, moved[..0], dst) == table
    ensures IncludingAll(xs, moved[..0]) == xs
  {}

  lemma OneMoreEntry(entries: map<Addr, EntryId>, moved: seq<Addr>, dst: EntryId, i: nat)
    requires i < |moved|
    ensures MoveAll(entries, moved[..i + 1], dst) == MoveAll(entries, moved[..i], dst)[moved[i] := dst]
  {
    assert moved[..i + 1] == moved[..i] + [moved[i]];
  }

  lemma OneMoreSlot(table: map<Addr, AddressSlot>, moved: seq<Addr>, dst: EntryId, i: nat)
    requires i < |moved|
    ensures var t := MoveSlots(table, moved[..i], dst);
      MoveSlots(table, moved[..i + 1], dst) == t[moved[i] := SlotAt(t, moved[i]).(device := Some(dst))]
  {
    assert moved[..i + 1] == moved[..i] + [moved[i]];
  }

  lemma OneMoreMoved(entries: map<Addr, EntryId>, table: map<Addr, AddressSlot>, xs: seq<Addr>, moved: seq<Addr>,
                     dst: EntryId, i: nat)
    requires i < |moved|
    ensures MoveAll(entries, moved[..i + 1], dst) == MoveAll(entries, moved[..i], dst)[moved[i] := dst]
    ensures var t := MoveSlots(table, moved[..i], dst);
      MoveSlots(table, moved[..i + 1], dst) == t[moved[i] := SlotAt(t, moved[i]).(device := Some(dst))]
    ensures IncludingAll(xs, moved[..i + 1]) == Including(IncludingAll(xs, moved[..i]), moved[i])
  {
    hide MoveAll, MoveSlots, Including;
    OneMoreEntry(entries, moved, dst, i);
    OneMoreSlot(table, moved, dst, i);
    assert moved[..i + 1][..i] == moved[..i];
  }

  lemma RetainedDropsNothing(s: Registry, info: DeviceInfo)
    requires Decide(s, info).retained
    ensures Key(Canonical(info)) != "" ==> DropStale(s, Key(Canonical(info))) == s
    ensures ExistingAt(s, info.address) == Decide(s, info).existing && Decide(s, info).existing.Some?
  {
    hide Canonical, Key, CanMerge, CompatibleEnrichment, CurrentOwner;
  }

  lemma NoLoops(s: Registry, a: Addr)
    requires Core(s)
    ensures a !in Edges(s.topology, a)
  {}

  lemma DropTopology(s: Registry, k: string)
    ensures DropStale(s, k).topology == s.topology
  {
    hide CurrentOwner;
  }

  lemma PublishCommutes(p: Registry, q: Registry, e: EntryId, k: string)
    requires p == q.(entries := p.entries, table := p.table)
    ensures Publish(p, e, k) == Publish(q, e, k).(entries := p.entries, table := p.table)
  {
    PublishElsewhere(q, p, e, k);
    PublishFrame(p, e, k);
    PublishFrame(q, e, k);
    hide Publish;
  }

  lemma AdmitParts(s: Registry, info: DeviceInfo)
    ensures var d := Decide(s, info); var s1 := Settle(s, info, d);
      AdmittedEntry(s, info) == TargetOf(s1, d) &&
      Admit(s, info) == Refresh(Place(s1, info.address, d), TargetOf(s1, d), info, d)
  {
    hide Decide, Settle, Place, Refresh, TargetOf;
  }

  // ---- the worklist's ghost state ------------------------------------------------------------

  // Everything taken off the queue has had its edges followed.
  ghost predicate Followed(s: Registry, e: EntryId, seen: set<Addr>, pending: seq<Addr>)
  {
    forall a: Addr, b: Addr ::
      (a in seen && a !in pending && ExistingAt(s, a) == Some(e) && b in Edges(s.topology, a) &&
       ExistingAt(s, b) == Some(e)) ==> b in seen
  }

  // The table once everything taken off the queue is confirmed.
  ghost function RaisedSlots(s: Registry, e: EntryId, seen: set<Addr>, pending: seq<Addr>): map<Addr, AddressSlot>
  {
    map a: Addr | a in s.table.Keys + (set x | x in seen && x !in pending && ExistingAt(s, x) == Some(e)) ::
      if a in seen && a !in pending && ExistingAt(s, a) == Some(e)
      then SlotAt(s.table, a).(verification := CONFIRMED)
      else SlotAt(s.table, a)
  }

  ghost function AddrsBelow(n: nat): (all: set<Addr>)
    requires n <= 256
    ensures forall a: Addr :: a in all <==> a < n
  {
    if n == 0 then {} else AddrsBelow(n - 1) + {n - 1}
  }

  ghost predicate Worklist(s: Registry, e: EntryId, start: Addr, seen: set<Addr>, pending: seq<Addr>)
  {
    start in seen && seen <= AddrsBelow(256) &&
    Distinct(pending) && (forall a :: a in pending ==> a in seen) &&
    (forall a :: a in seen && ExistingAt(s, a) == Some(e) ==> Reaches(s, e, start, a)) &&
    Followed(s, e, seen, pending)
  }

  lemma StartWorklist(s: Registry, e: EntryId, start: Addr)
    ensures Worklist(s, e, start, {start}, [start])
    ensures RaisedSlots(s, e, {start}, [start]) == s.table
  {
    ReachesStart(s, e, start);
    hide Reaches;
  }

  lemma FinishWorklist(s: Registry, e: EntryId, start: Addr, seen: set<Addr>)
    requires Worklist(s, e, start, seen, [])
    ensures RaisedSlots(s, e, seen, []) == ConfirmTopology(s, start, e).table
  {
    hide Reaches;
    assert Closed(s, e, seen);
    ClosedIsReached(s, e, start, seen);
    RaisedIsConfirmed(s, e, start, seen);
  }

  lemma TakeHead(pending: seq<Addr>)
    requires Distinct(pending) && pending != []
    ensures Distinct(pending[1..])
    ensures forall a :: a in pending[1..] <==> a in pending && a != pending[0]
  {
    assert forall i :: 0 <= i < |pending[1..]| ==> pending[1..][i] == pending[i + 1];
  }

  lemma RaiseOne(s: Registry, e: EntryId, seen: set<Addr>, pending: seq<Addr>, table: map<Addr, AddressSlot>)
    requires Distinct(pending) && pending != [] && pending[0] in seen && ExistingAt(s, pending[0]) == Some(e)
    requires var was := RaisedSlots(s, e, seen, pending);
      table == was[pending[0] := SlotAt(was, pending[0]).(verification := CONFIRMED)]
    ensures table == RaisedSlots(s, e, seen, pending[1..])
  {
    TakeHead(pending);
  }

  // Queueing newly seen addresses confirms nothing yet.
  lemma RaiseSame(s: Registry, e: EntryId, seen0: set<Addr>, pending0: seq<Addr>, seen: set<Addr>, pending: seq<Addr>)
    requires seen0 <= seen && forall a :: a in pending <==> a in pending0 || a in seen - seen0
    ensures RaisedSlots(s, e, seen, pending) == RaisedSlots(s, e, seen0, pending0)
  {
    assert forall a :: (a in seen && a !in pending) <==> (a in seen0 && a !in pending0);
  }

  lemma FollowedOne(s: Registry, e: EntryId, seen0: set<Addr>, pending0: seq<Addr>, seen: set<Addr>, pending: seq<Addr>)
    requires Distinct(pending0) && pending0 != [] && Followed(s, e, seen0, pending0) && seen0 <= seen
    requires forall a :: a in pending <==> a in pending0[1..] || a in seen - seen0
    requires forall b :: b in Edges(s.topology, pending0[0]) && ExistingAt(s, b) == Some(e) ==> b in seen
    ensures Followed(s, e, seen, pending)
  {
    TakeHead(pending0);
  }

  lemma SkipOne(s: Registry, e: EntryId, seen: set<Addr>, pending: seq<Addr>)
    requires Distinct(pending) && pending != [] && ExistingAt(s, pending[0]) != Some(e) && Followed(s, e, seen, pending)
    ensures Followed(s, e, seen, pending[1..])
    ensures RaisedSlots(s, e, seen, pending[1..]) == RaisedSlots(s, e, seen, pending)
  {
    TakeHead(pending);
  }

  lemma RaisedIsConfirmed(s: Registry, e: EntryId, start: Addr, seen: set<Addr>)
    requires forall a :: a in seen && ExistingAt(s, a) == Some(e) ==> Reaches(s, e, start, a)
    requires forall a :: Reaches(s, e, start, a) ==> a in seen
    ensures RaisedSlots(s, e, seen, []) == ConfirmTopology(s, start, e).table
  {
    ReachedResolve(s, e, start);
    hide Reaches;
    assert forall a: Addr :: Reaches(s, e, start, a) <==> a in seen && ExistingAt(s, a) == Some(e);
  }

  // ---- public operations -----------------------------------------------------------------------

  lemma WitnessIsLocal(env: Protocol, s: Registry, t: Registry, a: Addr, w: Witness)
    requires t == s.(witnesses := t.witnesses) && a in s.witnesses && a in t.witnesses && t.witnesses[a] == s.witnesses[a]
    ensures WitnessCurrent(env, t, a, w) == WitnessCurrent(env, s, a, w)
  {
    hide AuthorityOf, Key, StableKey;
  }

  // The entry a registration returns is the one its address resolves to.
  lemma RegisteredEntry(env: Protocol, s: Registry, info: DeviceInfo, now: Time)
    requires WellFormed(env, s) && !Decide(s, info).retained
    ensures ExistingAt(S.Register(env, s, info, now), info.address) == Some(AdmittedEntry(s, info))
    ensures forall stamp :: ExistingAt(RegisterMarked(env, s, info, stamp), info.address) == Some(AdmittedEntry(s, info))
  {
    AdmitKeeps(s, info);
    RegisterAfterAdmit(env, s, info, now);
    hide S.Register, RegisterMarked, Admit, AdmittedEntry, Decide, WellFormed, Sound;
    forall stamp
      ensures ExistingAt(RegisterMarked(env, s, info, stamp), info.address) == Some(AdmittedEntry(s, info))
    {
      MarkedAfterAdmit(env, s, info, stamp);
    }
  }

  // A registration's own steps, in order.
  lemma RegisterParts(env: Protocol, s: Registry, info: DeviceInfo, now: Time)
    requires WellFormed(env, s)
    ensures Core(s)
    ensures Decide(s, info).retained ==> S.Register(env, s, info, now) == s
    ensures !Decide(s, info).retained ==>
      var e := AdmittedEntry(s, info);
      var complete := Qualified(Canonical(info));
      var s1 := Stamped(Admit(s, info), info.address, Observed(if complete then CONFIRMED else CANDIDATE, now));
      var s2 := if complete then ConfirmTopology(s1, info.address, e) else s1;
      ExistingAt(S.Register(env, s, info, now), info.address) == Some(e) &&
      S.Register(env, s, info, now) == RecordWitness(env, Reconcile(env, Tick(SyncFaces(s2, e))), info, e)
  {
    if !Decide(s, info).retained { RegisteredEntry(env, s, info, now); }
    hide Decide, Admit, AdmittedEntry, Canonical, Qualified, ConfirmTopology, SyncFaces, Reconcile, RecordWitness, Stamped;
    hide WitnessesOk, Sound, TopologyOk;
  }

  lemma MarkedParts(env: Protocol, s: Registry, info: DeviceInfo, stamp: Stamp)
    requires WellFormed(env, s)
    ensures Core(s)
    ensures Decide(s, info).retained ==> RegisterMarked(env, s, info, stamp) == s
    ensures !Decide(s, info).retained ==>
      var e := AdmittedEntry(s, info);
      ExistingAt(RegisterMarked(env, s, info, stamp), info.address) == Some(e) &&
      RegisterMarked(env, s, info, stamp) ==
      Reconcile(env, Tick(SyncFaces(Stamped(Admit(s, info), info.address, stamp), e)))
  {
    if !Decide(s, info).retained { RegisteredEntry(env, s, info, 0); }
    hide Decide, Admit, AdmittedEntry, SyncFaces, Reconcile, Stamped, WitnessesOk, Sound, TopologyOk;
  }

  lemma StampAfterAdmit(m: Registry, t: Registry, a: Addr, e: EntryId, stamp: Stamp)
    requires m.(table := m.table[a := SlotAt(m.table, a).(device := Some(e))]) == t
    ensures WithSlot(m, a, StampSlot(SlotAt(m.table, a).(device := Some(e)), stamp)) == Stamped(t, a, stamp)
  {
    hide StampSlot;
  }

  lemma StampKeepsDevice(slot: AddressSlot, stamp: Stamp)
    ensures StampSlot(slot, stamp).device == slot.device
  {}

  lemma LookupResolves(s: Registry, a: Addr)
    requires Partition(s.order, s.arena, s.entries)
    ensures a in s.entries ==> s.entries[a] in s.order && a in Look(s.arena, s.entries[a]).addresses
  {}
}
