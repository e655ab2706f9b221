// The state of registry.DeviceRegistry as a value, and every registry
// operation as a function on it.  Entries are named by handles: the arena maps
// each *deviceEntry ever allocated to its fields, `order` lists the live ones.
module RegistryState {
  import opened Numerals
  import opened Identity

  type EntryId = nat
  type Time = nat                       // 0 is the zero time.Time
  type Verification = v: nat | v <= 3   // Unknown, Candidate, Corroborated, IdentityConfirmed

  const CANDIDATE: Verification := 1
  const CORROBORATED: Verification := 2
  const CONFIRMED: Verification := 3

  datatype SlotRole = RoleUnknown | RoleMaster | RoleSlave
  datatype DiscoverySource = SourceUnknown | PassiveObserved | StaticSeed | ActiveConfirmed
  datatype AddressClass = ClassMaster | ClassSlave | ClassOther

  /** The protocol package's classification, which is not part of this model. */
  datatype Protocol = Protocol(classOf: Addr -> AddressClass, companionOf: Addr -> Option<Addr>)

  datatype BusFace = BusFace(addr: Addr, role: SlotRole, source: DiscoverySource, verification: Verification)

  datatype AddressSlot = AddressSlot(
    role: SlotRole, source: DiscoverySource, verification: Verification,
    device: Option<EntryId>, first: Time, last: Time)

  datatype DeviceEntry = DeviceEntry(
    primary: Addr, addresses: seq<Addr>, physical: PhysicalIdentity,
    identityKey: string, info: DeviceInfo, faces: seq<BusFace>)

  datatype Witness = Witness(
    address: Addr, manufacturer: string, deviceID: string, serial: string,
    direct: bool, current: bool, immutable: bool,
    observationGeneration: nat, proofGeneration: nat)

  datatype WitnessRecord = WitnessRecord(proof: Witness, authorityKey: string)

  datatype Registry = Registry(
    observationGeneration: nat, proofGeneration: nat,
    entries: map<Addr, EntryId>, table: map<Addr, AddressSlot>,
    identity: map<string, EntryId>, witnesses: map<Addr, WitnessRecord>,
    topology: map<Addr, set<Addr>>, order: seq<EntryId>,
    arena: map<EntryId, DeviceEntry>, next: EntryId)

  const EMPTY_REGISTRY := Registry(0, 0, map[], map[], map[], map[], map[], [], map[], 0)
  const EMPTY_SLOT := AddressSlot(RoleUnknown, SourceUnknown, 0, None, 0, 0)

  // The information of a new entry is stored by the registration that allocates it.
  function NewEntry(address: Addr): DeviceEntry
  {
    DeviceEntry(address, [address], NO_IDENTITY, "", DeviceInfo(address, "", "", "", "", "", ""), [])
  }

  type Arena = map<EntryId, DeviceEntry>

  function Look(arena: Arena, e: EntryId): DeviceEntry
  {
    if e in arena then arena[e] else NewEntry(0)
  }

  function At(s: Registry, e: EntryId): DeviceEntry { Look(s.arena, e) }

  function WithEntry(s: Registry, e: EntryId, d: DeviceEntry): Registry
  {
    s.(arena := s.arena[e := d])
  }

  // ---- registry_index.go ------------------------------------------------------

  function Without<T(==)>(xs: seq<T>, x: T): seq<T>
  {
    if xs == [] then [] else if xs[0] == x then xs[1..] else [xs[0]] + Without(xs[1..], x)
  }

  function Including<T(==)>(xs: seq<T>, x: T): seq<T>
  {
    if x in xs then xs else xs + [x]
  }

  function IncludingAll<T(==)>(xs: seq<T>, ys: seq<T>): seq<T>
  {
    if ys == [] then xs else Including(IncludingAll(xs, ys[..|ys| - 1]), ys[|ys| - 1])
  }

  // ---- registry_scan.go: slots and faces ---------------------------------------

  function SlotAt(table: map<Addr, AddressSlot>, a: Addr): AddressSlot
  {
    if a in table then table[a] else EMPTY_SLOT
  }

  function WithSlot(s: Registry, a: Addr, slot: AddressSlot): Registry
  {
    s.(table := s.table[a := slot])
  }

  function EnsureSlot(s: Registry, a: Addr): Registry
  {
    WithSlot(s, a, SlotAt(s.table, a))
  }

  function RecordSource(known: DiscoverySource, source: DiscoverySource): DiscoverySource
  {
    if known == SourceUnknown then source else known
  }

  function Raise(v: Verification, floor: Verification): Verification
  {
    if v < floor then floor else v
  }

  /** Observed is the active path (a clock reading); Marked the passive and the seed path. */
  datatype Stamp =
    | Observed(level: Verification, now: Time)
    | Marked(source: DiscoverySource, level: Verification, role: SlotRole, at: Time)

  function PassiveMark(role: SlotRole, at: Time): Stamp { Marked(PassiveObserved, CORROBORATED, role, at) }
  function SeedMark(role: SlotRole, at: Time): Stamp { Marked(StaticSeed, CANDIDATE, role, at) }

  function StampSlot(slot: AddressSlot, stamp: Stamp): AddressSlot
  {
    match stamp
    case Observed(level, now) =>
      slot.(source := RecordSource(slot.source, ActiveConfirmed),
            verification := Raise(slot.verification, level),
            first := if slot.first == 0 then now else slot.first,
            last := now)
    case Marked(source, level, role, at) =>
      slot.(source := RecordSource(slot.source, source),
            verification := Raise(slot.verification, level),
            role := if slot.role == RoleUnknown then role else slot.role,
            first := if slot.first == 0 then at else slot.first,
            last := if at == 0 then slot.last else at)
  }

  function Stamped(s: Registry, a: Addr, stamp: Stamp): Registry
  {
    WithSlot(s, a, StampSlot(SlotAt(s.table, a), stamp))
  }

  function Adopt(slot: AddressSlot, e: EntryId): AddressSlot
  {
    if slot.device == None then slot.(device := Some(e)) else slot
  }

  function AdoptSlots(table: map<Addr, AddressSlot>, addresses: seq<Addr>, e: EntryId): map<Addr, AddressSlot>
  {
    map a: Addr | a in table.Keys + (set x | x in addresses) ::
      if a in addresses then Adopt(SlotAt(table, a), e) else SlotAt(table, a)
  }

  function FaceOf(a: Addr, slot: AddressSlot): BusFace
  {
    BusFace(a, slot.role, slot.source, slot.verification)
  }

  function FacesOf(addresses: seq<Addr>, table: map<Addr, AddressSlot>): seq<BusFace>
  {
    seq(|addresses|, i requires 0 <= i < |addresses| => FaceOf(addresses[i], SlotAt(table, addresses[i])))
  }

  function SyncFaces(s: Registry, e: EntryId): Registry
  {
    var table := AdoptSlots(s.table, At(s, e).addresses, e);
    s.(table := table, arena := s.arena[e := At(s, e).(faces := FacesOf(At(s, e).addresses, table))])
  }

  // ---- registry_alias.go: identity index ----------------------------------------

  predicate CurrentKey(s: Registry, e: EntryId, k: string)
  {
    StableKey(k) && At(s, e).identityKey == k && Key(At(s, e).physical) == k
  }

  function CurrentOwner(s: Registry, k: string): Option<EntryId>
  {
    if k in s.identity && CurrentKey(s, s.identity[k], k) then Some(s.identity[k]) else None
  }

  function DropStale(s: Registry, k: string): Registry
  {
    if CurrentOwner(s, k).None? then s.(identity := s.identity - {k}) else s
  }

  function RetainBinding(identity: map<string, EntryId>, e: EntryId, k: string): map<string, EntryId>
  {
    map x | x in identity && (identity[x] != e || x == k) :: identity[x]
  }

  function RemoveBindings(s: Registry, e: EntryId): Registry
  {
    s.(identity := RetainBinding(s.identity, e, ""))
  }

  // An incumbent that contradicts the entry keeps the row; the entry gives up its key.
  predicate Refused(s: Registry, e: EntryId, k: string)
  {
    var owner := CurrentOwner(s, k);
    owner.Some? && owner.value != e && !CanMerge(At(s, e).info, At(s, owner.value).info)
  }

  function PublishedKey(s: Registry, e: EntryId, k: string): string
  {
    if k == "" || Refused(s, e, k) then "" else k
  }

  function PublishedRows(s: Registry, e: EntryId, k: string): map<string, EntryId>
  {
    if k == "" then RetainBinding(s.identity, e, "")
    else if Refused(s, e, k) then RetainBinding(DropStale(s, k).identity, e, "")
    else RetainBinding(DropStale(s, k).identity, e, k)[k := e]
  }

  /** publishCurrentIdentityBindingLocked */
  function Publish(s: Registry, e: EntryId, k: string): Registry
  {
    s.(identity := PublishedRows(s, e, k),
       arena := s.arena[e := At(s, e).(identityKey := PublishedKey(s, e, k))])
  }

  function Absorb(dst: DeviceEntry, src: DeviceEntry): DeviceEntry
  {
    var info := dst.info.(
      manufacturer := Or(dst.info.manufacturer, src.info.manufacturer),
      deviceID := Or(dst.info.deviceID, src.info.deviceID),
      serial := Or(dst.info.serial, src.info.serial),
      mac := Or(dst.info.mac, src.info.mac),
      software := Or(dst.info.software, src.info.software),
      hardware := Or(dst.info.hardware, src.info.hardware));
    dst.(info := info, physical := if dst.physical == NO_IDENTITY then src.physical else Canonical(info))
  }

  // ---- registry_alias.go: topology ------------------------------------------------

  function Edges(topology: map<Addr, set<Addr>>, a: Addr): set<Addr>
  {
    if a in topology then topology[a] else {}
  }

  function RecordEdge(topology: map<Addr, set<Addr>>, a: Addr, b: Addr): map<Addr, set<Addr>>
  {
    if a == b then topology
    else topology[a := Edges(topology, a) + {b}][b := Edges(topology, b) + {a}]
  }

  function ForgetAddress(topology: map<Addr, set<Addr>>, a: Addr): map<Addr, set<Addr>>
  {
    map x | x in topology && x != a && (x in Edges(topology, a) ==> topology[x] - {a} != {}) ::
      if x in Edges(topology, a) then topology[x] - {a} else topology[x]
  }

  // ---- detaching and merging groups --------------------------------------------------

  function Rehomed(d: DeviceEntry, gone: Addr): DeviceEntry
    requires d.addresses != []
  {
    if d.primary == gone
    then d.(primary := d.addresses[0], info := d.info.(address := d.addresses[0]))
    else d
  }

  function Detach(s: Registry, e: EntryId, a: Addr): Registry
  {
    var s1 := s.(entries := s.entries - {a},
                 table := if SlotAt(s.table, a).device == Some(e) then s.table - {a} else s.table);
    if a !in At(s, e).addresses then s1
    else
      var d := At(s, e).(addresses := Without(At(s, e).addresses, a));
      var s2 := s1.(topology := ForgetAddress(s.topology, a));
      if d.addresses == [] then
        RemoveBindings(WithEntry(s2, e, d), e).(order := Without(s.order, e))
      else
        SyncFaces(WithEntry(s2, e, Rehomed(d, a)), e)
  }

  function MoveAll(entries: map<Addr, EntryId>, addresses: seq<Addr>, dst: EntryId): map<Addr, EntryId>
  {
    map a: Addr | a in entries.Keys + (set x | x in addresses) :: if a in addresses then dst else entries[a]
  }

  function MoveSlots(table: map<Addr, AddressSlot>, addresses: seq<Addr>, dst: EntryId): map<Addr, AddressSlot>
  {
    map a: Addr | a in table.Keys + (set x | x in addresses) ::
      if a in addresses then SlotAt(table, a).(device := Some(dst)) else SlotAt(table, a)
  }

  /** mergeRegisteredAliasesLocked */
  function MergeGroup(s: Registry, dst: EntryId, src: EntryId): Registry
  {
    var moved := At(s, src).addresses;
    var d := Absorb(At(s, dst), At(s, src)).(addresses := IncludingAll(At(s, dst).addresses, moved));
    var s1 := s.(entries := MoveAll(s.entries, moved, dst),
                 table := MoveSlots(s.table, moved, dst),
                 arena := s.arena[dst := d]);
    RemoveBindings(s1, src).(order := Without(s.order, src))
  }

  /** mergeRemovedAliasEntryLocked */
  function MergeRemoved(s: Registry, canonical: EntryId, secondary: EntryId): Registry
  {
    var key := if At(s, canonical).identityKey == "" then At(s, secondary).identityKey
               else At(s, canonical).identityKey;
    var absorbed := Absorb(At(s, canonical), At(s, secondary));
    var physical := Canonical(absorbed.info);
    var s1 := RemoveBindings(WithEntry(s, canonical, absorbed.(physical := physical)), secondary);
    Publish(s1, canonical, if Key(physical) == key then key else "").(order := Without(s.order, secondary))
  }

  // ---- registry_registration.go: registerLocked -----------------------------------------

  predicate CompatibleEnrichment(info: DeviceInfo, previous: DeviceEntry)
  {
    CanMerge(info, previous.info) && !ConflictingModel(info, previous.info) &&
    (Normalize(info.manufacturer) == "" || previous.physical.manufacturer == "" ||
     Normalize(info.manufacturer) == previous.physical.manufacturer)
  }

  predicate PreservesAuthority(info: DeviceInfo, d: DeviceEntry)
  {
    var p := Canonical(info);
    d.identityKey != "" && Key(d.physical) == d.identityKey &&
    AgreesOrMissing(p.manufacturer, d.physical.manufacturer) &&
    AgreesOrMissing(p.deviceID, d.physical.deviceID) &&
    AgreesOrMissing(p.serial, d.physical.serial)
  }

  /** What registerLocked decides before it changes anything. */
  datatype Decision = Decision(
    existing: Option<EntryId>,    // existingByAddress
    incumbent: Option<EntryId>,   // existingByIdentity, once admitted
    target: Option<EntryId>,      // entry; None: a new one
    conflict: bool, merge: bool, retained: bool)

  function ExistingAt(s: Registry, a: Addr): Option<EntryId>
  {
    if a in s.entries then Some(s.entries[a]) else None
  }

  // The current owner of the observation's complete triple, if there is one.
  function Candidate(s: Registry, info: DeviceInfo): Option<EntryId>
  {
    if Key(Canonical(info)) == "" then None else CurrentOwner(s, Key(Canonical(info)))
  }

  // admitIdentityCandidate refuses a candidate whose serial or MAC contradicts.
  predicate Contradicted(s: Registry, info: DeviceInfo)
  {
    Candidate(s, info).Some? && !CanMerge(info, At(s, Candidate(s, info).value).info)
  }

  // The group chosen before the alias-group branch is considered.
  function Kept(s: Registry, info: DeviceInfo): Option<EntryId>
  {
    var existing := ExistingAt(s, info.address);
    var admitted := if Contradicted(s, info) then None else Candidate(s, info);
    var chosen := if admitted.Some? then admitted else existing;
    if existing.Some? && chosen == existing && Key(Canonical(info)) != "" &&
       !CanMerge(info, At(s, existing.value).info)
    then None else chosen
  }

  function Decide(s: Registry, info: DeviceInfo): Decision
  {
    var existing := ExistingAt(s, info.address);
    var conflict := Contradicted(s, info);
    var regroup := Regroups(s, info, existing, Kept(s, info));
    var target := if regroup then existing else Kept(s, info);
    var incumbent := if regroup || conflict then None else Candidate(s, info);
    var merge := existing.Some? && existing != target && incumbent.Some? && target.Some? &&
                 CompatibleEnrichment(info, At(s, existing.value)) &&
                 CompatibleEnrichment(At(s, target.value).info, At(s, existing.value));
    Decision(existing, incumbent, target, conflict, merge, conflict && existing.Some?)
  }

  // The branch that keeps an evidenced alias group together.
  predicate Regroups(s: Registry, info: DeviceInfo, existing: Option<EntryId>, kept: Option<EntryId>)
  {
    existing.Some? && |At(s, existing.value).addresses| > 1 && kept != existing &&
    Key(Canonical(info)) == "" && CompatibleEnrichment(info, At(s, existing.value))
  }

  // Stale index row out, then the address leaves a group it no longer belongs to.
  function Settle(s: Registry, info: DeviceInfo, d: Decision): Registry
  {
    var key := Key(Canonical(info));
    var s1 := if key == "" then s else DropStale(s, key);
    if d.existing.Some? && d.existing != d.target then
      if d.merge && d.target.Some? then MergeGroup(s1, d.target.value, d.existing.value)
      else Detach(s1, d.existing.value, info.address)
    else s1
  }

  function TargetOf(s: Registry, d: Decision): EntryId
  {
    if d.target.Some? then d.target.value else s.next
  }

  // The address joins its target, or a new entry.
  function Place(s: Registry, a: Addr, d: Decision): Registry
  {
    var e := TargetOf(s, d);
    var joined := s.(entries := s.entries[a := e],
                     table := s.table[a := SlotAt(s.table, a).(device := Some(e))]);
    if d.target.Some?
    then WithEntry(joined, e, At(s, e).(addresses := Including(At(s, e).addresses, a)))
    else WithEntry(joined, e, NewEntry(a)).(order := s.order + [e], next := s.next + 1)
  }

  function StoredInfo(info: DeviceInfo, d: DeviceEntry, preserveDeviceID: bool): DeviceInfo
  {
    DeviceInfo(
      d.primary,
      Or(info.manufacturer, d.info.manufacturer),
      if preserveDeviceID && d.info.deviceID != "" then d.info.deviceID else Or(info.deviceID, d.info.deviceID),
      Or(info.serial, d.info.serial),
      Or(info.mac, d.info.mac),
      Or(info.software, d.info.software),
      Or(info.hardware, d.info.hardware))
  }

  function AuthorityKey(info: DeviceInfo, d: DeviceEntry, conflict: bool): string
  {
    if conflict then ""
    else if Key(Canonical(info)) != "" then Key(Canonical(info))
    else if PreservesAuthority(info, d) then d.identityKey
    else ""
  }

  function Refresh(s: Registry, e: EntryId, info: DeviceInfo, d: Decision): Registry
  {
    var stored := StoredInfo(info, At(s, e), d.incumbent.Some? && d.incumbent != d.existing);
    var key := AuthorityKey(info, At(s, e), d.conflict);
    Publish(WithEntry(s, e, At(s, e).(info := stored, physical := Canonical(stored))), e, key)
  }

  /** registerLocked for an observation that is not a retained conflict. */
  function Admit(s: Registry, info: DeviceInfo): Registry
  {
    var d := Decide(s, info);
    var s1 := Settle(s, info, d);
    Refresh(Place(s1, info.address, d), TargetOf(s1, d), info, d)
  }

  function AdmittedEntry(s: Registry, info: DeviceInfo): EntryId
  {
    var d := Decide(s, info);
    TargetOf(Settle(s, info, d), d)
  }

  // ---- qualified_identity_witness.go -------------------------------------------------------

  predicate WitnessAddress(env: Protocol, a: Addr)
  {
    env.classOf(a) == ClassMaster || env.classOf(a) == ClassSlave
  }

  function AuthorityOf(w: Witness): PhysicalIdentity
  {
    Canonical(DeviceInfo(0, w.manufacturer, w.deviceID, w.serial, "", "", ""))
  }

  /** qualifiedIdentityWitnessCurrentLocked */
  predicate WitnessCurrent(env: Protocol, s: Registry, a: Addr, w: Witness)
  {
    var p := AuthorityOf(w);
    w.address == a && w.current && w.immutable && w.direct &&
    w.observationGeneration != 0 && w.proofGeneration != 0 && WitnessAddress(env, a) &&
    Key(p) != "" && p.manufacturer == w.manufacturer && p.deviceID == w.deviceID && p.serial == w.serial &&
    a in s.witnesses && s.witnesses[a] == WitnessRecord(w, Key(p)) &&
    a in s.entries && CurrentKey(s, s.entries[a], Key(p)) &&
    Key(p) in s.identity && s.identity[Key(p)] == s.entries[a]
  }

  function Reconcile(env: Protocol, s: Registry): Registry
  {
    s.(witnesses := map a | a in s.witnesses && WitnessCurrent(env, s, a, s.witnesses[a].proof) :: s.witnesses[a])
  }

  function RecordWitness(env: Protocol, s: Registry, info: DeviceInfo, e: EntryId): Registry
  {
    var p := Canonical(info);
    if !WitnessAddress(env, info.address) || Key(p) == "" || ExistingAt(s, info.address) != Some(e) ||
       !CurrentKey(s, e, Key(p)) || !(Key(p) in s.identity && s.identity[Key(p)] == e)
    then s
    else
      var w := Witness(info.address, p.manufacturer, p.deviceID, p.serial, true, true, true,
                       s.observationGeneration, s.proofGeneration + 1);
      s.(proofGeneration := s.proofGeneration + 1,
         witnesses := s.witnesses[info.address := WitnessRecord(w, Key(p))])
  }

  // ---- topology confirmation ------------------------------------------------------------------

  /** A chain of topology edges, every one of whose addresses resolves to e. */
  ghost predicate Chain(s: Registry, e: EntryId, path: seq<Addr>)
  {
    path != [] &&
    (forall i :: 0 <= i < |path| ==> ExistingAt(s, path[i]) == Some(e)) &&
    (forall i :: 0 < i < |path| ==> path[i] in Edges(s.topology, path[i - 1]))
  }

  ghost predicate Reaches(s: Registry, e: EntryId, start: Addr, a: Addr)
  {
    exists path :: Chain(s, e, path) && path[0] == start && path[|path| - 1] == a
  }

  /** confirmTopologyIdentitySlotsLocked */
  ghost function ConfirmTopology(s: Registry, start: Addr, e: EntryId): Registry
  {
    s.(table := map a: Addr | a in s.table.Keys + (set x: Addr | 0 <= x < 256 && Reaches(s, e, start, x)) ::
         if Reaches(s, e, start, a)
         then SlotAt(s.table, a).(verification := CONFIRMED)
         else SlotAt(s.table, a))
  }

  // ---- public operations ------------------------------------------------------------------------

  function Tick(s: Registry): Registry
  {
    s.(observationGeneration := s.observationGeneration + 1)
  }

  ghost function Register(env: Protocol, s: Registry, info: DeviceInfo, now: Time): Registry
  {
    if Decide(s, info).retained then s
    else
      var e := AdmittedEntry(s, info);
      var complete := Qualified(Canonical(info));
      var s1 := Stamped(Admit(s, info), info.address, Observed(if complete then CONFIRMED else CANDIDATE, now));
      var s2 := if complete then ConfirmTopology(s1, info.address, e) else s1;
      RecordWitness(env, Reconcile(env, Tick(SyncFaces(s2, e))), info, e)
  }

  /** RegisterStaticSeed and RegisterPassiveObserved, which differ in their stamp. */
  function RegisterMarked(env: Protocol, s: Registry, info: DeviceInfo, stamp: Stamp): Registry
  {
    if Decide(s, info).retained then s
    else
      var e := AdmittedEntry(s, info);
      Reconcile(env, Tick(SyncFaces(Stamped(Admit(s, info), info.address, stamp), e)))
  }

  function SyncDevice(s: Registry, device: Option<EntryId>): Registry
  {
    if device.Some? then SyncFaces(s, device.value) else s
  }

  /** MarkSlotPassiveObserved and MarkSlotStaticSeed. */
  function MarkSlot(s: Registry, a: Addr, stamp: Stamp): Registry
  {
    Tick(SyncDevice(Stamped(s, a, stamp), SlotAt(s.table, a).device))
  }

  ghost function ConfirmScan(s: Registry, a: Addr, now: Time): Registry
  {
    if a !in s.entries then s
    else
      var e := s.entries[a];
      var slot := SlotAt(s.table, a).(device := Some(e));
      Tick(SyncFaces(ConfirmTopology(WithSlot(s, a, StampSlot(slot, Observed(CONFIRMED, now))), a, e), e))
  }

  // The secondary entry gives up `a`, surviving at its other addresses or merging away.
  function Yield(s: Registry, canonical: EntryId, secondary: EntryId, a: Addr): Registry
  {
    var d := At(s, secondary).(addresses := Without(At(s, secondary).addresses, a));
    if d.addresses == []
    then MergeRemoved(WithEntry(s, secondary, d), canonical, secondary)
    else SyncFaces(WithEntry(s, secondary, Rehomed(d, a)), secondary)
  }

  function JoinAlias(s: Registry, canonical: EntryId, a: Addr): Registry
  {
    var device := SlotAt(s.table, a).device;
    var s1 := if device.Some? && device.value != canonical then Yield(s, canonical, device.value, a) else s;
    var s2 := WithSlot(s1, a, SlotAt(s1.table, a).(device := Some(canonical)));
    var d := At(s2, canonical).(addresses := Including(At(s2, canonical).addresses, a));
    SyncFaces(WithEntry(s2, canonical, d).(entries := s2.entries[a := canonical]), canonical)
  }

  function AliasGroups(s: Registry, a: Addr, b: Addr): Registry
  {
    var s0 := EnsureSlot(EnsureSlot(s, a), b);
    if SlotAt(s0.table, a).device.Some? then JoinAlias(s0, SlotAt(s0.table, a).device.value, b)
    else if SlotAt(s0.table, b).device.Some? then JoinAlias(s0, SlotAt(s0.table, b).device.value, a)
    else s0
  }

  function AliasAddresses(env: Protocol, s: Registry, a: Addr, b: Addr): Registry
  {
    var s1 := AliasGroups(s, a, b);
    var s2 := if ExistingAt(s1, a).Some? && ExistingAt(s1, a) == ExistingAt(s1, b)
              then s1.(topology := RecordEdge(s1.topology, a, b)) else s1;
    Reconcile(env, Tick(s2))
  }

  predicate AdmitsCompanion(env: Protocol, s: Registry, source: Addr, at: Time)
  {
    at != 0 && env.companionOf(source).Some? &&
    source in s.witnesses && WitnessCurrent(env, s, source, s.witnesses[source].proof) &&
    (var role := SlotAt(s.table, env.companionOf(source).value).role; role == RoleUnknown || role == RoleSlave)
  }

  /** AdmitPassiveCompanionWithCurrentQualifiedIdentityWitness */
  function AdmitCompanion(env: Protocol, s: Registry, source: Addr, at: Time): Registry
  {
    if AdmitsCompanion(env, s, source, at)
    then MarkSlot(s, env.companionOf(source).value, PassiveMark(RoleSlave, at))
    else s
  }

  datatype Step =
    | AddProvider
    | Observe(info: DeviceInfo, now: Time)
    | Seed(info: DeviceInfo, role: SlotRole, at: Time)
    | Passive(info: DeviceInfo, role: SlotRole, at: Time)
    | MarkSeed(address: Addr, role: SlotRole, at: Time)
    | MarkPassive(address: Addr, role: SlotRole, at: Time)
    | Confirm(address: Addr, now: Time)
    | Alias(a: Addr, b: Addr)
    | Companion(source: Addr, at: Time)

  ghost function Do(env: Protocol, s: Registry, step: Step): Registry
  {
    match step
    case AddProvider => Tick(s)
    case Observe(info, now) => Register(env, s, info, now)
    case Seed(info, role, at) => RegisterMarked(env, s, info, SeedMark(role, at))
    case Passive(info, role, at) => RegisterMarked(env, s, info, PassiveMark(role, at))
    case MarkSeed(a, role, at) => MarkSlot(s, a, SeedMark(role, at))
    case MarkPassive(a, role, at) => MarkSlot(s, a, PassiveMark(role, at))
    case Confirm(a, now) => ConfirmScan(s, a, now)
    case Alias(a, b) => AliasAddresses(env, s, a, b)
    case Companion(source, at) => AdmitCompanion(env, s, source, at)
  }

  ghost function Run(env: Protocol, s: Registry, steps: seq<Step>): Registry
  {
    if steps == [] then s else Do(env, Run(env, s, steps[..|steps| - 1]), steps[|steps| - 1])
  }
}
