# Verification of the device registry, the PV fact registry and the router

A Dafny model of the stateful cores of this repository and of the algorithms that stand on their own.
`dafny verify dfyconfig.toml` checks all of it.

## What is modelled

**The eBUS device registry** (`registry/`). One registry value keeps six structures in step: the entry map, the
address table, each entry's addresses and faces, the identity index, the topology graph, and the witnesses with the
list of live entries. `registry_state.dfy` gives every operation as a function on that value. `registry_invariant.dfy`
says what a well-formed registry is, `registry_steps.dfy` and `registry_alias_steps.dfy` prove that every public step
keeps it, and `registry_index_theorems.dfy`, `registry_index_runs.dfy`, `registry_provenance.dfy`, `registry_slots.dfy`,
`registry_theorems.dfy`, `registry_groups.dfy` and `registry_topology.dfy` prove what follows over whole runs.
`registry_decisions.dfy`, `registry_members.dfy`, `registry_slot_laws.dfy` and `registry_witness_laws.dfy` say what a
step does in terms of what was heard and known alone: where an address goes, what its entry then holds and in what order,
and what becomes of every slot and witness. `device_registry.dfy` is the registry as a class whose methods update maps and sequences in place, step by step as
the Go methods do; each is proved to compute the function and so inherits every theorem. `scan.dfy` runs the 07 04 scan
over that class against an arbitrary bus.

Entries are handles into an arena of entry values, so two addresses share an entry exactly when they hold the same
handle. Writing a field of an entry is replacing its value in the arena.

**The photovoltaic fact registry** (`pv/`). `pv_counter.dfy` holds exact decimals and counter continuity,
`pv_facts.dfy` freshness and fact keys, `pv_registry.dfy` the transaction as a function, `pv_invariant.dfy` and
`pv_theorems.dfy` what every stored asset satisfies and what holds over runs, `pv_readings.dfy` what becomes of one
reading, `pv_catalog.dfy` the catalog and the one way an accepted update loses a row, and `pv_asset_registry.dfy` the registry as a class that updates a clone and stores
it only when every step has passed.

**The router's coalescing invoke cache** (`router.dfy`). The two critical sections of `Invoke` are methods of a class
and also the steps of a transition system over any number of callers, in any interleaving.

**Algorithms on their own.** `crc.dfy` (the B51B CRC register and chunk budget), `spectrum.dfy` and `spectrum_laws.dfy`
(B525 block views and their join), `projection.dfy` and `projection_laws.dfy` (path, node and edge identifiers and the
canonical index), `schema.dfy` (the payload codec), `identity.dfy`, `identity_laws.dfy` and `numerals.dfy` (normalized
identities and their printed keys).

## Where the code and its promises part

- *Index rows and whitespace.* A row always belongs to a live entry that claims its key, on every run. That the entry
  still has the row's triple fails when a sparse refresh carries a member that is not empty but is blank: it replaces
  the stored member while the trimmed comparison keeps the authority. `RegistryTheorems.BlankRefreshBreaks` is a
  concrete run; `RegistryTheorems.StepIndexExact` says a step keeps the index current if and only if it is not such a
  refresh, and `RegistryTheorems.UnblankedInputsKeepIndex` gives a condition on the inputs alone.
- *Topology edges.* An alias can move an address out of another entry and leave its old edges behind, so edges may
  cross entries: `RegistryTopology.SeveredEdge` is a concrete run. `RegistryTopology.StepEdgesExact` says that a step
  keeps every edge inside one entry if and only if it is not an alias that takes an address with edges of its own out
  of another entry. Confirmation only ever follows edges whose ends resolve to its entry.
- *The regrouping branch* of registration (registry/registry_registration.go:108-113) is never taken.
- *One mapped row per fact.* A report that answers an old line again takes the row of the fact the line mapped. At most
  one mapped row per fact holds always; exactly one is kept if and only if the report reuses no such line, which the
  caller can check against the ledger, and always when observation references are fresh.
- *Identifier collisions.* The collision branch of the canonical index (registry/projection.go:237-239) is dead, since
  ids are printed from the paths they stand for.

## Model

| member | source | states |
|---|---|---|
| RegistryAliasSteps.EmptyWellFormed | registry/registry.go:93-102 | A new registry is well formed under every address classification. |
| RegistryAliasSteps.StepKeeps | registry/registry_registration.go:66-209 | Every public step of a well-formed registry gives a well-formed one: address groups partition the registered addresses, slots agree with the entry map, rows name live entries that claim them, topology is symmetric, irreflexive and without empty rows, identities and faces are in step, and every witness is current. |
| RegistryAliasSteps.RunsKeep | registry/registry_alias.go:133-198 | The same after any run of public steps. |
| RegistrySteps.AdmitKeeps | registry/registry_registration.go:92-133 | An admitted observation, through create, detach and merge, keeps all of it but the slot and faces its caller stamps next. |
| RegistrySteps.RegroupUnreachable | registry/registry_registration.go:108-113 | The branch that would regroup an evidenced alias group is never taken, for any state and observation. |
| RegistryAliasSteps.AliasKeeps | registry/registry_alias.go:133-198 | Aliasing keeps a registry well formed, whether the other side's entry survives or is merged away. |
| RegistryIndexTheorems.RowsAreCurrent | registry/registry_alias.go:21-38 | With a current index, lookup by key finds exactly the stored row and drops nothing. |
| RegistryIndexTheorems.IndexBijection | registry/registry_alias.go:40-86 | Rows and live entries that claim a key are in bijection, and each row prints its owner's current triple. |
| RegistryIndexRuns.RegisterIndexExact | registry/registry_registration.go:135-206 | An active registration keeps the index current if and only if it is not a sparse refresh with a blank triple member. |
| RegistryIndexRuns.RegisterMarkedIndexExact | registry/registry_registration.go:225-240 | The same for seeding and passive registrations. |
| RegistryIndexRuns.AliasIndex | registry/registry_alias.go:203-220 | Aliasing keeps the index current, including when fields of a removed entry are absorbed. |
| RegistryTheorems.StepIndexExact | registry/registry_alias.go:64-86 | Over all public steps: the index stays current if and only if the step is not a blank refresh. |
| RegistryTheorems.RunsKeepIndex | registry/registry_alias.go:64-86 | A run without blank refreshes keeps every claimed key owned by exactly its claimant. |
| RegistryTheorems.UnblankedInputsKeepIndex | registry/registry_registration.go:135-171 | A run whose observations carry no member that is blank without being empty keeps the index current. |
| RegistryTheorems.BlankRefreshBreaks | registry/registry_registration.go:135-154 | Two observations after which a row's owner no longer has the row's triple. |
| RegistryTheorems.StepKeepsClaim | registry/registry_alias.go:64-86 | A step leaves alone the claim of every entry that holds none of its addresses. |
| RegistryTheorems.RowsAreNotTaken | registry/registry_alias.go:64-86 | No step takes a row from a live owner it neither observes nor aliases. |
| RegistryProvenance.StepProvenance | registry/registry_alias.go:203-220 | A step claims no key but those claimed before and the complete triple it observed. |
| RegistryTheorems.RowsWereObserved | registry/registry_registration.go:135-171 | Over every run, each row is the complete triple of one past observation, never a composite. |
| RegistryTheorems.ContradictionsChangeNothing | registry/registry_registration.go:80-90 | An observation changes nothing at all if and only if its address is known and the owner of its complete triple contradicts it; what contradicting is, RegistryDecisions.ContradictedIs says. |
| RegistryDecisions.MergeableIs | registry/registry_alias.go:88-101 | Two devices may be merged if and only if neither their serials nor their MAC addresses are both known and different in normal form. |
| RegistryDecisions.EnrichmentIs | registry/registry_registration.go:358-363 | A group may join an entry if and only if, besides, no manufacturers are known and different and, of two fully known model signatures, nothing differs. |
| RegistryDecisions.ContradictedIs | registry/registry_alias.go:108-113 | A candidate is refused if and only if its MAC address is known and differs from the known one observed: an owner of the triple always has the serial. |
| RegistryDecisions.DisputedTriple | registry/registry_registration.go:80-98 | A complete triple whose current owner has another MAC address: at a known address nothing changes at all; a new address gets an entry of its own that claims nothing, and every other entry and every row stays. |
| RegistryDecisions.OwnedTriple | registry/registry_registration.go:92-133 | A complete triple whose owner's MAC address agrees or is missing: the address is at the owner afterwards, with its whole group exactly if nothing known speaks against it, and the owner still owns the triple. |
| RegistryDecisions.UnownedTriple | registry/registry_registration.go:96-133 | A complete triple nobody owns: a known address stays unless serial or MAC address contradict its entry, and otherwise gets an entry of its own, which owns the triple. |
| RegistryDecisions.PartialTriple | registry/registry_registration.go:159-171 | Without a complete triple a known address stays, its entry keeping its claim unless a heard triple member differs from a known one; a new address gets an entry that claims nothing. |
| RegistryDecisions.ObservationBystander | registry/registry_registration.go:115-133 | An observation leaves every entry exactly as it was but the one it selects and the one its address was in. |
| RegistryDecisions.PublishExactly | registry/registry_alias.go:64-86 | Publishing gives an entry the key and its row unless another current owner is told apart from it; it then claims nothing. It has no other row, and the rows of others stay but for the one it takes. |
| RegistryTheorems.WitnessLookup | registry/qualified_identity_witness.go:58-71 | Looking a witness up succeeds exactly where a record is stored. |
| RegistryTheorems.WitnessesPartitionByTriple | registry/qualified_identity_witness.go:125-150 | Two witnessed addresses belong to one entry if and only if their witnesses carry one triple. |
| RegistryTheorems.WitnessRecordedExactly | registry/qualified_identity_witness.go:76-104 | With a current index, a registration records a witness at its address if and only if its triple is complete, the address is of a master or slave class, and no current owner of the triple contradicts it; the witness carries that triple and the newest proof number. |
| RegistryTheorems.RegisterWitnesses | registry/registry_registration.go:22-25 | Every other witness after a registration is one that was there before, unchanged; a recorded one has the next proof number and the next generation. |
| RegistryTheorems.WitnessesWereObserved | registry/qualified_identity_witness.go:76-104 | Over every run, each witness carries the triple of a direct observation of its own address. |
| RegistryWitnessLaws.WitnessesAreBacked | registry/qualified_identity_witness.go:125-150 | Every witness is of a triple that its address's entry stores, claims and owns, at an address of master or slave class, directly observed there. |
| RegistryWitnessLaws.WitnessSurvives | registry/qualified_identity_witness.go:109-118 | A witness whose address is not actively observed stays, unchanged, if and only if its entry still stores, claims and owns the triple. |
| RegistrySlots.DetachNeedsConflict | registry/registry_registration.go:96-123 | An address is detached only by a complete triple that conflicts with its group or belongs to a group it cannot join. |
| RegistrySlots.StepSlots | registry/registry_scan.go:60-137 | Resolving addresses stay resolved; verification never falls and a known source, role and first time never change, unless the address is detached. |
| RegistrySlots.RunSlots | registry/registry_registration.go:323-337 | The same over every run in which the address is never detached. |
| RegistrySlots.DetachedHasNoEdges | registry/registry_alias.go:246-254 | A detached address has no topology edges left in either direction. |
| RegistrySlots.ConfirmExactly | registry/registry_registration.go:252-276 | Confirmation raises exactly the addresses reachable through edges whose ends all resolve to the entry, and changes nothing else of any slot. |
| RegistrySlots.AddressByRoleScansTable | registry/registry_snapshot.go:115-146 | Searching an entry's faces by role agrees with a two-pass scan of the address table over its addresses. |
| RegistrySlotLaws.ObservationSlots | registry/registry_registration.go:5-26 | Exactly what an observation makes of every slot: at its address the source, role and first time it lacked, the higher confidence (confirmed, corroborated or candidate by kind and completeness) and the last time, anew if the address left its group; elsewhere only confirmation where a complete triple's topology reaches. |
| RegistrySlotLaws.MarkSlotsExactly | registry/registry_scan.go:35-74 | The same for marks, confirmations and companions, with exactly when a companion is admitted: at a known time, for a witnessed source, at a slot not known to be other than a slave. |
| RegistrySlotLaws.AliasSlotsExactly | registry/registry_alias.go:137-190 | An alias knows both its addresses from then on and changes nothing of any slot but the entry it names. |
| RegistrySlotLaws.GenerationsCount | registry/registry_registration.go:5-26 | Every step is one observation generation, but for those that find nothing to do, which change nothing. |
| RegistrySlotLaws.FacesAreSlots | registry/registry_scan.go:139-157 | Faces are an entry's addresses in order, each with the role, source and confidence of its slot. |
| RegistrySlotLaws.RoleFindsFirst | registry/registry_snapshot.go:115-146 | Looking up by role finds the first address of that role, else the first of unknown role whose class has it, else there is neither. |
| RegistryGroups.ObservationGroups | registry/registry_registration.go:92-133 | After an observation the address groups are exactly: its address, with its whole group when merged, at the selected entry, and everything else where it was. |
| RegistryGroups.AliasEntries | registry/registry_alias.go:133-190 | After an alias exactly one address moves, to the other operand's entry. |
| RegistryGroups.JoinsNeedEvidence | registry/registry_registration.go:75-123 | Two addresses come under one entry only by an alias naming both entries or by a complete triple observed at an address of one and owned by the other. |
| RegistryGroups.SplitsNeedConflict | registry/registry_registration.go:96-123 | Two addresses of one entry part only by a conflicting complete triple observed at one of them or by an alias that moves one. |
| RegistryGroups.ObservationRemembers | registry/registry_registration.go:135-157 | The selected entry stores every heard member and forgets none it knew, a device id being replaced only at its own address; every other entry keeps its information. |
| RegistryGroups.StepKeepsKnown | registry/registry_alias.go:286-316 | No public step makes a surviving entry forget a member it knew. |
| RegistryGroups.RemovedKeepsName | registry/registry_alias.go:143-161 | An entry that a step leaves out of the registry keeps its display address. |
| RegistryGroups.StepKeepsNamed | registry/scan.go:256-266 | Once an entry's display address resolves it does so ever after, even when the entry is gone. |
| RegistryMembers.AliasMerges | registry/registry_alias.go:203-220 | An alias that takes an entry's only address merges it: each of the six members of the other entry is its own if that was known and the removed one's otherwise, its cached identity is that information's, the address comes last, no third entry changes, and it claims, and owns the row of, its own key if it had one, else the removed one's if its triple prints to it, else none. |
| RegistryMembers.AliasMoves | registry/registry_alias.go:141-190 | Every other alias moves one address to the end of the other group, or none: the entry it leaves keeps all it knows and its other addresses in order, the first of them primary if the primary left. |
| RegistryMembers.ObservationStores | registry/registry_registration.go:135-157 | Member by member what the observed address's entry holds: heard first, then its own, then that of a group that joined it; the device id of an entry joined for its triple is replaced last. |
| RegistryMembers.ObservationLists | registry/registry_registration.go:115-133 | Where a registration puts addresses and entries in their lists: the address last, behind a joining group's in their order, a new entry last of all, the group left shrunk in place or gone. |
| RegistryMembers.WithoutLeavesOut | registry/registry_index.go:22-40 | Removing from a list leaves out one occurrence and keeps the rest in order. |
| RegistryTopology.AliasTopology | registry/registry_alias.go:192-194 | An alias records its edge exactly when either operand resolves, and changes no other edge. |
| RegistryTopology.ObservationTopology | registry/registry_alias.go:360-376 | An observation drops exactly the edges of an address it detaches. |
| RegistryTopology.StepEdgesExact | registry/registry_alias.go:141-194 | A step keeps every edge inside one entry if and only if it is not an alias that takes an address with edges of its own out of another entry. |
| RegistryTopology.RunsKeepEdgesInside | registry/registry_alias.go:226-238 | Over a run without such aliases every edge stays inside one entry. |
| RegistryTopology.SeveredEdge | registry/registry_alias.go:143-161 | Four steps after which an edge joins two entries. |
| DeviceRegistry.RemoveFirst | registry/registry_index.go:22-40 | Shifting the first occurrence out of a list removes exactly it and keeps the order of the rest. |
| DeviceRegistry.ReachesStep | registry/registry_registration.go:268-273 | An edge from a reached address to one that resolves to the entry reaches that address. |
| DeviceRegistry.ClosedContains | registry/registry_registration.go:258-275 | A set of seen addresses closed under such edges contains every chain that starts in it. |
| DeviceRegistry.DeviceRegistry.constructor | registry/registry.go:93-102 | Starts valid and empty. |
| DeviceRegistry.DeviceRegistry.RegisterProvider | registry/registry.go:104-109 | Advances the observation generation and nothing else. |
| DeviceRegistry.DeviceRegistry.SyncEntryFaces | registry/registry_scan.go:139-157 | Faces become the image of the entry's slots in address order. |
| DeviceRegistry.DeviceRegistry.MarkSlotLocked | registry/registry_scan.go:60-74 | Stamps source, role, verification and times of one slot by their separate rules. |
| DeviceRegistry.DeviceRegistry.CurrentIdentityEntry | registry/registry_alias.go:21-30 | The owner of a key while it is current, dropping a stale row. |
| DeviceRegistry.DeviceRegistry.PublishCurrentIdentityBinding | registry/registry_alias.go:64-86 | Publishes, or withdraws the entry's rows when a conflicting owner is current. |
| DeviceRegistry.DeviceRegistry.AbsorbIdentity | registry/registry_alias.go:286-316 | Fills the empty members of one entry from another and recomputes its cached identity. |
| DeviceRegistry.DeviceRegistry.ForgetTopologyAddress | registry/registry_alias.go:246-254 | The edge loop removes every edge of an address, and rows it empties. |
| DeviceRegistry.DeviceRegistry.DetachAddress | registry/registry_alias.go:360-387 | Splits an address off its group, rehoming or removing the group. |
| DeviceRegistry.DeviceRegistry.MergeRegisteredAliases | registry/registry_registration.go:343-356 | Moves every address of one group into another and removes it. |
| DeviceRegistry.DeviceRegistry.MergeRemovedAliasEntry | registry/registry_alias.go:203-220 | Absorbs a removed entry and republishes only an authority that was observed. |
| DeviceRegistry.DeviceRegistry.RegisterLocked | registry/registry_registration.go:66-209 | The whole registration step, with its retained-conflict exit. |
| DeviceRegistry.DeviceRegistry.ConfirmTopologyIdentitySlots | registry/registry_registration.go:252-276 | The worklist terminates and confirms exactly what is reachable. |
| DeviceRegistry.DeviceRegistry.ReconcileQualifiedIdentityWitnesses | registry/qualified_identity_witness.go:109-118 | The sweep keeps exactly the current witnesses. |
| DeviceRegistry.DeviceRegistry.RecordDirectQualifiedIdentityWitness | registry/qualified_identity_witness.go:76-104 | Records a witness for a direct complete observation whose entry owns its key. |
| DeviceRegistry.DeviceRegistry.CurrentWitness | registry/qualified_identity_witness.go:58-71 | Finds a current witness exactly where one is stored. |
| DeviceRegistry.DeviceRegistry.Register | registry/registry_registration.go:5-26 | Active registration: the exact new registry, still well formed, with the address resolving to the result. |
| DeviceRegistry.DeviceRegistry.RegisterStaticSeed | registry/registry_registration.go:225-240 | Seeding registration, likewise. |
| DeviceRegistry.DeviceRegistry.RegisterPassiveObserved | registry/registry_scan.go:98-113 | Passive registration, likewise. |
| DeviceRegistry.DeviceRegistry.MarkSlotPassiveObserved | registry/registry_scan.go:35-52 | Stamps a slot and resynchronizes the faces of its device. |
| DeviceRegistry.DeviceRegistry.MarkSlotStaticSeed | registry/registry_registration.go:303-316 | The same for seeds. |
| DeviceRegistry.DeviceRegistry.ConfirmScanIdentity | registry/registry_registration.go:36-48 | Confirms a responding address and what it reaches; moves no address. |
| DeviceRegistry.DeviceRegistry.AdmitPassiveCompanion | registry/admit_passive_companion.go:18-59 | Stamps the companion of a currently witnessed source unless its role contradicts; otherwise changes nothing. |
| DeviceRegistry.DeviceRegistry.AliasAddresses | registry/registry_alias.go:133-198 | The exact new registry for both sides of an alias, still well formed. |
| DeviceRegistry.DeviceRegistry.AddressByRole | registry/registry_snapshot.go:115-146 | The face search returns what the table scan returns. |
| DeviceRegistry.DeviceRegistry.Lookup | registry/registry_snapshot.go:9-17 | A found entry is live and holds the address. |
| Identity.NormalizeIdempotent | registry/identity.go:93-95 | Normalizing twice is normalizing once. |
| Identity.MemberSplits | registry/identity.go:41-48 | A length-prefixed member splits off its string in one way only. |
| Identity.KeyInjective | registry/identity.go:30-53 | Keys are equal if and only if both triples are qualified and the same, whatever characters they hold. |
| IdentityLaws.NormalizeIs | registry/identity.go:93-95 | A normal form is what lies between the outer white space, with letters in capitals. |
| IdentityLaws.SentinelIsValue | registry/identity.go:55-71 | The rejected serials are exactly the hexadecimal spellings of 0, 0xFFFFFFFF and 0x7FFFFFFF, with or without 0x and with any leading zeros. |
| IdentityLaws.KeyNeeds | registry/identity.go:30-53 | A triple has a key if and only if its three members are known and its serial is none of those. |
| Scan.Dedupe | registry/scan.go:460-474 | Each target once, at its first place, none lost. |
| Scan.ProbeTarget | registry/scan.go:108-212 | One probe: how each reply is treated, and exactly what an answer does to the registry. |
| Scan.DisplayIsOwn | registry/registry_snapshot.go:99-104 | Live entries are told apart by their display addresses. |
| Scan.CanonicalizeEntries | registry/scan.go:256-275 | The live entries that earlier findings resolve to now, all of them, each once, in the order found. |
| Scan.Scan | registry/scan.go:77-238 | The probes are the rounds of the scan, collided targets before deferred ones, up to the first reply that ends it; only wanted, probeable addresses outside the 25 bus masters are probed, at most four times, again only after a collision or retryable failure, and unless the scan ends each until a probe concludes it or four times; the registry is exactly what the answers make of it; results are distinct live entries in the order found, each led to by an answer, and every answer is represented by one shown under the same address. |
| Scan.InitiatorsAre | registry/scan.go:476-495 | The nibble tests accept exactly 25 addresses, given as a literal set. |
| Scan.VerdictExactly | registry/scan.go:129-194 | Which replies end the scan, collide, are skipped, are retried or identify a device, and with which information. |
| Scan.AcceptedTogether | registry/scan.go:195-212 | An accepted answer leaves its source and the probed target under one entry, joined by an edge unless they are one, the source confirmed and seen at that time. |
| Scan.AcceptedSeen | registry/scan.go:195-206 | So is the probed target seen then, from a known source, unless its triple is disputed there. |
| Scan.RoundsProbeFully | registry/scan.go:99-236 | Rounds probe wanted targets only, each until a probe concludes it or as often as there are rounds. |
| Scan.FindsOk | registry/scan.go:209-217 | What a log of probes finds: entries that answers resolved to, one for each display address an answer was shown under, all still resolving. |
| Router.InvokeCache.Enter | router/router.go:219-259 | From lock to unlock: a frame fresh enough, a channel to wait on, or ownership with a new channel. |
| Router.InvokeCache.Complete | router/router.go:263-271 | Ends a flight, stores a success with its time, keeps the frame on failure, closes the channel. |
| Router.StepKeeps | router/router.go:219-277 | Every interleaved step keeps: one owner per running key with its open channel, channels closed once, waiters on an open owner's or a closed channel, cached frames that are the last decoded ones, answers no older than asked. |
| Router.RunsKeep | router/router.go:219-277 | The same for every run of any number of callers. |
| Router.FinishClosesOnce | router/router.go:263-271 | The channel an owner closes is still open and nobody else owns the key. |
| Router.ChannelsAccounted | router/router.go:256-271 | Every channel made is closed or held by a running key. |
| Router.NoLostWakeup | router/router.go:245-271 | A waiter can wake now, or an owner exists whose finishing wakes it. |
| Router.FailureKeepsFrames | router/router.go:261-271 | A failed send leaves every cached frame and its time alone. |
| Router.FramesOutliveFailures | router/router.go:261-271 | Over any run in which no flight of a key succeeds, its cached frame and time stay. |
| Router.SendsOnlyWhenNeeded | router/router.go:226-259 | A caller becomes owner if and only if nobody owns the key and no decoded frame is fresh enough. |
| Router.LockDecides | router/router.go:226-259 | A caller that takes the lock is answered, with the last decoded frame, if and only if nobody owns the key and that frame is fresh enough; waits, on the owner's channel, if and only if there is an owner; and otherwise owns with a new channel. |
| Router.WaitersShareTheAnswer | router/router.go:226-271 | A waiter of a successful flight is answered by it without sending, while it is fresh. |
| PvCounter.PrintedIsCanonical | pv/types.go:106-120 | Every printed integer is an admissible coefficient that reads back as itself. |
| PvCounter.CanonicalIsPrinted | pv/types.go:106-120 | Every admissible coefficient is the printed form of its value. |
| PvCounter.UnitsMeaning | pv/types.go:110-113 | Units are the exact value coefficient times ten to the scale. |
| PvCounter.CompareExact | pv/counter.go:54-60 | Comparison agrees with exact value at every pair of scales. |
| PvCounter.SubtractExact | pv/counter.go:62-69 | Differences are exact and admissible again. |
| PvCounter.AddExact | pv/counter.go:71-78 | Sums are exact and admissible again. |
| PvCounter.DeltasAreExact | pv/counter.go:8-52 | Which outcomes carry a delta, what it is worth, that contiguous deltas are not negative and rollover deltas of non-negative readings lie strictly between zero and the modulus. |
| PvCounter.OutcomesExact | pv/counter.go:21-51 | When each outcome arises, by the readings' values and the evidence, and that it carries the evidence's reference and modulus. |
| PvCounter.DigestForm | pv/types.go:307-314 | A digest is sha256: and 64 lower-case hexadecimal digits. |
| PvCounter.DeltasTelescope | pv/counter.go:21-48 | Along contiguous and rollover readings, deltas sum to last minus first plus the moduli. |
| PvFacts.FreshnessMovesForward | pv/lifecycle.go:30-51 | Once evaluable, evaluable at every later time; freshness only moves forward and expired is exactly unavailable. When it is which, PvReadings.EvaluationIsAge says. |
| PvFacts.TemporalFailsExactly | pv/lifecycle.go:30-36 | Evaluation fails exactly on an early time, a negative receipt, or a window past int64. |
| PvReadings.EvaluationIsAge | pv/lifecycle.go:18-51 | Fresh exactly before 30 s, 60 s, 15 min or a day, stale exactly from there to 5 min, 10 min, a day or 30 days, expired and unavailable exactly from there on, by policy; evaluation succeeds exactly on a known policy, a receipt that is neither negative nor later, and a window within int64. |
| PvReadings.SnapshotShowsAges | pv/registry.go:239-254 | Every fact a snapshot shows is shown at its age, whatever it was stored as, and nothing else of it differs. |
| PvReadings.AppliedAsReceived | pv/registry.go:79-134 | A reading is stored if and only if candidate, policy, quality, receipt, window and counter evidence are acceptable, and then with its own receipt, policy, quality, unit, value and origin; an accumulator's first value is a baseline, an expired or foreign predecessor a discontinuity, and otherwise the predecessor's value decides. |
| PvReadings.ReadingsAreStored | pv/registry.go:78-134 | Every reading of an accepted update was acceptable and is stored so, judged against the facts before the update. |
| PvReadings.OthersAge | pv/registry.go:64-66 | Every fact an accepted update does not carry stays as it was, at its age. |
| PvReadings.ReadingsAge | pv/registry.go:169-184 | The whole life of a reading: from its update on, every snapshot shows it as it was received, at its age. |
| PvReadings.ReadingsAcceptedExactly | pv/registry.go:64-138 | The facts of an update are stored if and only if no stored reading is newer, its observation reference is new or names the same source, and each of its readings is acceptable. |
| PvReadings.RequiredAreThreePhase | pv/catalog.go:228-243 | The ten required facts by their printed keys. |
| PvReadings.AcceptedExactly | pv/registry.go:61-152 | An admitted update is accepted if and only if its readings are acceptable, it claims the capability the facts show, and what it leaves stays within 256 facts and origins and 512 lines. |
| PvReadings.ReadingRefusedFor | pv/registry.go:79-122 | Why a reading is refused: malformed, untimely, or its counter evidence, in this order. |
| PvReadings.UpdateRefusedFor | pv/registry.go:64-152 | Why an admitted update is refused: a newer stored reading, a clashing observation reference, its first unacceptable reading, the claimed capability, or the size of what it leaves, in this order. |
| PvReadings.AcceptedWithinBounds | pv/registry.go:67-152 | What an accepted update leaves besides: its source and source time, and stores within those bounds. |
| PvReadings.AccountingExactly | pv/registry.go:339-388 | The counting accepts exactly the reports whose lines are of this observation and well shaped, answer each requested output once and map each fact once. |
| PvReadings.AdmittedSource | pv/registry.go:207-237 | The source of an admitted update is terminally verified, resolves to the registry reference it names, and carries four digests. |
| PvReadings.CandidatesAreLocated | pv/catalog.go:125-216 | A catalogued candidate is keyed by its id and one place of its fact's dimension; its value is an admissible decimal, a symbol of the domain, or distinct symbols of it. |
| PvFacts.KeyDetermines | pv/types.go:163-186 | The key of a fact with one short dimension is the key of no other id and dimensions. |
| PvInvariant.CataloguedKeyDetermines | pv/catalog.go:165-203 | The same for every candidate the catalog admits, against any id and dimensions. |
| PvInvariant.RetainedOk | pv/registry.go:239-254 | Re-evaluating facts keeps them well formed and changes only availability and freshness. |
| PvInvariant.UpdatedFacts | pv/registry.go:64-138 | After an update: the new facts under their keys from this source, every other fact as it was but for freshness. |
| PvInvariant.ReportMapsTheInputs | pv/registry.go:354-386 | Counting suffices: an accepted report maps exactly the facts of its update. |
| PvInvariant.ReportAnswersTheRequest | pv/registry.go:343-364 | An accepted report answers every requested output. |
| PvInvariant.MergedRow | pv/registry.go:400-424 | Each line of the merged ledger is a reported one or an old one of an untouched fact. |
| PvInvariant.MergedOrigins | pv/registry.go:256-266 | The kept origins are exactly those the facts and the source reference, each under its own name. |
| PvInvariant.ApplyKeeps | pv/registry.go:41-155 | An accepted update stores an asset whose requests and lines coincide, whose mapped lines name stored facts of their source, at most one per fact, with exact origins, one generation on. |
| PvTheorems.RunsStore | pv/registry.go:41-155 | Whatever updates arrive, the asset is new or satisfies all of that. |
| PvTheorems.RowsAfter | pv/registry.go:405-423 | After merging, a fact has a mapped line if and only if it was updated or its old line was not answered anew. |
| PvTheorems.EveryFactMappedKept | pv/registry.go:400-424 | When every fact has its line, an accepted update leaves it so if and only if its report reuses no line of a fact it does not update. |
| PvTheorems.NewObservationReusesNothing | pv/registry.go:419-423 | A new observation reference reuses no line. |
| PvTheorems.FreshRunsMapExactlyOnce | pv/registry.go:339-424 | In a run with distinct observation references every fact has exactly one mapped line. |
| PvTheorems.AppliedAt | pv/registry.go:79-134 | Each input is judged against the facts before the update, in any order of the inputs. |
| PvTheorems.DeltasArePublishedAgainstPriors | pv/registry.go:101-117 | A published delta is measured from a prior value that is still available and of the same source, and is exactly the change plus any rollover. |
| PvTheorems.PublishedDeltasAddUp | pv/registry.go:101-117 | What an accumulator publishes over a chain of updates sums to last minus first plus the rollovers. |
| PvTheorems.SnapshotsNeverFail | pv/registry.go:169-184 | From the last update on, looking never fails, changes only freshness and availability, moves freshness forward and loses no origin. |
| PvTheorems.LookingThroughIsLooking | pv/registry.go:239-254 | Looking through an intermediate time shows the same as looking directly. |
| PvTheorems.SatisfiedForGood | pv/catalog.go:218-243 | A satisfied three-phase capability stays satisfied through every later update and snapshot. |
| PvTheorems.ChainGrows | pv/registry.go:149-153 | Over any chain facts are never lost and the generation grows by at most one an update. |
| PvCatalog.CatalogIsBarFree | pv/catalog.go:70-111 | No catalogued id contains the separator of fact keys. |
| PvCatalog.ReusedLineLosesARow | pv/registry.go:419-423 | Two accepted updates on one line leave the first fact stored without a mapped line. |
| PvCatalog.ReusedLineLosesTheFrequency | pv/registry.go:419-423 | The same on the catalog itself, with the frequency and the power factor. |
| PvAssetRegistry.AssetState.EvaluateRetainedFacts | pv/registry.go:239-254 | The loop refreshes every fact or reports that one cannot be evaluated. |
| PvAssetRegistry.AssetState.InstallFacts | pv/registry.go:78-134 | The loop over inputs installs them all or stops at the first error, as the transaction function says; PvReadings.AppliedAsReceived says what is installed. |
| PvAssetRegistry.AssetState.MergeAccounting | pv/registry.go:400-424 | The deletion and insertion loops give the merged ledger and requests. |
| PvAssetRegistry.AssetState.Prune | pv/registry.go:256-266 | The loops keep exactly the referenced origins. |
| PvAssetRegistry.HasDuplicates | pv/registry.go:157-167 | Finds a repeated fact key if and only if there is one. |
| PvAssetRegistry.ValidateAccounting | pv/registry.go:339-388 | The counting loops accept exactly the reports that answer each request once and map each fact once. |
| PvAssetRegistry.Registry.Apply | pv/registry.go:41-155 | All or nothing: the new asset under its reference, or the same error and no change to any asset. |
| PvAssetRegistry.ShownCapability | pv/registry.go:186-203 | A shown capability is satisfied if and only if the asset has the four total and six per-phase facts of a three-phase inverter, however old. |
| PvAssetRegistry.Registry.Snapshot | pv/registry.go:169-184 | Shows the asset at a time, changes nothing, and never fails from the last update on. |
| BudgetCrc.CrcWithInitial | catalog/vaillant/ab23an23_b51b_local_budget_crc.go:64-77 | The bit loop computes the CRC of the bytes. |
| BudgetCrc.CheckValues | catalog/vaillant/ab23an23_b51b_local_budget_crc.go:60-77 | The digits 1 to 9 have the check values 0x29B1 from 0xFFFF and 0x31C3 from 0; nothing has its initial value. |
| ShiftRegister.GeneratorTaps | catalog/vaillant/ab23an23_b51b_local_budget_crc.go:68-74 | One clock moves every bit up one place and adds the bit that falls out at places 0, 5 and 12. |
| BudgetCrc.Compositional | catalog/vaillant/ab23an23_b51b_local_budget_crc.go:64-77 | The CRC of a concatenation continues from the CRC of its first part. |
| BudgetCrc.ResidueIsZero | catalog/vaillant/ab23an23_b51b_local_budget_crc.go:64-77 | Appending a message's own CRC, high byte first, gives zero for every message and initial value. |
| ShiftRegister.Shift8Linear | catalog/vaillant/ab23an23_b51b_local_budget_crc.go:68-74 | Eight clocks of the register are linear. |
| BudgetCrc.SuffixKeepsDifference | catalog/vaillant/ab23an23_b51b_local_budget_crc.go:66-75 | Behind a common suffix, CRCs are equal if and only if they were before it. |
| BudgetCrc.BurstsAreDetected | catalog/vaillant/ab23an23_b51b_local_budget_crc.go:64-77 | Different messages of one length that differ in a run of at most 16 bits, at any bit offset, never share a CRC. |
| BudgetCrc.AdjacentBytesAreDetected | catalog/vaillant/ab23an23_b51b_local_budget_crc.go:64-77 | The two-byte case. |
| BudgetCrc.Plan | catalog/vaillant/ab23an23_b51b_local_budget_crc.go:19-45 | Exactly the first 1024 bytes cut every 206, or the first 205 as one chunk, and the rest unplanned; together the input. |
| BudgetCrc.CrcOverPlan | catalog/vaillant/ab23an23_b51b_local_budget_crc.go:30-43 | The CRC carried over planned chunks and the tail is the CRC of the input. |
| BudgetCrc.ProgressCounts | catalog/vaillant/ab23an23_b51b_local_budget_crc.go:47-58 | Over any steps, progress never falls or overflows and counts exactly the accepted steps that fit; a step fails exactly when it is negative or accepted and too large. |
| PresenceMask.SetBitPresent | catalog/vaillant/ab82_b525_spectrum_blocks.go:106-122 | Setting a bit of the four words makes its index present and changes no other. |
| Spectrum.MaskShowsIndices | catalog/vaillant/ab82_b525_spectrum_blocks.go:258-261 | A mask shows exactly the indices of its entries. |
| Spectrum.View | catalog/vaillant/ab82_b525_spectrum_blocks.go:134-175 | State, placement, entries, mask and remainder of one block. |
| Spectrum.FindMismatch | catalog/vaillant/ab82_b525_spectrum_blocks.go:207-219 | Comparing with the first placed block finds a mismatch if and only if two placed blocks differ in context. |
| Spectrum.PickedAll | catalog/vaillant/ab82_b525_spectrum_blocks.go:227-242 | Comparing each duplicate with the first finds exactly the selectors on which any two blocks disagree. |
| Spectrum.Join | catalog/vaillant/ab82_b525_spectrum_blocks.go:200-286 | The join is what the set of supplied blocks means, and each supplied block's line says whether it conflicts or was the first to contribute. |
| Spectrum.OrderAndRepetitionDoNotMatter | catalog/vaillant/ab82_b525_spectrum_blocks.go:200-286 | Joins of the same blocks agree in state, entries, mask, missing and conflicts, in any order and repetition. |
| Spectrum.JoinAscends | catalog/vaillant/ab82_b525_spectrum_blocks.go:249-262 | Entries are strictly ascending within 0 to 255 and are exactly what the mask shows. |
| Spectrum.CompleteExactly | catalog/vaillant/ab82_b525_spectrum_blocks.go:276-284 | Complete if and only if one context, agreement, and 32 bytes for each of eight selectors; then every index is present once, in place. |
| Spectrum.ListsAreExact | catalog/vaillant/ab82_b525_spectrum_blocks.go:250-275 | Missing are the selectors without agreed blocks, conflicting those with disagreeing ones. |
| Spectrum.EntriesWereSupplied | catalog/vaillant/ab82_b525_spectrum_blocks.go:249-261 | Every joined byte is what every placed block of its selector has there. |
| SpectrumLaws.JoinHolds | catalog/vaillant/ab82_b525_spectrum_blocks.go:249-262 | An entry is joined if and only if all request blocks are of one device and operation, no two of its selector differ, and one of them gives it: its byte there, also read as signed. |
| SpectrumLaws.JoinStates | catalog/vaillant/ab82_b525_spectrum_blocks.go:220-285 | Mismatch, conflict, complete, partial and empty, by the request blocks supplied. |
| SpectrumLaws.ViewStates | catalog/vaillant/ab82_b525_spectrum_blocks.go:134-175 | The kind of a block by its context and length. |
| Projections.TextInjective | registry/projection.go:49-78 | Valid paths that print alike are the same path. |
| Projections.EdgeInjective | registry/projection.go:123-131 | An edge id determines its plane and both endpoints when these are stable node ids. |
| Projections.Validate | registry/projection.go:274-326 | Accepts exactly projections of valid nodes of their plane, distinct paths, one canonical path an id, and known endpoints. |
| Projections.NoCollision | registry/projection.go:236-242 | An id already indexed has the canonical path at hand, so the collision branch is dead. |
| Projections.BuildCanonicalIndex | registry/projection.go:196-272 | Succeeds exactly on indexable projections, and then indexes each node's own paths and nothing else. |
| Projections.LookupsAreOwn | registry/projection.go:152-170 | The stable id of a path looks up that path or nothing, and a plane path exactly for the plane's ids. |
| ProjectionLaws.IndexableExactly | registry/projection.go:196-326 | Projections have an index if and only if every name, path and id is proper, no path is repeated in a projection or under an id of a plane, every edge runs inside its projection, and the service plane, if there is one, has every node. |
| ProjectionLaws.PathIs | registry/projection.go:31-78 | A path is valid if and only if its plane and segment names have something but white space, neither slash nor colon, and no segment name an at sign in front. |
| ProjectionLaws.TextPrints | registry/projection.go:49-62 | A path prints as its plane, a colon and its segments below a slash, locations behind an at sign. |
| SchemaCodec.Decode | schema/schema.go:22-44 | The decoding loop, with its four failures. |
| SchemaCodec.Encode | schema/schema.go:47-74 | The encoding loop, with its failures and the empty schema. |
| SchemaCodec.Size | schema/schema.go:77-89 | The sum of the positive sizes. |
| SchemaCodec.RoundTrip | schema/schema.go:22-74 | An encoded payload, with anything after it, decodes if and only if every field has a positive size, and gives back exactly the encoded values. |
| SchemaCodec.ReverseTrip | schema/schema.go:22-74 | Under distinct names, decoded values encode back into exactly the bytes they came from. |
| SchemaCodec.EncodesExactly | schema/schema.go:53-71 | Encoding succeeds if and only if every field has a value that its type encodes, in its size if it has one. |
| SchemaCodec.EncodedInOrder | schema/schema.go:53-71 | A payload is the encodings of its fields one after the other. |
| SchemaCodec.DecodesExactly | schema/schema.go:26-42 | Decoding succeeds if and only if every field has a positive size, lies inside the payload behind those before it, and decodes there. |
| SchemaCodec.LastFieldWins | schema/schema.go:26-42 | A decoded name has the value of the last field of that name. |

## Left out

- DeviceRegistry.DeviceRegistry.Register: planes, projections and provider callbacks of an entry are not kept; the registration's identity, address and witness effects are.
- DeviceRegistry.DeviceRegistry.RegisterProvider: the provider list itself is opaque; only its generation step is modelled.
- DeviceRegistry.DeviceRegistry.AbsorbIdentity: planes, projections and the canonical index of the absorbed entry are not modelled.
- Entry objects are arena values named by handles: reading a stale handle's fields outside the registry, and references that outlive their entry, are not captured.
- Generations are natural numbers; 64-bit wrap-around is not modelled. Times are integers with zero for the zero time.
- Address classes and companions are arbitrary functions of the address. Strings are ASCII.
- Scan.Scan: does not claim that every answering device is itself in the result; findings are recorded by display address, so one device can stand for another that was shown under the same address at another time.
- Scan.ProbeTarget: response parsing and the serial read are arbitrary inputs; pacing, timers and contexts are left out.
- Snapshots and iteration of the registry copy entries and are left out.
- Router.InvokeCache.Enter: the cache key and the maximum age are inputs; how names, parameters and refresh classes form them is left out.
- Subscriptions, broadcast events and the bus itself are left out of the router; a send is a step with an arbitrary outcome.
- PvAssetRegistry.AssetState.EvaluateRetainedFacts: when facts of several kinds cannot be evaluated, which error is reported depends on map order; for stored facts only one kind can occur.
- PvAssetRegistry.Registry.Apply: source resolution, reference patterns, protocol tokens and the address-literal test are parameters; the sorted order of bitfield symbols and of snapshot lists is left out.
- Locks: every public operation is one atomic step. The router's two critical sections are separate steps.
- SchemaCodec.RoundTrip: the data types of fields are parameters that decode what they encode.
- Spectrum.Join: blocks carry no grade, which is one constant; sorting the selectors is reading them off in order.
- JSON-in, JSON-out evaluators, embedded tables, YAML loading, environment switches and service-view sorting are left out.
