# EndpointSlice mirroring reconciler, modelled in Dafny

This project models the reconciler of the Kubernetes EndpointSlice mirroring
controller (`pkg/controller/endpointslicemirroring/reconciler.go`). One pass
turns a legacy Endpoints resource into EndpointSlices:

1. **Desired state.** Every subset offers its ready addresses, then its
   not-ready addresses, to a desired-state calculator (`DesiredCalc`). At most
   `maxEndpointsPerSubset` addresses are offered per subset. Invalid addresses
   count toward that cap and are tallied. A subset with any invalid address
   raises one warning event carrying the count (`Collection`, `Reconciler.MirrorSubset`).
   The first address seen for a key and hash is the one kept, so an address
   listed both as ready and as not ready stays ready (`DesiredState.DesiredFirstSeen`).
2. **Grouping.** Existing slices are grouped by their port/address-family
   key, in input order (`Grouping.EndpointSlicesByKey`).
3. **Per-key plan.** For each desired key, the key's endpoint set is diffed
   against the first existing slice (`Changes.TotalChanges`).
   - Every other slice of the key is deleted.
   - An empty set deletes all of the key's slices.
   - Otherwise, unless the first slice is already in sync, one slice is
     built. It is filled by draining the set up to the cap, and it is an
     update when it reuses the first slice's name, a create when it has no
     name (`Reconciler.ReconcileByPortMapping`).
4. **Orphans.** Every slice of a key that is no longer desired is deleted
   (`Plan.PlanOrphans`).
5. **Apply.** The plan is recycled: a create adopts the name of a deleted
   slice of its own family. Then creates, updates and deletes are sent to
   the store in that order (`Apply.Finalize`).
   - Creates are skipped while the Endpoints is being deleted.
   - A create refused because the namespace is terminating ends the pass
     without an error.
   - Any other failure is collected, and every later item is still sent.
   - The tracker follows every successful write and delete.
   - `Apply.DeleteEndpoints` deletes every slice of an Endpoints that is
     gone, and reports how many deletes failed.

The reconciler's mutable state is modelled as classes:
- the endpoint sets, drained in place (`EndpointSets.EndpointSet`);
- the calculator that owns them (`DesiredState.DesiredCalc`);
- the slice tracker (`Apply.EndpointSliceTracker`).

Each loop of the source is a method with its invariants. Each method is
proved against a specification function or predicate, for example
`DesiredOf`, `KeyPlan`, `IsPlan` and `ApplySpec`. Lemmas prove what those
specifications promise:
- the subset cap;
- the meaning of the diff counts;
- grouping in order;
- which existing slices a pass deletes and which it keeps;
- one write per planned key;
- that a second pass over what a pass leaves plans nothing when every key fits under the cap;
- that no written slice holds more than the cap;
- the apply phase's rules for failures, early stops and tracking.

Go map iteration order is left open. `PlanKeys` and `PlanOrphans` pick keys
with `:|`, and they return the order they chose as ghost outputs. `IsPlan`
states the plan for whatever order was taken. Every property in
`PlanProperties` holds for any order.

One might expect a second pass over the output of a first pass to plan
nothing. The code guarantees this only when every key's desired endpoints fit
under the cap (`PlanProperties.SecondPassPlansNothing`). Per key,
`PlanProperties.PlannedIsStable` proves that a planned slice needs no rewrite
exactly when its key's desired endpoints fit under the cap. Several subsets
that share one port shape can together exceed the cap, and then the slice is
rewritten on every pass. The model follows the code.

## Model

| member | source | states |
|---|---|---|
| Discovery.Cap | pkg/controller/endpointslicemirroring/reconciler.go:61-62 | the per-subset cap: never more than the number available, never more than a positive cap, nothing at all when the cap is not positive |
| Discovery.KeyIgnoresPortOrder | pkg/controller/endpointslicemirroring/reconciler.go:259 | the key of a slice depends on its set of ports, not their order (a consequence of modelling the key as a set of ports) |
| EndpointSets.InsertFirst | pkg/controller/endpointslicemirroring/reconciler.go:64 | adding an endpoint whose hash is present leaves the set unchanged; otherwise it is added under its hash and nothing else changes |
| EndpointSets.EndpointSet.Insert | pkg/controller/endpointslicemirroring/reconciler.go:64 | the set's contents become InsertFirst of the old contents |
| EndpointSets.EndpointSet.PopAny | pkg/controller/endpointslicemirroring/reconciler.go:173 | on an empty set returns nothing; otherwise returns one stored endpoint and removes exactly that one |
| DesiredState.Offered | pkg/controller/endpointslicemirroring/reconciler.go:56-79 | the addresses offered from a subset: ready ones first, then not-ready ones, cut at the cap |
| DesiredState.Register | pkg/controller/endpointslicemirroring/reconciler.go:54 | registering a subset's ports adds the IPv4 and IPv6 keys with empty sets and keeps every other key's set |
| DesiredState.AddAll | pkg/controller/endpointslicemirroring/reconciler.go:59-79 | offering addresses never adds or removes a key |
| DesiredState.InvalidCount | pkg/controller/endpointslicemirroring/reconciler.go:64-67 | the invalid count never exceeds the number of addresses offered |
| DesiredState.EventsBounded | pkg/controller/endpointslicemirroring/reconciler.go:81-84 | at most one warning per subset, each carrying a positive count of at most the cap |
| DesiredState.DesiredKeys | pkg/controller/endpointslicemirroring/reconciler.go:53-54 | a key is desired exactly when some subset's ports give it, even when no address is valid |
| DesiredState.EntriesNeverReplaced | pkg/controller/endpointslicemirroring/reconciler.go:64 | a desired endpoint already present keeps its value when later addresses are offered |
| DesiredState.AddAllSound | pkg/controller/endpointslicemirroring/reconciler.go:64 | each desired endpoint stays stored under its own hash, in the key of the family the validator gave its address |
| DesiredState.DesiredSound | pkg/controller/endpointslicemirroring/reconciler.go:53-85 | the whole desired state is stored under its own hashes, each endpoint in the key of its family |
| DesiredState.DesiredFromOffers | pkg/controller/endpointslicemirroring/reconciler.go:56-79 | every desired endpoint comes from an address offered within its subset's cap, by a subset whose ports give its key (the converse is DesiredComplete) |
| DesiredState.AddAllComplete | pkg/controller/endpointslicemirroring/reconciler.go:59-79 | every offered address with a valid IP leaves an entry under its hash, in the key of its family |
| DesiredState.AddSubsetKeeps | pkg/controller/endpointslicemirroring/reconciler.go:53-64 | a later subset never removes or replaces an entry already desired |
| DesiredState.AddSubsetAdds | pkg/controller/endpointslicemirroring/reconciler.go:54-79 | a subset's valid offers are desired under the key its ports give in the offer's family |
| DesiredState.DesiredComplete | pkg/controller/endpointslicemirroring/reconciler.go:53-85 | every address offered within its subset's cap whose IP is valid is desired under the key its subset's ports give in its family |
| DesiredState.DesiredExactly | pkg/controller/endpointslicemirroring/reconciler.go:53-85 | a hash is desired under a key exactly when a valid address offered within the cap, by a subset whose ports give that key, hashes to it |
| DesiredState.AddAllSplit | pkg/controller/endpointslicemirroring/reconciler.go:59-79 | offering two runs of addresses in turn is offering their concatenation |
| DesiredState.AddAllAbsent | pkg/controller/endpointslicemirroring/reconciler.go:59-79 | offers none of which is valid with a given hash under a key leave that hash absent from that key |
| DesiredState.AddAllFirstSeen | pkg/controller/endpointslicemirroring/reconciler.go:59-79 | the first offer to land at a key and hash not yet desired is the endpoint stored there; later offers with that hash never replace it |
| DesiredState.AddSubsetFirstSeen | pkg/controller/endpointslicemirroring/reconciler.go:54-79 | within one subset, the first valid address to land at a key and hash not desired before it is the one stored |
| DesiredState.FirstSeenInLast | pkg/controller/endpointslicemirroring/reconciler.go:52-85 | an address of the last subset that is the first anywhere to land at a key and hash is the one stored there |
| DesiredState.DesiredFirstSeen | pkg/controller/endpointslicemirroring/reconciler.go:52-85 | the endpoint desired under a key and hash is that of the first address, in subset order and then offer order, that lands there |
| DesiredState.ReadyOfferWins | pkg/controller/endpointslicemirroring/reconciler.go:58-79 | a ready address offered within the cap with a valid IP is desired as ready, even when it is also listed as not ready |
| DesiredState.AddValidStep | pkg/controller/endpointslicemirroring/reconciler.go:64 | one more valid IPv4 offer adds its hash to the IPv4 key |
| DesiredState.SkipInvalidStep | pkg/controller/endpointslicemirroring/reconciler.go:64-67 | one more invalid offer leaves the desired state as it was |
| DesiredState.NoOffersOfFamily | pkg/controller/endpointslicemirroring/reconciler.go:59-79 | offers none of which is IPv6 leave the IPv6 key as it was |
| DesiredState.ThreeOffers | pkg/controller/endpointslicemirroring/reconciler.go:59-79 | valid, invalid, valid offers desire exactly the two valid hashes |
| DesiredState.FiveOffers | pkg/controller/endpointslicemirroring/reconciler.go:59-79 | five offers, two of them invalid, desire exactly the three valid hashes |
| DesiredState.FiveOffersCount | pkg/controller/endpointslicemirroring/reconciler.go:64-67 | five offers, two of them invalid, count two invalid |
| DesiredState.InvalidAddressesSkipped | pkg/controller/endpointslicemirroring/reconciler.go:53-85 | one subset with three valid and two malformed addresses desires exactly the three valid ones under its IPv4 key, nothing under its IPv6 key, and raises one warning counting two |
| DesiredState.PortsOfLast | pkg/controller/endpointslicemirroring/reconciler.go:53-54 | ports are recorded for a key exactly when some subset's ports give it, and they are the ports of the last such subset |
| DesiredState.PortsOfGiveKeys | pkg/controller/endpointslicemirroring/reconciler.go:53-54 | the ports recorded for a key give that key back |
| DesiredState.DesiredCalc.constructor | pkg/controller/endpointslicemirroring/reconciler.go:51 | a new calculator is valid and desires nothing |
| DesiredState.DesiredCalc.InitKey | pkg/controller/endpointslicemirroring/reconciler.go:54 | registers one key with an empty set unless it has one, and records its ports |
| DesiredState.DesiredCalc.AddKey | pkg/controller/endpointslicemirroring/reconciler.go:54 | a key without a set gets a fresh empty one of its own |
| DesiredState.DesiredCalc.InitPorts | pkg/controller/endpointslicemirroring/reconciler.go:54 | registers both family keys of the subset's ports, returns them, and records the subset's ports under both keys, replacing what an earlier subset recorded |
| DesiredState.DesiredCalc.AddAddress | pkg/controller/endpointslicemirroring/reconciler.go:64-75 | succeeds exactly when the address is valid; the desired state grows as AddOne says, and no key or set is replaced |
| Reconciler.OfferOne | pkg/controller/endpointslicemirroring/reconciler.go:64-67 | offering one address extends the desired state and the invalid count by exactly that offer; the recorded ports are unchanged |
| Reconciler.OfferAddresses | pkg/controller/endpointslicemirroring/reconciler.go:59-79 | the address loop: the running total stops at the cap, and the desired state and the invalid count are those of the offers taken; the recorded ports are unchanged |
| Reconciler.MirrorSubset | pkg/controller/endpointslicemirroring/reconciler.go:54-80 | one subset adds AddSubset to the desired state and records its ports under both keys; the invalid count is that of the addresses offered within the cap |
| Collection.CollectStep | pkg/controller/endpointslicemirroring/reconciler.go:53-85 | one more subset extends the desired state, the warnings and the recorded ports by that subset's |
| Collection.CollectDesired | pkg/controller/endpointslicemirroring/reconciler.go:50-85 | the desired state, the warnings and the recorded ports are DesiredOf, Events and PortsOf of the subsets, in order |
| Grouping.Group | pkg/controller/endpointslicemirroring/reconciler.go:256-263 | a key's group holds only slices of that key, taken from the input |
| Grouping.GroupSnoc | pkg/controller/endpointslicemirroring/reconciler.go:258-261 | appending a slice extends only its own key's group, at the end |
| Grouping.EndpointSlicesByKey | pkg/controller/endpointslicemirroring/reconciler.go:256-263 | the map's keys are the keys of the slices, and each holds that key's slices in input order, never empty |
| Grouping.InOwnGroup | pkg/controller/endpointslicemirroring/reconciler.go:258-261 | each slice is in the group of its own key and in no other |
| Grouping.GroupEmpty | pkg/controller/endpointslicemirroring/reconciler.go:97 | a key's group is empty exactly when no existing slice has that key |
| Grouping.FirstHeadsGroup | pkg/controller/endpointslicemirroring/reconciler.go:256-263 | the first slice of a key heads that key's group |
| Grouping.LaterInGroupTail | pkg/controller/endpointslicemirroring/reconciler.go:256-263 | a slice that is not its key's first is in the tail of the group |
| Grouping.GroupTailNotFirst | pkg/controller/endpointslicemirroring/reconciler.go:256-263 | every slice in a group's tail is, at some position, not the first of its key |
| Changes.Matches | pkg/controller/endpointslicemirroring/reconciler.go:269-278 | matches never exceed the endpoints of the slice |
| Changes.Mismatches | pkg/controller/endpointslicemirroring/reconciler.go:279-283 | updates never exceed matches |
| Changes.TotalChanges | pkg/controller/endpointslicemirroring/reconciler.go:267-291 | the counter loop returns ChangesFor; removed plus matches is the slice size, updated is at most matches, added is the desired size minus matches |
| Changes.MatchesAll | pkg/controller/endpointslicemirroring/reconciler.go:271-276 | nothing is removed exactly when every endpoint of the slice is desired |
| Changes.NoMismatches | pkg/controller/endpointslicemirroring/reconciler.go:279-283 | nothing is updated exactly when every matched endpoint equals its desired version |
| Changes.SameEndpoint | pkg/controller/endpointslicemirroring/reconciler.go:281 | equal hashes and equality beyond the hash give the same endpoint |
| Changes.InSyncByCount | pkg/controller/endpointslicemirroring/reconciler.go:159-163 | distinct desired endpoints, as many as desired, are exactly the desired ones |
| Changes.NoChangesIffInSync | pkg/controller/endpointslicemirroring/reconciler.go:159-163 | for a slice without duplicate hashes, the no-op path fires exactly when the slice already holds the desired endpoints |
| Changes.MatchedHashes | pkg/controller/endpointslicemirroring/reconciler.go:269-278 | without duplicate hashes, matches count the hashes shared with the desired set |
| Changes.AddedNonNegative | pkg/controller/endpointslicemirroring/reconciler.go:289 | without duplicate hashes, added lies between zero and the desired size |
| Changes.DuplicateHashesSkewCounts | pkg/controller/endpointslicemirroring/reconciler.go:289 | with a duplicated endpoint, a slice looks unchanged against a larger desired set, and added can be negative |
| Changes.PlannedSliceIsStable | pkg/controller/endpointslicemirroring/reconciler.go:159-175 | a slice filled from the desired set under the cap diffs to no changes against it |
| Changes.OverCapNeverStable | pkg/controller/endpointslicemirroring/reconciler.go:172-175 | past the cap, the filled slice always has endpoints to add |
| Reconciler.EndpointCount | pkg/controller/endpointslicemirroring/reconciler.go:146-148 | the total endpoint count bounds each slice's size |
| Reconciler.RemovedTotal | pkg/controller/endpointslicemirroring/reconciler.go:146-148 | the removal loop adds up every existing slice's endpoints |
| Reconciler.DrainStep | pkg/controller/endpointslicemirroring/reconciler.go:173-174 | moving one popped endpoint into the slice keeps the slice distinct, exact and disjoint from what is left |
| Reconciler.FillSlice | pkg/controller/endpointslicemirroring/reconciler.go:171-175 | the fill loop keeps every other field, takes min(set size, cap) distinct desired endpoints and removes exactly those from the set |
| Reconciler.ReconcileByPortMapping | pkg/controller/endpointslicemirroring/reconciler.go:132-184 | meets KeyPlan: the totals; all slices deleted when nothing is desired, else all but the first; no write when in sync; otherwise one slice with the first slice's name (update) or none (create), the key's ports, and the drained endpoints |
| Plan.CountStep | pkg/controller/endpointslicemirroring/reconciler.go:100-101 | one more key adds its totals and deletions to the pass's |
| Plan.WritesFrame | pkg/controller/endpointslicemirroring/reconciler.go:100 | planning a key not yet walked changes nothing planned for the keys walked |
| Plan.WriteStep | pkg/controller/endpointslicemirroring/reconciler.go:97-100 | one more key adds its written slice, if any, to the creates or updates |
| Plan.PlanStep | pkg/controller/endpointslicemirroring/reconciler.go:95-101 | appending one key's plan extends PlannedKeys by that key |
| Plan.EnumeratesStep | pkg/controller/endpointslicemirroring/reconciler.go:95 | adding a new key to the walk keeps it a walk over each key once |
| Plan.PlanKey | pkg/controller/endpointslicemirroring/reconciler.go:95-101 | plans one key, draining only that key's set; a written slice carries the ports recorded for its key |
| Plan.PlanKeys | pkg/controller/endpointslicemirroring/reconciler.go:95-107 | walks every desired key once, in the order it returns, and builds PlannedKeys for that order; every planned slice carries the ports recorded for its key |
| Plan.PortsPlannedStep | pkg/controller/endpointslicemirroring/reconciler.go:95-101 | planning one more key with its recorded ports keeps every planned slice's ports those recorded for its key |
| Plan.MarkForDeletion | pkg/controller/endpointslicemirroring/reconciler.go:114-116 | appends every slice of a group to the deletions, in order |
| Plan.VisitKey | pkg/controller/endpointslicemirroring/reconciler.go:111-117 | visiting one existing key appends all its slices to the deletions when it is not desired, and nothing when it is |
| Plan.PlanOrphans | pkg/controller/endpointslicemirroring/reconciler.go:111-117 | walks every existing key not desired once and appends all its slices; whatever the order, the deletions it appends are, with multiplicity, exactly the existing slices whose key is not desired |
| Plan.Unwanted | pkg/controller/endpointslicemirroring/reconciler.go:111-117 | the existing slices whose key is not desired: all of them and nothing else |
| Plan.OrphansSnoc | pkg/controller/endpointslicemirroring/reconciler.go:111-117 | one more existing slice joins the orphans exactly when the walk visits its key |
| Plan.OrphansAreUnwanted | pkg/controller/endpointslicemirroring/reconciler.go:111-117 | the orphans of a walk over each undesired key once are, as a multiset, the existing slices whose key is not desired |
| Plan.ComputePlan | pkg/controller/endpointslicemirroring/reconciler.go:50-117 | the plan of a pass satisfies IsPlan: the warnings, each desired key's plan in the walk order, then every slice of every orphaned key; only existing slices are ever deleted; each planned slice carries the ports PortsOf records for its key |
| Plan.PlanDeletes | pkg/controller/endpointslicemirroring/reconciler.go:95-101 | the deletions of the desired keys are existing slices |
| Plan.Reconcile | pkg/controller/endpointslicemirroring/reconciler.go:49-126 | plans as IsPlan says, with the ports PortsOf records, then applies the recycled plan as ApplySpec says |
| PlanProperties.OrphansContain | pkg/controller/endpointslicemirroring/reconciler.go:111-117 | every slice of every orphaned key walked is deleted |
| PlanProperties.OrphansFrom | pkg/controller/endpointslicemirroring/reconciler.go:111-117 | every orphan deleted belongs to an orphaned key walked |
| PlanProperties.DeletesContain | pkg/controller/endpointslicemirroring/reconciler.go:95-101 | each desired key's deletions are among the pass's deletions |
| PlanProperties.DeletesFrom | pkg/controller/endpointslicemirroring/reconciler.go:95-101 | each deletion of the desired keys is a deletion planned for its own key |
| PlanProperties.DeletesAllButFirst | pkg/controller/endpointslicemirroring/reconciler.go:111-117 | an existing slice is deleted when its key is no longer desired, desires nothing, or it is not its key's first slice |
| PlanProperties.FirstNotInTail | pkg/controller/endpointslicemirroring/reconciler.go:157 | among distinct slices, a key's first slice heads its group and is not in the tail that gets deleted |
| PlanProperties.KeepsFirst | pkg/controller/endpointslicemirroring/reconciler.go:155-163 | among distinct slices, the first slice of a key still desired with endpoints is never deleted |
| PlanProperties.WritesCount | pkg/controller/endpointslicemirroring/reconciler.go:177-181 | over a walk of distinct keys, creates plus updates equal the planned keys walked |
| PlanProperties.WritesFromPlanned | pkg/controller/endpointslicemirroring/reconciler.go:177-181 | every create is a nameless planned slice and every update a named one |
| PlanProperties.WritesPerKey | pkg/controller/endpointslicemirroring/reconciler.go:177-181 | the writes of a walk are one slice per planned key |
| PlanProperties.WritesPlanned | pkg/controller/endpointslicemirroring/reconciler.go:95-101 | a pass creates or updates exactly one slice per key that needs a write |
| PlanProperties.WrittenIsStable | pkg/controller/endpointslicemirroring/reconciler.go:159-181 | the planned slice, as its key's only slice, needs no rewrite exactly when the key's endpoints fit under the cap |
| PlanProperties.PlannedIsStable | pkg/controller/endpointslicemirroring/reconciler.go:152-181 | stability of a pass, per key: no rewrite on the next pass exactly when the desired endpoints fit under the cap |
| PlanProperties.PlannedPorts | pkg/controller/endpointslicemirroring/reconciler.go:96-97 | a planned slice has its key and the ports recorded for it |
| PlanProperties.WrittenPorts | pkg/controller/endpointslicemirroring/reconciler.go:49-101 | every created or updated slice carries the ports of the last subset whose ports give its key |
| PlanProperties.PlannedSize | pkg/controller/endpointslicemirroring/reconciler.go:171-175 | a planned slice has its key, which is desired, and min(desired size, cap) endpoints |
| PlanProperties.WrittenWithinCap | pkg/controller/endpointslicemirroring/reconciler.go:171-181 | every created or updated slice holds min(desired size, cap) endpoints of a desired key: never more than a positive cap, none when the cap is not positive |
| PlanProperties.SettledKey | pkg/controller/endpointslicemirroring/reconciler.go:152-163 | once each desired key has a single slice holding what the pass wrote or kept, a key whose endpoints fit under the cap needs no write, no delete and counts no change |
| PlanProperties.NothingPlanned | pkg/controller/endpointslicemirroring/reconciler.go:95-101 | keys none of which deletes or counts a change add up to no deletes and no change |
| PlanProperties.SecondPassPlansNothing | pkg/controller/endpointslicemirroring/reconciler.go:49-117 | when every desired key fits under the cap, a second pass over the slices the first leaves plans no create, update or delete and counts no change |
| Recycling.OfFamily | pkg/controller/endpointslicemirroring/reconciler.go:191 | the slices of one family, taken from the list |
| Recycling.FamiliesPartition | pkg/controller/endpointslicemirroring/reconciler.go:191 | splitting deletions by family loses and invents none |
| Recycling.RecycleCreates | pkg/controller/endpointslicemirroring/reconciler.go:188-191 | each create either stays (no deletion of its family left) or becomes an update adopting one; the counts add up |
| Recycling.Recycle | pkg/controller/endpointslicemirroring/reconciler.go:188-191 | nothing changes without both creates and deletes; one update replaces each create-and-delete pair |
| Recycling.RecycleAppendsUpdates | pkg/controller/endpointslicemirroring/reconciler.go:188-191 | the planned updates stay in front, and each added update is a create that adopted a deletion of its own family |
| Recycling.RecycleSeparatesFamilies | pkg/controller/endpointslicemirroring/reconciler.go:188-191 | no create or deletion is invented, and no remaining create shares a family with a remaining deletion |
| Recycling.CreateAndDeleteBecomeUpdate | pkg/controller/endpointslicemirroring/reconciler.go:188-191 | one create and one delete of a family become one update with the deleted slice's name |
| Recycling.DifferentFamiliesKept | pkg/controller/endpointslicemirroring/reconciler.go:188-191 | a create and a delete of different families are both kept |
| Apply.EndpointSliceTracker.constructor | pkg/controller/endpointslicemirroring/reconciler.go:41 | a new tracker tracks nothing |
| Apply.EndpointSliceTracker.Update | pkg/controller/endpointslicemirroring/reconciler.go:208-219 | records or refreshes the version of the written slice, by name |
| Apply.EndpointSliceTracker.Delete | pkg/controller/endpointslicemirroring/reconciler.go:229 | stops tracking the deleted slice's name |
| Apply.Creates | pkg/controller/endpointslicemirroring/reconciler.go:199-211 | each create is sent; no error exactly when none failed; each written slice is tracked |
| Apply.Updates | pkg/controller/endpointslicemirroring/reconciler.go:214-222 | each update is sent; no error exactly when none failed; each written slice is tracked |
| Apply.Deletes | pkg/controller/endpointslicemirroring/reconciler.go:224-232 | each delete is sent; no error exactly when none failed; a deleted name is untracked; other names keep their versions |
| Apply.FirstTerminating | pkg/controller/endpointslicemirroring/reconciler.go:203-205 | finds the first create refused for a terminating namespace, if any |
| Apply.CreateAll | pkg/controller/endpointslicemirroring/reconciler.go:198-212 | the create loop stops exactly at the first terminating refusal; otherwise it ends as Creates says |
| Apply.UpdateAll | pkg/controller/endpointslicemirroring/reconciler.go:214-222 | the update loop ends as Updates says |
| Apply.DeleteAll | pkg/controller/endpointslicemirroring/reconciler.go:224-232 | the delete loop ends as Deletes says |
| Apply.Finalize | pkg/controller/endpointslicemirroring/reconciler.go:187-235 | the calls, the aggregate error and the tracker are those ApplySpec gives for the recycled plan |
| Apply.NoCreateWhileDeleting | pkg/controller/endpointslicemirroring/reconciler.go:198 | no create is sent while the Endpoints is being deleted |
| Apply.TerminatingCreateStopsEverything | pkg/controller/endpointslicemirroring/reconciler.go:203-205 | a terminating refusal ends the pass with no error, after sending only the creates up to it |
| Apply.EveryItemAttempted | pkg/controller/endpointslicemirroring/reconciler.go:193-232 | otherwise every create (unless deleting), update and delete is sent, in that order |
| Apply.ErrorIffSomeFailure | pkg/controller/endpointslicemirroring/reconciler.go:234 | the aggregate error is absent exactly when every call sent succeeded |
| Apply.TrackerFollowsWrites | pkg/controller/endpointslicemirroring/reconciler.go:208-229 | afterwards a successfully deleted name is untracked, and a successfully written one is tracked unless then deleted |
| Apply.DeleteFailures | pkg/controller/endpointslicemirroring/reconciler.go:242-247 | the failures collected are none exactly when every delete succeeded |
| Apply.FirstFailureIsEarliest | pkg/controller/endpointslicemirroring/reconciler.go:249 | the failure reported first is that of the earliest failing delete |
| Apply.DeleteEndpoints | pkg/controller/endpointslicemirroring/reconciler.go:239-252 | every slice's delete is sent whatever came before; an error exactly when one failed, reporting the failure count, the total and the first failure |

## Left out

- Metrics (`EndpointPortCache`, the added/updated/removed observations, the per-operation counters) and the metrics cache are observability sinks with floating point and are not modelled.
- Log lines and the text of error messages are not modelled. An error keeps only its kind, its counts and its first cause.
- The store client is an oracle `Store` that answers each create, update and delete. Calls are recorded as a sequence. Contexts, namespaces of the client and retries are not modelled.
- The event recorder is modelled as the returned sequence of warning events.
- IP validation is a parameter (`Validator`). Its internals are not part of this model.
- Endpoint hashing is a field projection (`HashOf`). The real hash function is not part of this model.
- `newAddrTypePortMapKey` is modelled as the set of ports plus the family. Its real encoding is not part of this model.
- `recycleSlices` lives in another file of the package. `Recycle` is a stand-in that pairs creates with deletes of the same address family. Leftover deletions are kept IPv4 first.
- EndpointSets.EndpointSet.Insert: keeps the first endpoint seen for a hash. The helper lives in another file of the package and is modelled by that behaviour only.
- The tracker is keyed by slice name and records resource versions. Its other bookkeeping is not part of this model.
- `maxEndpointsPerSubset` is an `int32` in the source. The model uses an unbounded integer, because only comparisons against it occur.
- PlanProperties.KeepsFirst: assumes the existing slices are pairwise distinct (slice names are unique in a namespace). Without that, an equal later copy is deleted by value.
- Concurrency and the shared caches between passes are not modelled.
- PlanProperties.SecondPassPlansNothing: takes the slices the second pass sees as a hypothesis (`Settled`): one slice per desired key, holding what the first pass wrote or kept, and nothing else. The apply phase is not composed into it, because the store is an oracle whose answers may fail.
