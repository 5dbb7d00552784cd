/**
 * The whole reconcile pass: the desired state of every subset, the plan of
 * every desired key in the order the map of sets is walked, the deletion of
 * the slices of keys no longer desired, and the application of the plan.
 */
module Plan {
  import opened Discovery
  import opened EndpointSets
  import opened DesiredState
  import opened Changes
  import opened Grouping
  import opened Recycling
  import opened Apply
  import opened Reconciler
  import opened Collection

  // ---------------------------------------------------------------------
  // The plan as a value, for a given order of the keys
  // ---------------------------------------------------------------------

  /** `order` lists every key of `keys` exactly once. */
  ghost predicate Enumerates(order: seq<PortMapKey>, keys: set<PortMapKey>) {
    (forall i, j | 0 <= i < j < |order| :: order[i] != order[j]) &&
    (forall k | k in order :: k in keys) &&
    (forall k | k in keys :: k in order)
  }

  /** The totals of the keys `order`, added up in that order. */
  function PlanTotals(existing: seq<EndpointSlice>, desired: Desired, order: seq<PortMapKey>): TotalsByAction
    requires forall k | k in order :: k in desired
    decreases |order|
  {
    if order == [] then NoChanges
    else
      var k := order[|order| - 1];
      AddTotals(PlanTotals(existing, desired, order[..|order| - 1]), KeyTotals(Group(existing, k), desired[k]))
  }

  /** The deletions of the desired keys `order`, concatenated in that order. */
  function PlanDeletes(existing: seq<EndpointSlice>, desired: Desired, order: seq<PortMapKey>): (r: seq<EndpointSlice>)
    requires forall k | k in order :: k in desired
    ensures forall s | s in r :: s in existing
    decreases |order|
  {
    if order == [] then []
    else
      var k := order[|order| - 1];
      var g := Group(existing, k);
      assert forall s | s in KeyDeletes(g, desired[k]) :: s in g;
      PlanDeletes(existing, desired, order[..|order| - 1]) + KeyDeletes(g, desired[k])
  }

  /** Every existing slice of the keys `order`, key after key. */
  function Orphans(existing: seq<EndpointSlice>, order: seq<PortMapKey>): seq<EndpointSlice>
    decreases |order|
  {
    if order == [] then []
    else Orphans(existing, order[..|order| - 1]) + Group(existing, order[|order| - 1])
  }

  /** The planned slices of the keys `order` that are created (they have no name yet). */
  function PlanCreates(planned: map<PortMapKey, EndpointSlice>, order: seq<PortMapKey>): seq<EndpointSlice>
    decreases |order|
  {
    if order == [] then []
    else
      var k := order[|order| - 1];
      PlanCreates(planned, order[..|order| - 1]) + (if k in planned && planned[k].name == "" then [planned[k]] else [])
  }

  /** The planned slices of the keys `order` that are updates (they reuse a name). */
  function PlanUpdates(planned: map<PortMapKey, EndpointSlice>, order: seq<PortMapKey>): seq<EndpointSlice>
    decreases |order|
  {
    if order == [] then []
    else
      var k := order[|order| - 1];
      PlanUpdates(planned, order[..|order| - 1]) + (if k in planned && planned[k].name != "" then [planned[k]] else [])
  }

  /** The totals and deletions of the desired keys `order`, in that order. */
  ghost predicate PlanCounted(existing: seq<EndpointSlice>, desired: Desired, order: seq<PortMapKey>,
                              toDelete: seq<EndpointSlice>, totals: TotalsByAction) {
    (forall k | k in order :: k in desired) &&
    totals == PlanTotals(existing, desired, order) &&
    toDelete == PlanDeletes(existing, desired, order)
  }

  /**
   * The slices written for the desired keys `order`: a planned slice for
   * exactly the keys that need one written, created or updated in that order.
   */
  ghost predicate PlanWritten(endpoints: Endpoints, existing: seq<EndpointSlice>, desired: Desired, max: int,
                              order: seq<PortMapKey>, planned: map<PortMapKey, EndpointSlice>,
                              toCreate: seq<EndpointSlice>, toUpdate: seq<EndpointSlice>) {
    (forall k | k in order :: k in desired) &&
    toCreate == PlanCreates(planned, order) && toUpdate == PlanUpdates(planned, order) &&
    (forall k | k in planned :: k in order) &&
    (forall k | k in order :: k in planned <==> NeedsWrite(Group(existing, k), desired[k])) &&
    (forall k | k in planned :: WriteFor(planned[k], endpoints, k, Group(existing, k), desired[k], max))
  }

  /** The plan built for the desired keys `order`. */
  ghost predicate PlannedKeys(endpoints: Endpoints, existing: seq<EndpointSlice>, desired: Desired, max: int,
                              order: seq<PortMapKey>, planned: map<PortMapKey, EndpointSlice>,
                              slices: SlicesByAction, totals: TotalsByAction) {
    PlanCounted(existing, desired, order, slices.toDelete, totals) &&
    PlanWritten(endpoints, existing, desired, max, order, planned, slices.toCreate, slices.toUpdate)
  }

  /**
   * What one reconcile pass plans for `endpoints`: the warnings of its
   * subsets, the keys of the desired state walked in the order `keyOrder`,
   * then the keys of the existing slices that are no longer desired walked
   * in the order `orphanOrder`, whose slices are all deleted.
   */
  ghost predicate IsPlan(endpoints: Endpoints, existing: seq<EndpointSlice>, max: int, validate: Validator,
                         slices: SlicesByAction, totals: TotalsByAction, events: seq<Event>,
                         keyOrder: seq<PortMapKey>, orphanOrder: seq<PortMapKey>, planned: map<PortMapKey, EndpointSlice>) {
    var desired := DesiredOf(endpoints.subsets, max, validate);
    events == Events(endpoints.subsets, max, validate) &&
    Enumerates(keyOrder, desired.Keys) &&
    Enumerates(orphanOrder, KeysOf(existing) - desired.Keys) &&
    PlannedKeys(endpoints, existing, desired, max, keyOrder, planned,
                slices.(toDelete := PlanDeletes(existing, desired, keyOrder)), totals) &&
    slices.toDelete == PlanDeletes(existing, desired, keyOrder) + Orphans(existing, orphanOrder)
  }

  // ---------------------------------------------------------------------
  // One step of each walk
  // ---------------------------------------------------------------------

  lemma CountStep(existing: seq<EndpointSlice>, desired: Desired, order: seq<PortMapKey>,
                  toDelete: seq<EndpointSlice>, totals: TotalsByAction, k: PortMapKey,
                  keyDeletes: seq<EndpointSlice>, keyTotals: TotalsByAction)
    requires PlanCounted(existing, desired, order, toDelete, totals) && k in desired
    requires keyTotals == KeyTotals(Group(existing, k), desired[k]) && keyDeletes == KeyDeletes(Group(existing, k), desired[k])
    ensures PlanCounted(existing, desired, order + [k], toDelete + keyDeletes, AddTotals(totals, keyTotals))
  {
    assert (order + [k])[..|order|] == order;
  }

  lemma WriteUnfold(planned: map<PortMapKey, EndpointSlice>, order: seq<PortMapKey>, k: PortMapKey)
    ensures PlanCreates(planned, order + [k]) == PlanCreates(planned, order) + (if k in planned && planned[k].name == "" then [planned[k]] else [])
    ensures PlanUpdates(planned, order + [k]) == PlanUpdates(planned, order) + (if k in planned && planned[k].name != "" then [planned[k]] else [])
  {
    assert (order + [k])[..|order|] == order;
  }

  /** A slice planned for a key outside `order` changes nothing planned for `order`. */
  lemma {:induction false} WritesFrame(planned: map<PortMapKey, EndpointSlice>, order: seq<PortMapKey>, k: PortMapKey, s: EndpointSlice)
    requires k !in order
    ensures PlanCreates(planned[k := s], order) == PlanCreates(planned, order)
    ensures PlanUpdates(planned[k := s], order) == PlanUpdates(planned, order)
    decreases |order|
  {
    if order != [] {
      var n := |order| - 1;
      assert order[n] in order;
      assert forall x | x in order[..n] :: x in order;
      WritesFrame(planned, order[..n], k, s);
    }
  }

  /** Appending the slice written for one more desired key extends the slices written so far. */
  lemma WriteStep(endpoints: Endpoints, existing: seq<EndpointSlice>, desired: Desired, max: int,
                  order: seq<PortMapKey>, planned: map<PortMapKey, EndpointSlice>,
                  toCreate: seq<EndpointSlice>, toUpdate: seq<EndpointSlice>,
                  k: PortMapKey, ports: seq<EndpointPort>, pmSlices: SlicesByAction, pmTotals: TotalsByAction)
    requires PlanWritten(endpoints, existing, desired, max, order, planned, toCreate, toUpdate)
    requires k in desired && k !in order && k == NewAddrTypePortMapKey(ports, k.addressType)
    requires KeyPlan(endpoints, ports, k.addressType, Group(existing, k), desired[k], max, pmSlices, pmTotals)
    ensures var planned' := if NeedsWrite(Group(existing, k), desired[k]) then planned[k := WrittenSlice(pmSlices)] else planned;
      PlanWritten(endpoints, existing, desired, max, order + [k], planned', toCreate + pmSlices.toCreate, toUpdate + pmSlices.toUpdate)
  {
    var g := Group(existing, k);
    assert k !in planned;
    if NeedsWrite(g, desired[k]) {
      var planned' := planned[k := WrittenSlice(pmSlices)];
      WriteUnfold(planned', order, k);
      WritesFrame(planned, order, k, WrittenSlice(pmSlices));
      if pmSlices.toCreate != [] {
        assert pmSlices.toCreate == [WrittenSlice(pmSlices)] && pmSlices.toUpdate == [];
      } else {
        assert pmSlices.toUpdate == [WrittenSlice(pmSlices)];
      }
    } else {
      WriteUnfold(planned, order, k);
    }
  }

  /** Appending the plan of one more desired key extends the plan of the keys walked so far. */
  lemma PlanStep(endpoints: Endpoints, existing: seq<EndpointSlice>, desired: Desired, max: int,
                 order: seq<PortMapKey>, planned: map<PortMapKey, EndpointSlice>,
                 slices: SlicesByAction, totals: TotalsByAction,
                 k: PortMapKey, ports: seq<EndpointPort>, pmSlices: SlicesByAction, pmTotals: TotalsByAction)
    requires PlannedKeys(endpoints, existing, desired, max, order, planned, slices, totals)
    requires k in desired && k !in order && k == NewAddrTypePortMapKey(ports, k.addressType)
    requires KeyPlan(endpoints, ports, k.addressType, Group(existing, k), desired[k], max, pmSlices, pmTotals)
    ensures var planned' := if NeedsWrite(Group(existing, k), desired[k]) then planned[k := WrittenSlice(pmSlices)] else planned;
      PlannedKeys(endpoints, existing, desired, max, order + [k], planned',
                  AppendSlices(slices, pmSlices), AddTotals(totals, pmTotals))
  {
    CountStep(existing, desired, order, slices.toDelete, totals, k, pmSlices.toDelete, pmTotals);
    WriteStep(endpoints, existing, desired, max, order, planned, slices.toCreate, slices.toUpdate, k, ports, pmSlices, pmTotals);
  }

  lemma OrphanStep(existing: seq<EndpointSlice>, order: seq<PortMapKey>, k: PortMapKey)
    ensures Orphans(existing, order + [k]) == Orphans(existing, order) + Group(existing, k)
  {
    assert (order + [k])[..|order|] == order;
  }

  lemma EnumeratesStep(order: seq<PortMapKey>, keys: set<PortMapKey>, k: PortMapKey)
    requires Enumerates(order, keys) && k !in keys
    ensures Enumerates(order + [k], keys + {k})
  {
  }

  // ---------------------------------------------------------------------
  // The orphans, whatever the order of the walk
  // ---------------------------------------------------------------------

  /** The existing slices whose key is not among `desiredKeys`, in input order. */
  function Unwanted(existing: seq<EndpointSlice>, desiredKeys: set<PortMapKey>): (r: seq<EndpointSlice>)
    ensures forall s | s in r :: s in existing && KeyOf(s) !in desiredKeys
    ensures forall s | s in existing && KeyOf(s) !in desiredKeys :: s in r
    decreases |existing|
  {
    if existing == [] then []
    else
      var n := |existing| - 1;
      assert existing == existing[..n] + [existing[n]];
      Unwanted(existing[..n], desiredKeys) + (if KeyOf(existing[n]) !in desiredKeys then [existing[n]] else [])
  }

  lemma {:induction false} OrphansOfNone(order: seq<PortMapKey>)
    ensures Orphans([], order) == []
    decreases |order|
  {
    if order != [] {
      OrphansOfNone(order[..|order| - 1]);
    }
  }

  lemma OrphansUnfold(existing: seq<EndpointSlice>, order: seq<PortMapKey>)
    requires order != []
    ensures multiset(Orphans(existing, order)) ==
      multiset(Orphans(existing, order[..|order| - 1])) + multiset(Group(existing, order[|order| - 1]))
  {
  }

  lemma SnocMember<T>(order: seq<T>, x: T)
    requires order != []
    ensures x in order <==> x in order[..|order| - 1] || x == order[|order| - 1]
  {
    assert order == order[..|order| - 1] + [order[|order| - 1]];
  }

  /** One more existing slice adds itself to the orphans exactly when the walk visits its key. */
  lemma {:induction false} OrphansSnoc(existing: seq<EndpointSlice>, s: EndpointSlice, order: seq<PortMapKey>)
    requires forall i, j | 0 <= i < j < |order| :: order[i] != order[j]
    ensures multiset(Orphans(existing + [s], order)) ==
      multiset(Orphans(existing, order)) + (if KeyOf(s) in order then multiset{s} else multiset{})
    decreases |order|
  {
    if order != [] {
      var n := |order| - 1;
      var k := order[n];
      var prefix := order[..n];
      OrphansSnoc(existing, s, prefix);
      OrphansUnfold(existing + [s], order);
      OrphansUnfold(existing, order);
      GroupSnocCount(existing, s, k);
      SnocMember(order, KeyOf(s));
      AddOnce(multiset(Orphans(existing + [s], prefix)), multiset(Group(existing + [s], k)),
              multiset(Orphans(existing, prefix)), multiset(Group(existing, k)),
              s, KeyOf(s) in prefix, KeyOf(s) == k);
    }
  }

  lemma GroupSnocCount(existing: seq<EndpointSlice>, s: EndpointSlice, k: PortMapKey)
    ensures multiset(Group(existing + [s], k)) == multiset(Group(existing, k)) + (if KeyOf(s) == k then multiset{s} else multiset{})
  {
    GroupSnoc(existing, s, k);
  }

  lemma AddOnce<T>(a': multiset<T>, g': multiset<T>, a: multiset<T>, g: multiset<T>, s: T, inA: bool, inG: bool)
    requires a' == a + (if inA then multiset{s} else multiset{})
    requires g' == g + (if inG then multiset{s} else multiset{})
    requires !(inA && inG)
    ensures a' + g' == a + g + (if inA || inG then multiset{s} else multiset{})
  {
  }

  /**
   * Walking the keys `order` deletes, with multiplicity, exactly the
   * existing slices whose key is not desired, when `order` lists each
   * key of the existing slices that is not desired once.
   */
  lemma {:induction false} OrphansAreUnwanted(existing: seq<EndpointSlice>, order: seq<PortMapKey>, desiredKeys: set<PortMapKey>)
    requires forall i, j | 0 <= i < j < |order| :: order[i] != order[j]
    requires forall s | s in existing :: KeyOf(s) in order <==> KeyOf(s) !in desiredKeys
    ensures multiset(Orphans(existing, order)) == multiset(Unwanted(existing, desiredKeys))
    decreases |existing|
  {
    if existing == [] {
      OrphansOfNone(order);
    } else {
      var n := |existing| - 1;
      var s := existing[n];
      assert existing == existing[..n] + [s];
      OrphansAreUnwanted(existing[..n], order, desiredKeys);
      OrphansSnoc(existing[..n], s, order);
    }
  }

  // ---------------------------------------------------------------------
  // The three phases of a pass
  // ---------------------------------------------------------------------

  /** The sets of the keys `remaining` are still in `repr`, valid, distinct and hold what `desired` records. */
  ghost predicate SetsLeft(sets: map<PortMapKey, EndpointSet>, desired: Desired, remaining: set<PortMapKey>, repr: set<EndpointSet>)
    reads repr
  {
    remaining <= sets.Keys &&
    (forall k | k in remaining :: sets[k] in repr && sets[k].Valid() && k in desired && sets[k].items == desired[k]) &&
    (forall k, k' | k in remaining && k' in remaining && k != k' :: sets[k] != sets[k'])
  }

  /** Every planned slice carries the ports recorded for its key. */
  ghost predicate PortsPlanned(planned: map<PortMapKey, EndpointSlice>, portsByKey: map<PortMapKey, seq<EndpointPort>>) {
    forall k | k in planned :: k in portsByKey && planned[k].ports == portsByKey[k]
  }

  lemma PortsPlannedStep(planned: map<PortMapKey, EndpointSlice>, portsByKey: map<PortMapKey, seq<EndpointPort>>,
                         k: PortMapKey, s: EndpointSlice)
    requires PortsPlanned(planned, portsByKey) && k in portsByKey && s.ports == portsByKey[k]
    ensures PortsPlanned(planned[k := s], portsByKey)
  {
  }

  /** The existing slices grouped by key, as the grouping phase returns them. */
  ghost predicate GroupedBy(existingByKey: map<PortMapKey, seq<EndpointSlice>>, existing: seq<EndpointSlice>) {
    existingByKey.Keys == KeysOf(existing) &&
    forall k | k in existingByKey :: existingByKey[k] == Group(existing, k)
  }

  /** Plans key `portKey`, draining its set, and appends that plan to the plan of the keys `order`. */
  method PlanKey(endpoints: Endpoints, existing: seq<EndpointSlice>, existingByKey: map<PortMapKey, seq<EndpointSlice>>,
                 portKey: PortMapKey, desiredSet: EndpointSet, ports: seq<EndpointPort>, max: int,
                 ghost sets: map<PortMapKey, EndpointSet>, ghost desired: Desired, ghost remaining: set<PortMapKey>,
                 ghost repr: set<EndpointSet>, ghost portsByKey: map<PortMapKey, seq<EndpointPort>>,
                 slices: SlicesByAction, totals: TotalsByAction,
                 ghost order: seq<PortMapKey>, ghost planned: map<PortMapKey, EndpointSlice>)
    returns (slices': SlicesByAction, totals': TotalsByAction, ghost planned': map<PortMapKey, EndpointSlice>)
    requires GroupedBy(existingByKey, existing)
    requires SetsLeft(sets, desired, remaining, repr) && portKey in remaining && sets[portKey] == desiredSet
    requires portKey == NewAddrTypePortMapKey(ports, portKey.addressType) && portKey !in order
    requires PlannedKeys(endpoints, existing, desired, max, order, planned, slices, totals)
    requires PortsPlanned(planned, portsByKey) && portKey in portsByKey && portsByKey[portKey] == ports
    modifies desiredSet
    ensures SetsLeft(sets, desired, remaining - {portKey}, repr)
    ensures PlannedKeys(endpoints, existing, desired, max, order + [portKey], planned', slices', totals')
    ensures PortsPlanned(planned', portsByKey)
  {
    var group := if portKey in existingByKey then existingByKey[portKey] else [];
    GroupEmpty(existing, portKey);
    var pmSlices, pmTotals := ReconcileByPortMapping(endpoints, group, desiredSet, ports, portKey.addressType, max);
    PlanStep(endpoints, existing, desired, max, order, planned, slices, totals, portKey, ports, pmSlices, pmTotals);
    planned' := planned;
    if NeedsWrite(group, desired[portKey]) {
      PortsPlannedStep(planned, portsByKey, portKey, WrittenSlice(pmSlices));
      planned' := planned[portKey := WrittenSlice(pmSlices)];
    }
    slices' := AppendSlices(slices, pmSlices);
    totals' := AddTotals(totals, pmTotals);
  }

  /**
   * Plans every key of the calculator, in an order of its own choosing,
   * draining each key's set into that key's planned slice.
   */
  method PlanKeys(endpoints: Endpoints, existing: seq<EndpointSlice>, existingByKey: map<PortMapKey, seq<EndpointSlice>>,
                  d: DesiredCalc, max: int)
    returns (slices: SlicesByAction, totals: TotalsByAction,
             ghost keyOrder: seq<PortMapKey>, ghost planned: map<PortMapKey, EndpointSlice>)
    requires d.Valid() && GroupedBy(existingByKey, existing)
    modifies d.Repr
    ensures Enumerates(keyOrder, old(d.desired).Keys)
    ensures PlannedKeys(endpoints, existing, old(d.desired), max, keyOrder, planned, slices, totals)
    ensures PortsPlanned(planned, old(d.portsByKey))
  {
    ghost var desired, repr := d.desired, d.Repr;
    var sets, portsByKey := d.endpointsByKey, d.portsByKey;
    slices, totals := NoSlices, NoChanges;
    keyOrder, planned := [], map[];
    var remaining := sets.Keys;
    while remaining != {}
      invariant SetsLeft(sets, desired, remaining, repr)
      invariant Enumerates(keyOrder, desired.Keys - remaining)
      invariant PlannedKeys(endpoints, existing, desired, max, keyOrder, planned, slices, totals)
      invariant PortsPlanned(planned, portsByKey)
      decreases |remaining|
    {
      var portKey :| portKey in remaining;
      slices, totals, planned := PlanKey(endpoints, existing, existingByKey, portKey, sets[portKey], portsByKey[portKey], max,
                                         sets, desired, remaining, repr, portsByKey, slices, totals, keyOrder, planned);
      EnumeratesStep(keyOrder, desired.Keys - remaining, portKey);
      keyOrder := keyOrder + [portKey];
      remaining := remaining - {portKey};
    }
  }

  /** Appends every slice of `group` to the deletions, in order. */
  method MarkForDeletion(toDelete: seq<EndpointSlice>, group: seq<EndpointSlice>) returns (toDelete': seq<EndpointSlice>)
    ensures toDelete' == toDelete + group
  {
    toDelete' := toDelete;
    var j := 0;
    while j < |group|
      invariant 0 <= j <= |group|
      invariant toDelete' == toDelete + group[..j]
    {
      assert group[..j + 1] == group[..j] + [group[j]];
      toDelete' := toDelete' + [group[j]];
      j := j + 1;
    }
    assert group[..j] == group;
  }

  /**
   * The walk of the existing keys has visited every key but `unvisited`,
   * and the slices of the visited keys that are not desired, key after key
   * in the order `order`, follow the deletions `toDelete` it started from.
   */
  ghost predicate OrphansSoFar(existing: seq<EndpointSlice>, keys: set<PortMapKey>, desiredKeys: set<PortMapKey>,
                               unvisited: set<PortMapKey>, toDelete: seq<EndpointSlice>,
                               toDelete': seq<EndpointSlice>, order: seq<PortMapKey>) {
    unvisited <= keys &&
    Enumerates(order, (keys - unvisited) - desiredKeys) &&
    toDelete' == toDelete + Orphans(existing, order)
  }

  /** Visits existing key `portKey`, deleting all of its slices when it is not desired. */
  method VisitKey(existing: seq<EndpointSlice>, existingByKey: map<PortMapKey, seq<EndpointSlice>>,
                  desiredKeys: set<PortMapKey>, ghost unvisited: set<PortMapKey>, portKey: PortMapKey,
                  ghost toDelete: seq<EndpointSlice>, acc: seq<EndpointSlice>, ghost order: seq<PortMapKey>)
    returns (acc': seq<EndpointSlice>, ghost order': seq<PortMapKey>)
    requires GroupedBy(existingByKey, existing)
    requires OrphansSoFar(existing, existingByKey.Keys, desiredKeys, unvisited, toDelete, acc, order)
    requires portKey in unvisited
    ensures OrphansSoFar(existing, existingByKey.Keys, desiredKeys, unvisited - {portKey}, toDelete, acc', order')
    ensures portKey in desiredKeys ==> acc' == acc
    ensures portKey !in desiredKeys ==> portKey in existingByKey && acc' == acc + existingByKey[portKey]
  {
    ghost var done := (existingByKey.Keys - unvisited) - desiredKeys;
    acc', order' := acc, order;
    if portKey !in desiredKeys {
      ghost var orphans := Orphans(existing, order);
      var group := existingByKey[portKey];
      acc' := MarkForDeletion(acc, group);
      assert acc' == toDelete + (orphans + group);
      OrphanStep(existing, order, portKey);
      EnumeratesStep(order, done, portKey);
      order' := order + [portKey];
      assert (existingByKey.Keys - (unvisited - {portKey})) - desiredKeys == done + {portKey};
    } else {
      assert (existingByKey.Keys - (unvisited - {portKey})) - desiredKeys == done;
    }
  }

  /**
   * Walks the keys of the existing slices, in an order of its own choosing,
   * and appends every slice of each key that is not desired to the deletions.
   */
  method PlanOrphans(existing: seq<EndpointSlice>, existingByKey: map<PortMapKey, seq<EndpointSlice>>,
                     desiredKeys: set<PortMapKey>, toDelete: seq<EndpointSlice>)
    returns (toDelete': seq<EndpointSlice>, ghost orphanOrder: seq<PortMapKey>)
    requires GroupedBy(existingByKey, existing)
    ensures Enumerates(orphanOrder, KeysOf(existing) - desiredKeys)
    ensures toDelete' == toDelete + Orphans(existing, orphanOrder)
    ensures |toDelete| <= |toDelete'| && toDelete'[..|toDelete|] == toDelete
    ensures multiset(toDelete'[|toDelete|..]) == multiset(Unwanted(existing, desiredKeys))
  {
    toDelete', orphanOrder := toDelete, [];
    var unvisited := existingByKey.Keys;
    while unvisited != {}
      invariant OrphansSoFar(existing, existingByKey.Keys, desiredKeys, unvisited, toDelete, toDelete', orphanOrder)
      decreases |unvisited|
    {
      var portKey :| portKey in unvisited;
      toDelete', orphanOrder := VisitKey(existing, existingByKey, desiredKeys, unvisited, portKey, toDelete, toDelete', orphanOrder);
      unvisited := unvisited - {portKey};
    }
    assert existingByKey.Keys - {} == existingByKey.Keys;
    assert toDelete'[|toDelete|..] == Orphans(existing, orphanOrder);
    forall s | s in existing
      ensures KeyOf(s) in orphanOrder <==> KeyOf(s) !in desiredKeys
    {
      assert KeyOf(s) in KeysOf(existing);
    }
    OrphansAreUnwanted(existing, orphanOrder, desiredKeys);
  }

  /** Deletions made of existing slices, followed by the unwanted ones, are all existing slices. */
  lemma DeletionsExist(planned: seq<EndpointSlice>, toDelete: seq<EndpointSlice>,
                       existing: seq<EndpointSlice>, desiredKeys: set<PortMapKey>)
    requires forall s | s in planned :: s in existing
    requires |planned| <= |toDelete| && toDelete[..|planned|] == planned
    requires multiset(toDelete[|planned|..]) == multiset(Unwanted(existing, desiredKeys))
    ensures forall s | s in toDelete :: s in existing
  {
    forall s | s in toDelete
      ensures s in existing
    {
      var i :| 0 <= i < |toDelete| && toDelete[i] == s;
      if i < |planned| {
        assert planned[i] == s;
      } else {
        assert toDelete[|planned|..][i - |planned|] == s;
        assert s in multiset(Unwanted(existing, desiredKeys));
      }
    }
  }

  /**
   * The planning half of a reconcile pass: the desired state, the grouping
   * of the existing slices, the plan of every desired key and the deletion
   * of every slice whose key is no longer desired.
   */
  method ComputePlan(endpoints: Endpoints, existingSlices: seq<EndpointSlice>, max: int, validate: Validator)
    returns (slices: SlicesByAction, totals: TotalsByAction, events: seq<Event>,
             ghost keyOrder: seq<PortMapKey>, ghost orphanOrder: seq<PortMapKey>, ghost planned: map<PortMapKey, EndpointSlice>)
    ensures IsPlan(endpoints, existingSlices, max, validate, slices, totals, events, keyOrder, orphanOrder, planned)
    ensures events == Events(endpoints.subsets, max, validate)
    ensures forall s | s in slices.toDelete :: s in existingSlices
    ensures PortsPlanned(planned, PortsOf(endpoints.subsets))
  {
    var d;
    d, events := CollectDesired(endpoints.subsets, max, validate);
    ghost var desired := d.desired;
    var existingByKey := EndpointSlicesByKey(existingSlices);
    slices, totals, keyOrder, planned := PlanKeys(endpoints, existingSlices, existingByKey, d, max);
    var toDelete;
    toDelete, orphanOrder := PlanOrphans(existingSlices, existingByKey, d.endpointsByKey.Keys, slices.toDelete);
    DeletionsExist(slices.toDelete, toDelete, existingSlices, d.endpointsByKey.Keys);
    assert slices.(toDelete := PlanDeletes(existingSlices, desired, keyOrder)) == slices;
    slices := slices.(toDelete := toDelete);
  }

  /**
   * A reconcile pass: plans the slices of `endpoints`, then applies the plan
   * through the store, keeping the tracker in step with what was written.
   */
  method Reconcile(endpoints: Endpoints, existingSlices: seq<EndpointSlice>, max: int, validate: Validator,
                   store: Store, tracker: EndpointSliceTracker)
    returns (err: Option<seq<FinalizeError>>, calls: seq<StoreCall>, events: seq<Event>,
             ghost slices: SlicesByAction, ghost totals: TotalsByAction,
             ghost keyOrder: seq<PortMapKey>, ghost orphanOrder: seq<PortMapKey>, ghost planned: map<PortMapKey, EndpointSlice>)
    modifies tracker
    ensures IsPlan(endpoints, existingSlices, max, validate, slices, totals, events, keyOrder, orphanOrder, planned)
    ensures PortsPlanned(planned, PortsOf(endpoints.subsets))
    ensures Outcome(err, calls, tracker.generations) ==
      ApplySpec(endpoints.deletionTimestampSet, Recycle(slices), store, old(tracker.generations))
  {
    var plan, sums;
    plan, sums, events, keyOrder, orphanOrder, planned := ComputePlan(endpoints, existingSlices, max, validate);
    slices, totals := plan, sums;
    err, calls := Finalize(endpoints, plan, store, tracker);
  }
}
