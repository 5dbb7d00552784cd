/**
 * What a reconcile pass plans, stated over the existing slices and the
 * desired state: which existing slices it deletes, which slices it writes,
 * and that what it writes is left alone by the next pass.
 */
module PlanProperties {
  import opened Discovery
  import opened DesiredState
  import opened Changes
  import opened Grouping
  import opened Reconciler
  import opened Plan

  // ---------------------------------------------------------------------
  // Membership in the walks
  // ---------------------------------------------------------------------

  /** The slices of every key walked are among the orphans of the walk. */
  lemma {:induction false} OrphansContain(existing: seq<EndpointSlice>, order: seq<PortMapKey>, k: PortMapKey, s: EndpointSlice)
    requires k in order && s in Group(existing, k)
    ensures s in Orphans(existing, order)
    decreases |order|
  {
    var n := |order| - 1;
    if order[n] != k {
      assert k in order[..n] by {
        var i :| 0 <= i < |order| && order[i] == k;
        assert order[..n][i] == k;
      }
      OrphansContain(existing, order[..n], k, s);
    }
  }

  /** Every orphan is a slice of one of the keys walked. */
  lemma {:induction false} OrphansFrom(existing: seq<EndpointSlice>, order: seq<PortMapKey>, s: EndpointSlice)
    requires s in Orphans(existing, order)
    ensures KeyOf(s) in order
    decreases |order|
  {
    var n := |order| - 1;
    if s in Orphans(existing, order[..n]) {
      OrphansFrom(existing, order[..n], s);
      assert KeyOf(s) in order[..n];
    } else {
      assert s in Group(existing, order[n]);
    }
  }

  /** The deletions of every desired key walked are among the deletions of the walk. */
  lemma {:induction false} DeletesContain(existing: seq<EndpointSlice>, desired: Desired, order: seq<PortMapKey>,
                                          k: PortMapKey, s: EndpointSlice)
    requires forall k' | k' in order :: k' in desired
    requires k in order && s in KeyDeletes(Group(existing, k), desired[k])
    ensures s in PlanDeletes(existing, desired, order)
    decreases |order|
  {
    var n := |order| - 1;
    if order[n] != k {
      assert k in order[..n] by {
        var i :| 0 <= i < |order| && order[i] == k;
        assert order[..n][i] == k;
      }
      DeletesContain(existing, desired, order[..n], k, s);
    }
  }

  /** Every deletion of the walk is a deletion planned for one of the keys walked. */
  lemma {:induction false} DeletesFrom(existing: seq<EndpointSlice>, desired: Desired, order: seq<PortMapKey>, s: EndpointSlice)
    requires forall k' | k' in order :: k' in desired
    requires s in PlanDeletes(existing, desired, order)
    ensures KeyOf(s) in order && s in KeyDeletes(Group(existing, KeyOf(s)), desired[KeyOf(s)])
    decreases |order|
  {
    var n := |order| - 1;
    var k := order[n];
    if s in PlanDeletes(existing, desired, order[..n]) {
      DeletesFrom(existing, desired, order[..n], s);
      assert KeyOf(s) in order[..n];
    } else {
      var g := Group(existing, k);
      assert s in KeyDeletes(g, desired[k]);
      assert s in g by {
        if desired[k] != map[] && g != [] {
          assert s in g[1..];
        }
      }
    }
  }

  // ---------------------------------------------------------------------
  // Which existing slices a pass deletes
  // ---------------------------------------------------------------------

  /**
   * An existing slice is kept only when it is the first slice of its key
   * and its key is still desired with at least one endpoint: a pass deletes
   * the slices of keys no longer desired, all slices of keys now empty, and
   * every slice but the first of the others.
   */
  lemma DeletesAllButFirst(endpoints: Endpoints, existing: seq<EndpointSlice>, max: int, validate: Validator,
                           slices: SlicesByAction, totals: TotalsByAction, events: seq<Event>,
                           keyOrder: seq<PortMapKey>, orphanOrder: seq<PortMapKey>, planned: map<PortMapKey, EndpointSlice>,
                           i: int)
    requires IsPlan(endpoints, existing, max, validate, slices, totals, events, keyOrder, orphanOrder, planned)
    requires 0 <= i < |existing|
    ensures var desired := DesiredOf(endpoints.subsets, max, validate);
      var k := KeyOf(existing[i]);
      (k !in desired || desired[k] == map[] || !FirstOfKey(existing, i)) ==> existing[i] in slices.toDelete
  {
    var desired := DesiredOf(endpoints.subsets, max, validate);
    var s := existing[i];
    var k := KeyOf(s);
    var g := Group(existing, k);
    InOwnGroup(existing, s, k);
    if k !in desired {
      assert k in KeysOf(existing) - desired.Keys;
      OrphansContain(existing, orphanOrder, k, s);
    } else if desired[k] == map[] {
      DeletesContain(existing, desired, keyOrder, k, s);
    } else if !FirstOfKey(existing, i) {
      LaterInGroupTail(existing, i);
      DeletesContain(existing, desired, keyOrder, k, s);
    }
  }

  /** No two existing slices are the same object (slice names are unique). */
  ghost predicate Distinct(existing: seq<EndpointSlice>) {
    forall i, j | 0 <= i < j < |existing| :: existing[i] != existing[j]
  }

  /** Among distinct slices, the first slice of a key heads its group and is not in the group's tail. */
  lemma FirstNotInTail(existing: seq<EndpointSlice>, i: int)
    requires Distinct(existing) && 0 <= i < |existing| && FirstOfKey(existing, i)
    ensures var g := Group(existing, KeyOf(existing[i])); g != [] && g[0] == existing[i] && existing[i] !in g[1..]
  {
    FirstHeadsGroup(existing, i);
    var k := KeyOf(existing[i]);
    if existing[i] in Group(existing, k)[1..] {
      GroupTailNotFirst(existing, k, existing[i]);
    }
  }

  /**
   * Among distinct existing slices, the first slice of a key that is still
   * desired with at least one endpoint is never deleted.
   */
  lemma KeepsFirst(endpoints: Endpoints, existing: seq<EndpointSlice>, max: int, validate: Validator,
                   slices: SlicesByAction, totals: TotalsByAction, events: seq<Event>,
                   keyOrder: seq<PortMapKey>, orphanOrder: seq<PortMapKey>, planned: map<PortMapKey, EndpointSlice>,
                   i: int)
    requires IsPlan(endpoints, existing, max, validate, slices, totals, events, keyOrder, orphanOrder, planned)
    requires Distinct(existing) && 0 <= i < |existing|
    ensures var desired := DesiredOf(endpoints.subsets, max, validate);
      var k := KeyOf(existing[i]);
      k in desired && desired[k] != map[] && FirstOfKey(existing, i) ==> existing[i] !in slices.toDelete
  {
    var desired := DesiredOf(endpoints.subsets, max, validate);
    var s := existing[i];
    var k := KeyOf(s);
    if k in desired && desired[k] != map[] && FirstOfKey(existing, i) {
      FirstNotInTail(existing, i);
      if s in PlanDeletes(existing, desired, keyOrder) {
        DeletesFrom(existing, desired, keyOrder, s);
      }
      if s in Orphans(existing, orphanOrder) {
        OrphansFrom(existing, orphanOrder, s);
      }
    }
  }

  // ---------------------------------------------------------------------
  // Which slices a pass writes
  // ---------------------------------------------------------------------

  /** The keys of `order` that have a planned slice. */
  ghost function PlannedIn(planned: map<PortMapKey, EndpointSlice>, order: seq<PortMapKey>): set<PortMapKey> {
    set k | k in order && k in planned
  }

  lemma PlannedInSnoc(planned: map<PortMapKey, EndpointSlice>, order: seq<PortMapKey>)
    requires order != []
    ensures var n := |order| - 1;
      PlannedIn(planned, order) == PlannedIn(planned, order[..n]) + (if order[n] in planned then {order[n]} else {})
  {
    var n := |order| - 1;
    forall x | x in order
      ensures x in order[..n] || x == order[n]
    {
      var j :| 0 <= j < |order| && order[j] == x;
      if j < n {
        assert order[..n][j] == x;
      }
    }
  }

  /** Over a walk of distinct keys, one slice is created or updated per planned key. */
  lemma {:induction false} WritesCount(planned: map<PortMapKey, EndpointSlice>, order: seq<PortMapKey>)
    requires forall i, j | 0 <= i < j < |order| :: order[i] != order[j]
    ensures |PlanCreates(planned, order)| + |PlanUpdates(planned, order)| == |PlannedIn(planned, order)|
    decreases |order|
  {
    if order != [] {
      var n := |order| - 1;
      var prefix := order[..n];
      WritesCount(planned, prefix);
      PlannedInSnoc(planned, order);
      assert order[n] !in prefix by {
        forall j | 0 <= j < n
          ensures prefix[j] != order[n]
        {
          assert prefix[j] == order[j];
        }
      }
    }
  }

  /** Every slice a walk creates is a nameless planned slice, and every slice it updates a named one. */
  lemma {:induction false} WritesFromPlanned(planned: map<PortMapKey, EndpointSlice>, order: seq<PortMapKey>)
    ensures forall s | s in PlanCreates(planned, order) :: s.name == "" && exists k | k in planned :: planned[k] == s
    ensures forall s | s in PlanUpdates(planned, order) :: s.name != "" && exists k | k in planned :: planned[k] == s
    decreases |order|
  {
    if order != [] {
      WritesFromPlanned(planned, order[..|order| - 1]);
    }
  }

  /** The creates and updates of a walk are one slice per planned key. */
  lemma WritesPerKey(endpoints: Endpoints, existing: seq<EndpointSlice>, desired: Desired, max: int,
                     order: seq<PortMapKey>, planned: map<PortMapKey, EndpointSlice>,
                     toCreate: seq<EndpointSlice>, toUpdate: seq<EndpointSlice>)
    requires PlanWritten(endpoints, existing, desired, max, order, planned, toCreate, toUpdate)
    requires forall i, j | 0 <= i < j < |order| :: order[i] != order[j]
    ensures |toCreate| + |toUpdate| == |planned|
    ensures forall s | s in toCreate :: s.name == "" && exists k | k in planned :: planned[k] == s
    ensures forall s | s in toUpdate :: s.name != "" && exists k | k in planned :: planned[k] == s
  {
    WritesCount(planned, order);
    WritesFromPlanned(planned, order);
    assert PlannedIn(planned, order) == planned.Keys;
  }

  /**
   * A pass creates or updates exactly one slice per planned key: the
   * planned slices without a name are created, the others updated.
   */
  lemma WritesPlanned(endpoints: Endpoints, existing: seq<EndpointSlice>, max: int, validate: Validator,
                      slices: SlicesByAction, totals: TotalsByAction, events: seq<Event>,
                      keyOrder: seq<PortMapKey>, orphanOrder: seq<PortMapKey>, planned: map<PortMapKey, EndpointSlice>)
    requires IsPlan(endpoints, existing, max, validate, slices, totals, events, keyOrder, orphanOrder, planned)
    ensures |slices.toCreate| + |slices.toUpdate| == |planned|
    ensures forall s | s in slices.toCreate :: s.name == "" && exists k | k in planned :: planned[k] == s
    ensures forall s | s in slices.toUpdate :: s.name != "" && exists k | k in planned :: planned[k] == s
  {
    var desired := DesiredOf(endpoints.subsets, max, validate);
    assert PlanWritten(endpoints, existing, desired, max, keyOrder, planned, slices.toCreate, slices.toUpdate);
    WritesPerKey(endpoints, existing, desired, max, keyOrder, planned, slices.toCreate, slices.toUpdate);
  }

  /**
   * The slice planned for a key, once it is that key's only slice, needs no
   * write against the same desired endpoints exactly when they fit under the cap.
   */
  lemma WrittenIsStable(endpoints: Endpoints, existing: seq<EndpointSlice>, desired: Desired, max: int,
                        order: seq<PortMapKey>, planned: map<PortMapKey, EndpointSlice>,
                        toCreate: seq<EndpointSlice>, toUpdate: seq<EndpointSlice>, k: PortMapKey)
    requires PlanWritten(endpoints, existing, desired, max, order, planned, toCreate, toUpdate)
    requires k in planned && k in desired && WellKeyed(desired[k])
    ensures !NeedsWrite([planned[k]], desired[k]) <==> |desired[k]| <= max
  {
    var s := planned[k];
    assert NeedsWrite(Group(existing, k), desired[k]);
    assert PlannedFrom(s, desired[k], max);
    if |desired[k]| <= max {
      PlannedSliceIsStable(s, desired[k], max);
    } else {
      OverCapNeverStable(s, desired[k], max);
    }
  }

  /**
   * Idempotence: the slice a pass plans for a key, once written as that
   * key's only slice, needs no write on the next pass over the same
   * desired state exactly when the key's endpoints fit under the cap.
   */
  lemma PlannedIsStable(endpoints: Endpoints, existing: seq<EndpointSlice>, max: int, validate: Validator,
                        slices: SlicesByAction, totals: TotalsByAction, events: seq<Event>,
                        keyOrder: seq<PortMapKey>, orphanOrder: seq<PortMapKey>, planned: map<PortMapKey, EndpointSlice>,
                        k: PortMapKey)
    requires IsPlan(endpoints, existing, max, validate, slices, totals, events, keyOrder, orphanOrder, planned)
    requires k in planned
    ensures var desired := DesiredOf(endpoints.subsets, max, validate);
      k in desired && (!NeedsWrite([planned[k]], desired[k]) <==> |desired[k]| <= max)
  {
    var desired := DesiredOf(endpoints.subsets, max, validate);
    assert PlanWritten(endpoints, existing, desired, max, keyOrder, planned, slices.toCreate, slices.toUpdate);
    DesiredSound(endpoints.subsets, max, validate);
    WrittenIsStable(endpoints, existing, desired, max, keyOrder, planned, slices.toCreate, slices.toUpdate, k);
  }

  /** A planned slice is keyed by the key it is planned for, so it carries the ports recorded for its own key. */
  lemma PlannedPorts(endpoints: Endpoints, existing: seq<EndpointSlice>, desired: Desired, max: int,
                     order: seq<PortMapKey>, planned: map<PortMapKey, EndpointSlice>,
                     toCreate: seq<EndpointSlice>, toUpdate: seq<EndpointSlice>,
                     portsByKey: map<PortMapKey, seq<EndpointPort>>, k: PortMapKey)
    requires PlanWritten(endpoints, existing, desired, max, order, planned, toCreate, toUpdate)
    requires PortsPlanned(planned, portsByKey) && k in planned
    ensures KeyOf(planned[k]) == k && k in portsByKey && planned[k].ports == portsByKey[k]
  {
  }

  /**
   * Every slice a pass writes carries the ports of the last subset whose
   * ports give the slice's key.
   */
  lemma WrittenPorts(endpoints: Endpoints, existing: seq<EndpointSlice>, max: int, validate: Validator,
                     slices: SlicesByAction, totals: TotalsByAction, events: seq<Event>,
                     keyOrder: seq<PortMapKey>, orphanOrder: seq<PortMapKey>, planned: map<PortMapKey, EndpointSlice>)
    requires IsPlan(endpoints, existing, max, validate, slices, totals, events, keyOrder, orphanOrder, planned)
    requires PortsPlanned(planned, PortsOf(endpoints.subsets))
    ensures forall s | s in slices.toCreate || s in slices.toUpdate ::
      exists i | LastToGive(endpoints.subsets, i, KeyOf(s)) :: s.ports == endpoints.subsets[i].ports
  {
    var desired := DesiredOf(endpoints.subsets, max, validate);
    WritesPlanned(endpoints, existing, max, validate, slices, totals, events, keyOrder, orphanOrder, planned);
    assert PlanWritten(endpoints, existing, desired, max, keyOrder, planned, slices.toCreate, slices.toUpdate);
    forall s | s in slices.toCreate || s in slices.toUpdate
      ensures exists i | LastToGive(endpoints.subsets, i, KeyOf(s)) :: s.ports == endpoints.subsets[i].ports
    {
      var k :| k in planned && planned[k] == s;
      PlannedPorts(endpoints, existing, desired, max, keyOrder, planned, slices.toCreate, slices.toUpdate, PortsOf(endpoints.subsets), k);
      PortsOfLast(endpoints.subsets, k);
    }
  }

  // ---------------------------------------------------------------------
  // The size of what is written
  // ---------------------------------------------------------------------

  /**
   * Every slice a pass writes holds the capped number of its key's desired
   * endpoints: never more than a positive cap, and none when the cap is not positive.
   */
  lemma WrittenWithinCap(endpoints: Endpoints, existing: seq<EndpointSlice>, max: int, validate: Validator,
                         slices: SlicesByAction, totals: TotalsByAction, events: seq<Event>,
                         keyOrder: seq<PortMapKey>, orphanOrder: seq<PortMapKey>, planned: map<PortMapKey, EndpointSlice>)
    requires IsPlan(endpoints, existing, max, validate, slices, totals, events, keyOrder, orphanOrder, planned)
    ensures forall s | s in slices.toCreate || s in slices.toUpdate ::
      KeyOf(s) in DesiredOf(endpoints.subsets, max, validate) &&
      |s.endpoints| == Cap(max, |DesiredOf(endpoints.subsets, max, validate)[KeyOf(s)]|) &&
      (max > 0 ==> |s.endpoints| <= max) && (max <= 0 ==> s.endpoints == [])
  {
    var desired := DesiredOf(endpoints.subsets, max, validate);
    WritesPlanned(endpoints, existing, max, validate, slices, totals, events, keyOrder, orphanOrder, planned);
    assert PlanWritten(endpoints, existing, desired, max, keyOrder, planned, slices.toCreate, slices.toUpdate);
    forall s | s in slices.toCreate || s in slices.toUpdate
      ensures KeyOf(s) in desired && |s.endpoints| == Cap(max, |desired[KeyOf(s)]|)
    {
      var k :| k in planned && planned[k] == s;
      PlannedSize(endpoints, existing, desired, max, keyOrder, planned, slices.toCreate, slices.toUpdate, k);
    }
  }

  lemma PlannedSize(endpoints: Endpoints, existing: seq<EndpointSlice>, desired: Desired, max: int,
                    order: seq<PortMapKey>, planned: map<PortMapKey, EndpointSlice>,
                    toCreate: seq<EndpointSlice>, toUpdate: seq<EndpointSlice>, k: PortMapKey)
    requires PlanWritten(endpoints, existing, desired, max, order, planned, toCreate, toUpdate)
    requires k in planned
    ensures KeyOf(planned[k]) == k && k in desired && |planned[k].endpoints| == Cap(max, |desired[k]|)
  {
  }

  // ---------------------------------------------------------------------
  // A second pass
  // ---------------------------------------------------------------------

  /**
   * `next` is what a pass leaves of `existing` once its plan is applied:
   * every key with desired endpoints has exactly one slice, holding the
   * endpoints of the slice planned for the key or, when none was planned,
   * those of the key's first existing slice, and no other key has a slice.
   * Names and versions are whatever the store gave them.
   */
  ghost predicate Settled(next: seq<EndpointSlice>, existing: seq<EndpointSlice>, desired: Desired,
                          planned: map<PortMapKey, EndpointSlice>) {
    (forall s | s in next :: KeyOf(s) in desired && desired[KeyOf(s)] != map[]) &&
    (forall k | k in desired && desired[k] != map[] ::
       |Group(next, k)| == 1 &&
       if k in planned then Group(next, k)[0].endpoints == planned[k].endpoints
       else Group(existing, k) != [] && Group(next, k)[0].endpoints == Group(existing, k)[0].endpoints)
  }

  /**
   * Once settled, a desired key needs no write, deletes nothing and counts
   * no change, provided its desired endpoints fit under the cap.
   */
  lemma SettledKey(endpoints: Endpoints, existing: seq<EndpointSlice>, desired: Desired, max: int,
                   order: seq<PortMapKey>, planned: map<PortMapKey, EndpointSlice>,
                   toCreate: seq<EndpointSlice>, toUpdate: seq<EndpointSlice>,
                   next: seq<EndpointSlice>, k: PortMapKey)
    requires PlanWritten(endpoints, existing, desired, max, order, planned, toCreate, toUpdate)
    requires Settled(next, existing, desired, planned)
    requires k in order && WellKeyed(desired[k]) && |desired[k]| <= max
    ensures !NeedsWrite(Group(next, k), desired[k])
    ensures KeyDeletes(Group(next, k), desired[k]) == []
    ensures KeyTotals(Group(next, k), desired[k]) == NoChanges
  {
    var g := Group(next, k);
    if desired[k] == map[] {
      GroupEmpty(next, k);
      assert k !in KeysOf(next);
      assert EndpointCount(g) == 0;
    } else if k in planned {
      WrittenIsStable(endpoints, existing, desired, max, order, planned, toCreate, toUpdate, k);
      assert g[1..] == [];
    } else {
      assert g[1..] == [];
    }
  }

  /** Keys that each delete nothing and count no change add up to nothing. */
  lemma {:induction false} NothingPlanned(next: seq<EndpointSlice>, desired: Desired, order: seq<PortMapKey>)
    requires forall k | k in order ::
      (k in desired && KeyDeletes(Group(next, k), desired[k]) == [] && KeyTotals(Group(next, k), desired[k]) == NoChanges)
    ensures PlanDeletes(next, desired, order) == [] && PlanTotals(next, desired, order) == NoChanges
    decreases |order|
  {
    if order != [] {
      var n := |order| - 1;
      var k := order[n];
      assert k in order;
      assert forall k' | k' in order[..n] :: k' in order;
      NothingPlanned(next, desired, order[..n]);
      var kt := KeyTotals(Group(next, k), desired[k]);
      assert kt == NoChanges;
      assert PlanTotals(next, desired, order) == AddTotals(PlanTotals(next, desired, order[..n]), kt);
    }
  }

  /**
   * A second pass over what the first pass leaves plans nothing when every
   * key's desired endpoints fit under the cap: no create, no update, no
   * delete and no change counted.
   */
  lemma SecondPassPlansNothing(endpoints: Endpoints, existing: seq<EndpointSlice>, max: int, validate: Validator,
                               slices: SlicesByAction, totals: TotalsByAction, events: seq<Event>,
                               keyOrder: seq<PortMapKey>, orphanOrder: seq<PortMapKey>, planned: map<PortMapKey, EndpointSlice>,
                               next: seq<EndpointSlice>, slices2: SlicesByAction, totals2: TotalsByAction, events2: seq<Event>,
                               keyOrder2: seq<PortMapKey>, orphanOrder2: seq<PortMapKey>, planned2: map<PortMapKey, EndpointSlice>)
    requires IsPlan(endpoints, existing, max, validate, slices, totals, events, keyOrder, orphanOrder, planned)
    requires forall k | k in DesiredOf(endpoints.subsets, max, validate) :: |DesiredOf(endpoints.subsets, max, validate)[k]| <= max
    requires Settled(next, existing, DesiredOf(endpoints.subsets, max, validate), planned)
    requires IsPlan(endpoints, next, max, validate, slices2, totals2, events2, keyOrder2, orphanOrder2, planned2)
    ensures slices2.toCreate == [] && slices2.toUpdate == [] && slices2.toDelete == []
    ensures totals2 == NoChanges
  {
    var desired := DesiredOf(endpoints.subsets, max, validate);
    DesiredSound(endpoints.subsets, max, validate);
    assert PlanWritten(endpoints, existing, desired, max, keyOrder, planned, slices.toCreate, slices.toUpdate);
    assert PlannedKeys(endpoints, next, desired, max, keyOrder2, planned2,
                       slices2.(toDelete := PlanDeletes(next, desired, keyOrder2)), totals2);
    forall k | k in keyOrder2
      ensures k in desired && k !in planned2
      ensures KeyDeletes(Group(next, k), desired[k]) == [] && KeyTotals(Group(next, k), desired[k]) == NoChanges
    {
      SettledKey(endpoints, existing, desired, max, keyOrder, planned, slices.toCreate, slices.toUpdate, next, k);
    }
    NothingPlanned(next, desired, keyOrder2);
    PlannedWithin(planned2, keyOrder2);
    WritesPlanned(endpoints, next, max, validate, slices2, totals2, events2, keyOrder2, orphanOrder2, planned2);
    assert KeysOf(next) - desired.Keys == {};
    EnumeratesNothing(orphanOrder2);
  }

  /** A plan whose keys all lie in an order none of whose keys it plans is empty. */
  lemma PlannedWithin(planned: map<PortMapKey, EndpointSlice>, order: seq<PortMapKey>)
    requires forall k | k in planned :: k in order
    requires forall k | k in order :: k !in planned
    ensures planned == map[]
  {
    assert planned.Keys == {};
  }

  /** An order of no keys is empty. */
  lemma EnumeratesNothing(order: seq<PortMapKey>)
    requires Enumerates(order, {})
    ensures order == []
  {
    if order != [] {
      FirstInOrder(order);
      assert false;
    }
  }

  /** The first key of a non-empty order is one of its keys. */
  lemma FirstInOrder(order: seq<PortMapKey>)
    requires order != []
    ensures order[0] in order
  {
  }
}
