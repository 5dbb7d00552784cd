/**
 * The mirroring reconciler: from a legacy Endpoints resource and the
 * EndpointSlices that already mirror it, the plan of slices to create,
 * update and delete, the endpoint totals, the warning events, and the
 * application of that plan.
 */
module Reconciler {
  import opened Discovery
  import opened EndpointSets
  import opened DesiredState
  import opened Changes
  import opened Grouping
  import opened Recycling
  import opened Apply

  // ---------------------------------------------------------------------
  // Collecting the desired endpoints of one subset
  // ---------------------------------------------------------------------

  /**
   * Offers the address `offered[count]` to the calculator and counts it when
   * its IP is invalid: one more step of the desired-state fold.
   */
  method OfferOne(d: DesiredCalc, multiKey: MultiKey, address: EndpointAddress, ready: bool, validate: Validator,
                  numInvalid: nat, ghost registered: Desired, ghost offered: seq<Offer>, ghost count: nat)
    returns (numInvalid': nat, ghost next: nat)
    requires d.Valid() && multiKey.v4 in d.endpointsByKey && multiKey.v6 in d.endpointsByKey
    requires multiKey.v4 in registered && multiKey.v6 in registered
    requires count < |offered| && offered[count] == Offer(address, ready)
    requires d.desired == AddAll(registered, multiKey, offered[..count], validate)
    requires numInvalid == InvalidCount(offered[..count], validate)
    modifies d, d.Repr
    ensures d.Valid() && d.Repr == old(d.Repr) && d.endpointsByKey == old(d.endpointsByKey) && d.portsByKey == old(d.portsByKey)
    ensures next == count + 1
    ensures d.desired == AddAll(registered, multiKey, offered[..next], validate)
    ensures numInvalid' == InvalidCount(offered[..next], validate)
  {
    next := count + 1;
    assert offered[..next][..count] == offered[..count];
    var ok := d.AddAddress(address, multiKey, ready, validate);
    numInvalid' := if ok then numInvalid else numInvalid + 1;
  }

  /** The offer at `count` is the `i`-th address of the loop that starts at `base`. */
  lemma OfferAt(offered: seq<Offer>, addresses: seq<EndpointAddress>, ready: bool, base: nat, i: nat, count: nat)
    requires count == base + i && count < |offered| && i < |addresses|
    requires forall k | base <= k < |offered| && k - base < |addresses| :: offered[k] == Offer(addresses[k - base], ready)
    ensures offered[count] == Offer(addresses[i], ready)
  {
  }

  /**
   * The offers from `base` on are `addresses`, offered with readiness
   * `ready`, as far as the capped list `offered` reaches; a loop that has
   * counted `total` addresses so far may run over them.
   */
  ghost predicate OfferWindow(offered: seq<Offer>, addresses: seq<EndpointAddress>, ready: bool, max: int, base: nat, total: int) {
    (|offered| == 0 || |offered| <= max) &&
    (|offered| == max || max <= 0 || base + |addresses| <= |offered|) &&
    base <= |offered| && (total == base || (total > max && base == |offered|)) &&
    forall k | base <= k < |offered| && k - base < |addresses| :: offered[k] == Offer(addresses[k - base], ready)
  }

  /**
   * One of the two address loops of a subset: counts each address towards
   * the subset's total, stops once the total passes `max`, and offers the
   * address otherwise. `offered` is the subset's capped offer list, of which
   * the first `base` entries were offered before.
   */
  method OfferAddresses(d: DesiredCalc, addresses: seq<EndpointAddress>, ready: bool, multiKey: MultiKey,
                        max: int, validate: Validator, totalBefore: int, invalidBefore: nat,
                        ghost registered: Desired, ghost offered: seq<Offer>, ghost base: nat)
    returns (totalAddresses: int, numInvalid: nat, ghost count: nat)
    requires d.Valid() && multiKey.v4 in d.endpointsByKey && multiKey.v6 in d.endpointsByKey
    requires multiKey.v4 in registered && multiKey.v6 in registered
    requires OfferWindow(offered, addresses, ready, max, base, totalBefore)
    requires d.desired == AddAll(registered, multiKey, offered[..base], validate)
    requires invalidBefore == InvalidCount(offered[..base], validate)
    modifies d, d.Repr
    ensures d.Valid() && d.Repr == old(d.Repr) && d.endpointsByKey == old(d.endpointsByKey) && d.portsByKey == old(d.portsByKey)
    ensures base <= count <= |offered| && count <= base + |addresses|
    ensures count == |offered| || (count == base + |addresses| && totalAddresses == count)
    ensures totalAddresses == count || (totalAddresses > max && count == |offered|)
    ensures d.desired == AddAll(registered, multiKey, offered[..count], validate)
    ensures numInvalid == InvalidCount(offered[..count], validate)
  {
    totalAddresses, numInvalid := totalBefore, invalidBefore;
    count := base;
    var i := 0;
    while i < |addresses|
      invariant 0 <= i <= |addresses| && count == base + i <= |offered|
      invariant i < |addresses| && totalAddresses + 1 <= max ==> count < |offered|
      invariant totalAddresses == count || (i == 0 && totalAddresses > max && base == |offered|)
      invariant d.Valid() && d.Repr == old(d.Repr) && d.endpointsByKey == old(d.endpointsByKey) && d.portsByKey == old(d.portsByKey)
      invariant d.desired == AddAll(registered, multiKey, offered[..count], validate)
      invariant numInvalid == InvalidCount(offered[..count], validate)
    {
      totalAddresses := totalAddresses + 1;
      if totalAddresses > max {
        break;
      }
      OfferAt(offered, addresses, ready, base, i, count);
      numInvalid, count := OfferOne(d, multiKey, addresses[i], ready, validate, numInvalid, registered, offered, count);
      i := i + 1;
    }
  }

  lemma TakeAll<T>(s: seq<T>, n: nat)
    requires n == |s|
    ensures s[..n] == s
  {
  }

  /** The ready addresses of a subset head its offer list. */
  lemma ReadyOffers(subset: EndpointSubset, max: int)
    ensures OfferWindow(Offered(subset, max), subset.addresses, true, max, 0, 0)
  {
  }

  /**
   * After the ready loop has offered `count` addresses and counted `total`,
   * the not-ready loop may start at `count`: the ready addresses are used up
   * or the cap is reached.
   */
  lemma NotReadyOffers(subset: EndpointSubset, max: int, count: nat, total: int)
    requires count <= |Offered(subset, max)| && count <= |subset.addresses|
    requires count == |Offered(subset, max)| || (count == |subset.addresses| && total == count)
    requires total == count || (total > max && count == |Offered(subset, max)|)
    ensures OfferWindow(Offered(subset, max), subset.notReadyAddresses, false, max, count, total)
  {
  }

  /**
   * Registers a subset's ports, then offers its ready and then its not-ready
   * addresses until `max` of them have been counted; returns how many of
   * the offered addresses had an invalid IP.
   */
  method MirrorSubset(d: DesiredCalc, subset: EndpointSubset, max: int, validate: Validator) returns (numInvalid: nat)
    requires d.Valid()
    modifies d, d.Repr
    ensures d.Valid() && fresh(d.Repr - old(d.Repr))
    ensures d.desired == AddSubset(old(d.desired), subset, max, validate)
    ensures d.portsByKey == RegisterPorts(old(d.portsByKey), subset.ports)
    ensures numInvalid == InvalidCount(Offered(subset, max), validate)
  {
    var multiKey := d.InitPorts(subset.ports);
    ghost var registered := d.desired;
    ghost var offered := Offered(subset, max);
    assert offered[..0] == [];
    var totalAddresses := 0;
    ghost var count;
    ReadyOffers(subset, max);
    totalAddresses, numInvalid, count :=
      OfferAddresses(d, subset.addresses, true, multiKey, max, validate, 0, 0, registered, offered, 0);
    NotReadyOffers(subset, max, count, totalAddresses);
    totalAddresses, numInvalid, count :=
      OfferAddresses(d, subset.notReadyAddresses, false, multiKey, max, validate, totalAddresses, numInvalid, registered, offered, count);
    TakeAll(offered, count);
  }

  // ---------------------------------------------------------------------
  // Planning one port-map key
  // ---------------------------------------------------------------------

  /** The number of endpoints held by the slices `ss`. */
  function EndpointCount(ss: seq<EndpointSlice>): (n: nat)
    ensures forall s | s in ss :: |s.endpoints| <= n
    decreases |ss|
  {
    if ss == [] then 0
    else EndpointCount(ss[..|ss| - 1]) + |ss[|ss| - 1].endpoints|
  }

  /** The totals planned for a key whose existing slices are `existing`. */
  function KeyTotals(existing: seq<EndpointSlice>, desired: map<EndpointHash, Endpoint>): TotalsByAction {
    if desired == map[] then TotalsByAction(0, 0, EndpointCount(existing))
    else if existing == [] then TotalsByAction(|desired|, 0, 0)
    else ChangesFor(existing[0].endpoints, desired)
  }

  /** The existing slices of a key that are deleted: all of them when nothing is desired, else all but the first. */
  function KeyDeletes(existing: seq<EndpointSlice>, desired: map<EndpointHash, Endpoint>): seq<EndpointSlice> {
    if desired == map[] then existing
    else if existing == [] then []
    else existing[1..]
  }

  /** A key needs a slice written: something is desired, and there is no slice yet or the first one differs. */
  predicate NeedsWrite(existing: seq<EndpointSlice>, desired: map<EndpointHash, Endpoint>) {
    desired != map[] && (existing == [] || ChangesFor(existing[0].endpoints, desired) != NoChanges)
  }

  /**
   * `s` is the slice planned for key `k`: it belongs to the Endpoints, has
   * the key's ports and family, reuses the name of the first existing slice
   * (empty when there is none), is not yet stored, and holds the capped
   * desired endpoints.
   */
  ghost predicate WriteFor(s: EndpointSlice, endpoints: Endpoints, k: PortMapKey,
                           existing: seq<EndpointSlice>, desired: map<EndpointHash, Endpoint>, max: int) {
    s.namespace == endpoints.namespace && s.owner == endpoints.name &&
    s.addressType == k.addressType && KeyOf(s) == k && s.resourceVersion == 0 &&
    s.name == (if existing == [] then "" else existing[0].name) &&
    PlannedFrom(s, desired, max)
  }

  /** The one slice a key's plan writes, whether as a create or as an update. */
  function WrittenSlice(sl: SlicesByAction): EndpointSlice
    requires sl.toCreate != [] || sl.toUpdate != []
  {
    if sl.toCreate != [] then sl.toCreate[0] else sl.toUpdate[0]
  }

  /**
   * The plan of one key, with existing slices `existing` and desired
   * endpoints `desired`: its totals and deletions, and either nothing to
   * write or exactly one slice with the key's ports and family, to update
   * when it has a name and to create when it has none.
   */
  ghost predicate KeyPlan(endpoints: Endpoints, ports: seq<EndpointPort>, t: AddressType,
                          existing: seq<EndpointSlice>, desired: map<EndpointHash, Endpoint>, max: int,
                          slices: SlicesByAction, totals: TotalsByAction) {
    totals == KeyTotals(existing, desired) &&
    slices.toDelete == KeyDeletes(existing, desired) &&
    (!NeedsWrite(existing, desired) ==> slices.toCreate == [] && slices.toUpdate == []) &&
    (NeedsWrite(existing, desired) ==>
       |slices.toCreate| + |slices.toUpdate| == 1 &&
       (slices.toCreate != [] <==> WrittenSlice(slices).name == "") &&
       WrittenSlice(slices).ports == ports &&
       WriteFor(WrittenSlice(slices), endpoints, NewAddrTypePortMapKey(ports, t), existing, desired, max))
  }

  lemma HashSetAppend(eps: seq<Endpoint>, e: Endpoint)
    ensures HashSet(eps + [e]) == HashSet(eps) + {HashOf(e)}
  {
    HashSetSnoc(eps + [e]);
    assert (eps + [e])[..|eps|] == eps;
  }

  /**
   * `eps` holds distinct desired endpoints, exactly as desired, and `rest`
   * holds the desired endpoints not yet in `eps`: the state of a slice being
   * filled from the desired set.
   */
  ghost predicate DrainedInto(eps: seq<Endpoint>, rest: map<EndpointHash, Endpoint>, desired: map<EndpointHash, Endpoint>) {
    rest == desired - HashSet(eps) && HashSet(eps) <= desired.Keys &&
    |eps| + |rest| == |desired| && DistinctHashes(eps) &&
    forall e | e in eps :: HashOf(e) in desired && desired[HashOf(e)] == e
  }

  lemma DistinctAppend(eps: seq<Endpoint>, e: Endpoint)
    requires DistinctHashes(eps) && HashOf(e) !in HashSet(eps)
    ensures DistinctHashes(eps + [e])
  {
    assert forall i | 0 <= i < |eps| :: HashOf(eps[i]) in HashSet(eps);
  }

  lemma RemoveSize(m: map<EndpointHash, Endpoint>, h: EndpointHash)
    requires h in m
    ensures |m - {h}| == |m| - 1
  {
    assert (m - {h}).Keys == m.Keys - {h};
  }

  /** Moving one remaining endpoint into the slice keeps the split. */
  lemma DrainStep(eps: seq<Endpoint>, rest: map<EndpointHash, Endpoint>, desired: map<EndpointHash, Endpoint>, e: Endpoint)
    requires DrainedInto(eps, rest, desired)
    requires HashOf(e) in rest && rest[HashOf(e)] == e
    ensures DrainedInto(eps + [e], rest - {HashOf(e)}, desired)
  {
    HashSetAppend(eps, e);
    DistinctAppend(eps, e);
    RemoveSize(rest, HashOf(e));
  }

  /** The total number of endpoints held by `existingSlices`, summed slice by slice. */
  method RemovedTotal(existingSlices: seq<EndpointSlice>) returns (removed: nat)
    ensures removed == EndpointCount(existingSlices)
  {
    removed := 0;
    var i := 0;
    while i < |existingSlices|
      invariant 0 <= i <= |existingSlices|
      invariant removed == EndpointCount(existingSlices[..i])
    {
      assert existingSlices[..i + 1][..i] == existingSlices[..i];
      removed := removed + |existingSlices[i].endpoints|;
      i := i + 1;
    }
    assert existingSlices[..i] == existingSlices;
  }

  /**
   * Moves endpoints out of the desired set into the slice until the set is
   * empty or the slice holds `max` of them.
   */
  method FillSlice(newSlice: EndpointSlice, desiredSet: EndpointSet, max: int) returns (filled: EndpointSlice)
    requires desiredSet.Valid() && newSlice.endpoints == []
    modifies desiredSet
    ensures desiredSet.Valid()
    ensures filled == newSlice.(endpoints := filled.endpoints)
    ensures |filled.endpoints| == Cap(max, |old(desiredSet.items)|)
    ensures DrainedInto(filled.endpoints, desiredSet.items, old(desiredSet.items))
  {
    ghost var desired := desiredSet.items;
    filled := newSlice;
    assert HashSet([]) == {};
    while desiredSet.Len() > 0 && |filled.endpoints| < max
      invariant desiredSet.Valid()
      invariant filled == newSlice.(endpoints := filled.endpoints)
      invariant DrainedInto(filled.endpoints, desiredSet.items, desired)
      invariant |filled.endpoints| <= Cap(max, |desired|)
      decreases desiredSet.Len()
    {
      ghost var rest := desiredSet.items;
      var endpoint := desiredSet.PopAny();
      DrainStep(filled.endpoints, rest, desired, endpoint.value);
      filled := filled.(endpoints := filled.endpoints + [endpoint.value]);
    }
  }

  /**
   * Plans one key: deletes every existing slice when nothing is desired;
   * otherwise deletes all but the first, keeps the first as it is when it
   * already matches, and else plans one slice drained from the desired set,
   * an update when it has a name and a create when it has none.
   */
  method ReconcileByPortMapping(endpoints: Endpoints, existingSlices: seq<EndpointSlice>, desiredSet: EndpointSet,
                                endpointPorts: seq<EndpointPort>, addressType: AddressType, max: int)
    returns (slices: SlicesByAction, totals: TotalsByAction)
    requires desiredSet.Valid()
    modifies desiredSet
    ensures desiredSet.Valid()
    ensures KeyPlan(endpoints, endpointPorts, addressType, existingSlices, old(desiredSet.items), max, slices, totals)
    ensures !NeedsWrite(existingSlices, old(desiredSet.items)) ==> desiredSet.items == old(desiredSet.items)
    ensures NeedsWrite(existingSlices, old(desiredSet.items)) ==>
      DrainedInto(WrittenSlice(slices).endpoints, desiredSet.items, old(desiredSet.items))
  {
    slices := NoSlices;
    totals := NoChanges;

    if desiredSet.Len() == 0 {
      slices := slices.(toDelete := existingSlices);
      var removed := RemovedTotal(existingSlices);
      totals := totals.(removed := removed);
      return;
    }

    if |existingSlices| == 0 {
      totals := totals.(added := desiredSet.Len());
    } else {
      slices := slices.(toDelete := existingSlices[1..]);
      totals := TotalChanges(existingSlices[0], desiredSet);
      if totals.added == 0 && totals.updated == 0 && totals.removed == 0 {
        return;
      }
    }

    var sliceName := "";
    if |existingSlices| > 0 {
      sliceName := existingSlices[0].name;
    }
    var newSlice := NewEndpointSlice(endpoints, endpointPorts, addressType, sliceName);
    newSlice := FillSlice(newSlice, desiredSet, max);

    if newSlice.name != "" {
      slices := slices.(toUpdate := [newSlice]);
    } else {
      slices := slices.(toCreate := [newSlice]);
    }
  }
}
