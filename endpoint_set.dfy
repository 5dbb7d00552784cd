/**
 * The endpoint set the reconciler fills with desired endpoints and drains
 * while building a slice: a map from an endpoint's hash to the endpoint,
 * held by reference and changed in place.
 */
module EndpointSets {
  import opened Discovery

  /** Adds `e` unless an endpoint with its hash is already present: the first one seen stays. */
  function InsertFirst(items: map<EndpointHash, Endpoint>, e: Endpoint): (r: map<EndpointHash, Endpoint>)
    ensures HashOf(e) in r && (HashOf(e) in items ==> r == items)
    ensures HashOf(e) !in items ==> r[HashOf(e)] == e && r.Keys == items.Keys + {HashOf(e)}
    ensures forall h | h in items :: h in r && r[h] == items[h]
  {
    if HashOf(e) in items then items else items[HashOf(e) := e]
  }

  class EndpointSet {
    var items: map<EndpointHash, Endpoint>

    ghost predicate Valid()
      reads this
    {
      WellKeyed(items)
    }

    constructor ()
      ensures Valid() && items == map[]
    {
      items := map[];
    }

    function Len(): nat
      reads this
    {
      |items|
    }

    /** The member of the set with the same hash as `e`, if any. */
    function Get(e: Endpoint): Option<Endpoint>
      reads this
    {
      if HashOf(e) in items then Some(items[HashOf(e)]) else None
    }

    method Insert(e: Endpoint)
      requires Valid()
      modifies this
      ensures Valid()
      ensures items == InsertFirst(old(items), e)
    {
      if HashOf(e) !in items {
        items := items[HashOf(e) := e];
      }
    }

    /** Removes and returns an arbitrary member; None, and no change, when the set is empty. */
    method PopAny() returns (e: Option<Endpoint>)
      requires Valid()
      modifies this
      ensures Valid()
      ensures old(items) == map[] ==> e == None && items == old(items)
      ensures old(items) != map[] ==>
        e.Some? && HashOf(e.value) in old(items) && old(items)[HashOf(e.value)] == e.value &&
        items == old(items) - {HashOf(e.value)} && |items| == |old(items)| - 1
    {
      if items == map[] {
        return None;
      }
      var h :| h in items;
      e := Some(items[h]);
      assert items.Keys - {h} == (items - {h}).Keys;
      items := items - {h};
    }
  }
}
