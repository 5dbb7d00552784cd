/**
 * Recycling of planned deletions: before a plan is applied, a slice that is
 * to be created takes over the name of a slice of the same address family
 * that is to be deleted, so that one update replaces a create and a delete.
 */
module Recycling {
  import opened Discovery

  /** The slices of `ss` of family `t`, in their order. */
  function OfFamily(ss: seq<EndpointSlice>, t: AddressType): (r: seq<EndpointSlice>)
    ensures |r| <= |ss|
    ensures forall s | s in r :: s in ss && s.addressType == t
    ensures forall s | s in ss && s.addressType == t :: s in r
    decreases |ss|
  {
    if ss == [] then []
    else
      var last := ss[|ss| - 1];
      OfFamily(ss[..|ss| - 1], t) + (if last.addressType == t then [last] else [])
  }

  /** Splitting by family loses and invents no slice. */
  lemma {:induction false} FamiliesPartition(ss: seq<EndpointSlice>)
    ensures |OfFamily(ss, IPv4)| + |OfFamily(ss, IPv6)| == |ss|
    decreases |ss|
  {
    if ss != [] {
      FamiliesPartition(ss[..|ss| - 1]);
    }
  }

  /** The deletions still available for recycling, per family. */
  datatype Pools = Pools(v4: seq<EndpointSlice>, v6: seq<EndpointSlice>) {
    function For(t: AddressType): seq<EndpointSlice> {
      match t
      case IPv4 => v4
      case IPv6 => v6
    }

    /** The pools once the head of family `t`'s pool has been used. */
    function Take(t: AddressType): Pools
      requires For(t) != []
    {
      match t
      case IPv4 => Pools(v4[1..], v6)
      case IPv6 => Pools(v4, v6[1..])
    }

    function Size(): nat {
      |v4| + |v6|
    }

    ghost predicate Typed() {
      (forall s | s in v4 :: s.addressType == IPv4) && (forall s | s in v6 :: s.addressType == IPv6)
    }
  }

  /** A create that takes over the name of the slice it replaces; nothing else of that slice is kept. */
  function Adopt(c: EndpointSlice, d: EndpointSlice): EndpointSlice {
    c.(name := d.name)
  }

  /** `u` is a create from `creates` that adopted a deletion of its own family from `deletes`. */
  ghost predicate RecycledFrom(u: EndpointSlice, creates: seq<EndpointSlice>, deletes: seq<EndpointSlice>) {
    exists c, d | c in creates && d in deletes :: c.addressType == d.addressType && u == Adopt(c, d)
  }

  datatype Recycled = Recycled(creates: seq<EndpointSlice>, updates: seq<EndpointSlice>, pools: Pools)

  /**
   * Walks the creates in order; each one whose family still has a deletion
   * pending becomes an update that adopts the first such deletion.
   */
  function RecycleCreates(creates: seq<EndpointSlice>, pools: Pools): (r: Recycled)
    requires pools.Typed()
    ensures r.pools.Typed()
    ensures |r.creates| + |r.updates| == |creates|
    ensures r.pools.Size() + |r.updates| == pools.Size()
    ensures forall c | c in r.creates :: c in creates && r.pools.For(c.addressType) == []
    ensures forall s | s in r.pools.v4 :: s in pools.v4
    ensures forall s | s in r.pools.v6 :: s in pools.v6
    ensures forall t: AddressType | pools.For(t) == [] :: r.pools.For(t) == []
    ensures forall u | u in r.updates :: RecycledFrom(u, creates, pools.v4 + pools.v6)
    decreases |creates|
  {
    if creates == [] then Recycled([], [], pools)
    else
      var c := creates[0];
      var pool := pools.For(c.addressType);
      if pool == [] then
        var rest := RecycleCreates(creates[1..], pools);
        Recycled([c] + rest.creates, rest.updates, rest.pools)
      else
        var d := pool[0];
        var rest := RecycleCreates(creates[1..], pools.Take(c.addressType));
        assert d in pools.v4 + pools.v6 && d.addressType == c.addressType;
        assert RecycledFrom(Adopt(c, d), creates, pools.v4 + pools.v6);
        Recycled(rest.creates, [Adopt(c, d)] + rest.updates, rest.pools)
  }

  /**
   * The plan after recycling. Nothing changes unless there is something both
   * to create and to delete; otherwise each recycled create moves to the end
   * of the updates and the unused deletions are kept, IPv4 first.
   */
  function Recycle(sl: SlicesByAction): (r: SlicesByAction)
    ensures sl.toCreate == [] || sl.toDelete == [] ==> r == sl
    ensures |r.toCreate| + |r.toUpdate| == |sl.toCreate| + |sl.toUpdate|
    ensures |r.toDelete| + |r.toUpdate| == |sl.toDelete| + |sl.toUpdate|
  {
    if sl.toCreate == [] || sl.toDelete == [] then sl
    else
      var pools := Pools(OfFamily(sl.toDelete, IPv4), OfFamily(sl.toDelete, IPv6));
      FamiliesPartition(sl.toDelete);
      var rc := RecycleCreates(sl.toCreate, pools);
      SlicesByAction(rc.creates, sl.toUpdate + rc.updates, rc.pools.v4 + rc.pools.v6)
  }

  /**
   * Recycling keeps the planned updates in front, and every update it adds
   * is a planned create that adopted a planned deletion of its own family.
   */
  lemma RecycleAppendsUpdates(sl: SlicesByAction)
    ensures var r := Recycle(sl);
      |sl.toUpdate| <= |r.toUpdate| && r.toUpdate[..|sl.toUpdate|] == sl.toUpdate &&
      forall u | u in r.toUpdate[|sl.toUpdate|..] :: RecycledFrom(u, sl.toCreate, sl.toDelete)
  {
    var r := Recycle(sl);
    if sl.toCreate != [] && sl.toDelete != [] {
      var pools := Pools(OfFamily(sl.toDelete, IPv4), OfFamily(sl.toDelete, IPv6));
      var rc := RecycleCreates(sl.toCreate, pools);
      assert r.toUpdate == sl.toUpdate + rc.updates;
      assert r.toUpdate[..|sl.toUpdate|] == sl.toUpdate && r.toUpdate[|sl.toUpdate|..] == rc.updates;
      forall u | u in rc.updates
        ensures RecycledFrom(u, sl.toCreate, sl.toDelete)
      {
        var c, d :| c in sl.toCreate && d in pools.v4 + pools.v6 && c.addressType == d.addressType && u == Adopt(c, d);
      }
    } else {
      assert r.toUpdate[|sl.toUpdate|..] == [];
    }
  }

  /**
   * Recycling invents no create and no deletion, and afterwards no remaining
   * create shares an address family with a remaining deletion.
   */
  lemma RecycleSeparatesFamilies(sl: SlicesByAction)
    ensures var r := Recycle(sl);
      (forall s | s in r.toCreate :: s in sl.toCreate) &&
      (forall s | s in r.toDelete :: s in sl.toDelete) &&
      (sl.toCreate != [] && sl.toDelete != [] ==>
         forall c, d | c in r.toCreate && d in r.toDelete :: c.addressType != d.addressType)
  {
    if sl.toCreate != [] && sl.toDelete != [] {
      var pools := Pools(OfFamily(sl.toDelete, IPv4), OfFamily(sl.toDelete, IPv6));
      var rc := RecycleCreates(sl.toCreate, pools);
      var r := Recycle(sl);
      assert r.toDelete == rc.pools.v4 + rc.pools.v6;
      forall c, d | c in r.toCreate && d in r.toDelete
        ensures c.addressType != d.addressType
      {
        assert rc.pools.For(c.addressType) == [];
        if d in rc.pools.v4 {
          assert d.addressType == IPv4;
        } else {
          assert d.addressType == IPv6;
        }
      }
    }
  }

  lemma OfFamilySingle(d: EndpointSlice, t: AddressType)
    ensures OfFamily([d], t) == if d.addressType == t then [d] else []
  {
    assert [d][..0] == [];
  }

  /** A create and a delete of the same family collapse into one update under the deleted slice's name. */
  lemma CreateAndDeleteBecomeUpdate(c: EndpointSlice, d: EndpointSlice)
    requires c.addressType == d.addressType
    ensures Recycle(SlicesByAction([c], [], [d])) == SlicesByAction([], [Adopt(c, d)], [])
  {
    OfFamilySingle(d, IPv4);
    OfFamilySingle(d, IPv6);
    var pools := Pools(OfFamily([d], IPv4), OfFamily([d], IPv6));
    assert pools.For(c.addressType) == [d] && pools.Take(c.addressType) == Pools([], []);
    assert [c][1..] == [];
    assert RecycleCreates([c], pools) == Recycled([], [Adopt(c, d)], Pools([], []));
  }

  /** A create and a delete of different families are both kept. */
  lemma DifferentFamiliesKept(c: EndpointSlice, d: EndpointSlice)
    requires c.addressType != d.addressType
    ensures Recycle(SlicesByAction([c], [], [d])) == SlicesByAction([c], [], [d])
  {
    OfFamilySingle(d, IPv4);
    OfFamilySingle(d, IPv6);
    var pools := Pools(OfFamily([d], IPv4), OfFamily([d], IPv6));
    assert pools.For(c.addressType) == [] && pools.v4 + pools.v6 == [d];
    assert [c][1..] == [];
    assert RecycleCreates([c], pools) == Recycled([c], [], pools);
  }
}
