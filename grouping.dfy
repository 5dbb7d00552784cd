/**
 * Existing EndpointSlices grouped by their port-map key.
 */
module Grouping {
  import opened Discovery

  /** The slices whose key is `k`, in the order they were given. */
  function Group(slices: seq<EndpointSlice>, k: PortMapKey): (g: seq<EndpointSlice>)
    ensures |g| <= |slices|
    ensures forall s | s in g :: s in slices && KeyOf(s) == k
    decreases |slices|
  {
    if slices == [] then []
    else
      var last := slices[|slices| - 1];
      Group(slices[..|slices| - 1], k) + (if KeyOf(last) == k then [last] else [])
  }

  function KeysOf(slices: seq<EndpointSlice>): set<PortMapKey> {
    set s | s in slices :: KeyOf(s)
  }

  lemma GroupSnoc(slices: seq<EndpointSlice>, s: EndpointSlice, k: PortMapKey)
    ensures Group(slices + [s], k) == Group(slices, k) + (if KeyOf(s) == k then [s] else [])
    ensures KeysOf(slices + [s]) == KeysOf(slices) + {KeyOf(s)}
  {
    assert (slices + [s])[..|slices|] == slices;
  }

  /** `m` maps each key of `seen` to its group, and to nothing else. */
  ghost predicate GroupsOf(m: map<PortMapKey, seq<EndpointSlice>>, seen: seq<EndpointSlice>) {
    m.Keys == KeysOf(seen) && forall k | k in m :: m[k] == Group(seen, k) && m[k] != []
  }

  /** Appending a slice to its key's list keeps the map the grouping of what has been seen. */
  lemma GroupsStep(m: map<PortMapKey, seq<EndpointSlice>>, seen: seq<EndpointSlice>, s: EndpointSlice)
    requires GroupsOf(m, seen)
    ensures GroupsOf(m[KeyOf(s) := (if KeyOf(s) in m then m[KeyOf(s)] else []) + [s]], seen + [s])
  {
    var k0 := KeyOf(s);
    GroupEmpty(seen, k0);
    var m' := m[k0 := (if k0 in m then m[k0] else []) + [s]];
    forall k | k in m'
      ensures m'[k] == Group(seen + [s], k) && m'[k] != []
    {
      GroupSnoc(seen, s, k);
    }
    GroupSnoc(seen, s, k0);
  }

  /** Groups the existing slices by key, appending each to its key's list. */
  method EndpointSlicesByKey(existingSlices: seq<EndpointSlice>) returns (slicesByKey: map<PortMapKey, seq<EndpointSlice>>)
    ensures slicesByKey.Keys == KeysOf(existingSlices)
    ensures forall k | k in slicesByKey :: slicesByKey[k] == Group(existingSlices, k) && slicesByKey[k] != []
  {
    slicesByKey := map[];
    var i := 0;
    while i < |existingSlices|
      invariant 0 <= i <= |existingSlices|
      invariant GroupsOf(slicesByKey, existingSlices[..i])
    {
      var existingSlice := existingSlices[i];
      var epKey := KeyOf(existingSlice);
      GroupsStep(slicesByKey, existingSlices[..i], existingSlice);
      assert existingSlices[..i + 1] == existingSlices[..i] + [existingSlice];
      var group := if epKey in slicesByKey then slicesByKey[epKey] else [];
      slicesByKey := slicesByKey[epKey := group + [existingSlice]];
      i := i + 1;
    }
    assert existingSlices[..i] == existingSlices;
  }

  /** The slice at index `i` is the first one with its key. */
  ghost predicate FirstOfKey(slices: seq<EndpointSlice>, i: int)
    requires 0 <= i < |slices|
  {
    forall j | 0 <= j < i :: KeyOf(slices[j]) != KeyOf(slices[i])
  }

  /** Every slice lies in the group of its own key, and in no other. */
  lemma {:induction false} InOwnGroup(slices: seq<EndpointSlice>, s: EndpointSlice, k: PortMapKey)
    requires s in slices
    ensures s in Group(slices, KeyOf(s))
    ensures s in Group(slices, k) ==> k == KeyOf(s)
    decreases |slices|
  {
    var n := |slices| - 1;
    if s != slices[n] {
      assert slices == slices[..n] + [slices[n]];
      InOwnGroup(slices[..n], s, k);
    }
  }

  /** A group is empty exactly when no slice has its key. */
  lemma GroupEmpty(slices: seq<EndpointSlice>, k: PortMapKey)
    ensures Group(slices, k) == [] <==> k !in KeysOf(slices)
  {
    if k in KeysOf(slices) {
      var s :| s in slices && KeyOf(s) == k;
      InOwnGroup(slices, s, k);
    }
  }

  /** The first slice with a key heads that key's group. */
  lemma {:induction false} FirstHeadsGroup(slices: seq<EndpointSlice>, i: int)
    requires 0 <= i < |slices| && FirstOfKey(slices, i)
    ensures Group(slices, KeyOf(slices[i])) != [] && Group(slices, KeyOf(slices[i]))[0] == slices[i]
    decreases |slices|
  {
    var n := |slices| - 1;
    var k := KeyOf(slices[i]);
    var prefix := slices[..n];
    if i == n {
      assert k !in KeysOf(prefix);
      GroupEmpty(prefix, k);
    } else {
      assert forall j | 0 <= j < i :: prefix[j] == slices[j];
      FirstHeadsGroup(prefix, i);
    }
  }

  /** A slice appended after another of its key lands in the tail of the group. */
  lemma AppendedIntoTail(prefix: seq<EndpointSlice>, s: EndpointSlice)
    requires Group(prefix, KeyOf(s)) != []
    ensures Group(prefix + [s], KeyOf(s)) != [] && s in Group(prefix + [s], KeyOf(s))[1..]
  {
    var k := KeyOf(s);
    GroupSnoc(prefix, s, k);
    var g := Group(prefix, k);
    assert Group(prefix + [s], k) == g + [s];
    assert (g + [s])[1..] == g[1..] + [s];
    assert s in g[1..] + [s];
  }

  /** Appending a slice keeps whatever was already in a group's tail there. */
  lemma TailKept(prefix: seq<EndpointSlice>, s: EndpointSlice, k: PortMapKey, x: EndpointSlice)
    requires Group(prefix, k) != [] && x in Group(prefix, k)[1..]
    ensures Group(prefix + [s], k) != [] && x in Group(prefix + [s], k)[1..]
  {
    GroupSnoc(prefix, s, k);
    var g := Group(prefix, k);
    var t := if KeyOf(s) == k then [s] else [];
    assert (g + t)[1..] == g[1..] + t;
  }

  /** Every slice that is not the first with its key lies in the tail of its group. */
  lemma {:induction false} LaterInGroupTail(slices: seq<EndpointSlice>, i: int)
    requires 0 <= i < |slices| && !FirstOfKey(slices, i)
    ensures Group(slices, KeyOf(slices[i])) != [] && slices[i] in Group(slices, KeyOf(slices[i]))[1..]
    decreases |slices|
  {
    var n := |slices| - 1;
    var k := KeyOf(slices[i]);
    var prefix := slices[..n];
    assert slices == prefix + [slices[n]];
    var j :| 0 <= j < i && KeyOf(slices[j]) == k;
    assert prefix[j] == slices[j];
    if i == n {
      assert k in KeysOf(prefix);
      GroupEmpty(prefix, k);
      AppendedIntoTail(prefix, slices[n]);
    } else {
      assert prefix[i] == slices[i];
      assert !FirstOfKey(prefix, i);
      LaterInGroupTail(prefix, i);
      TailKept(prefix, slices[n], k, slices[i]);
    }
  }

  /** Every slice in the tail of a group is, at some index, a slice that is not the first with its key. */
  lemma {:induction false} GroupTailNotFirst(slices: seq<EndpointSlice>, k: PortMapKey, s: EndpointSlice)
    requires Group(slices, k) != [] && s in Group(slices, k)[1..]
    ensures exists i | 0 <= i < |slices| :: slices[i] == s && KeyOf(s) == k && !FirstOfKey(slices, i)
    decreases |slices|
  {
    var n := |slices| - 1;
    var prefix := slices[..n];
    var g := Group(prefix, k);
    if g != [] && s in g[1..] {
      GroupTailNotFirst(prefix, k, s);
      var i :| 0 <= i < n && prefix[i] == s && KeyOf(s) == k && !FirstOfKey(prefix, i);
      var j :| 0 <= j < i && KeyOf(prefix[j]) == KeyOf(prefix[i]);
      assert prefix[j] == slices[j] && prefix[i] == slices[i];
    } else {
      assert Group(slices, k) == g + [slices[n]];
      assert g != [];
      assert s == slices[n];
      var t := g[0];
      assert t in prefix && KeyOf(t) == k;
      var j :| 0 <= j < n && prefix[j] == t;
      assert slices[j] == t;
    }
  }
}
