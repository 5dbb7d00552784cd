/**
 * The diff between the endpoints of an existing slice and a desired
 * endpoint set: how many endpoints a rewrite would add, update and remove.
 */
module Changes {
  import opened Discovery
  import opened EndpointSets

  /** How many endpoints of `eps` have their hash among the desired ones. */
  function Matches(eps: seq<Endpoint>, desired: map<EndpointHash, Endpoint>): (n: nat)
    ensures n <= |eps|
    decreases |eps|
  {
    if eps == [] then 0
    else Matches(eps[..|eps| - 1], desired) + (if HashOf(eps[|eps| - 1]) in desired then 1 else 0)
  }

  /** How many matched endpoints differ from their desired version in a field the hash leaves out. */
  function Mismatches(eps: seq<Endpoint>, desired: map<EndpointHash, Endpoint>): (n: nat)
    ensures n <= Matches(eps, desired)
    decreases |eps|
  {
    if eps == [] then 0
    else
      var e := eps[|eps| - 1];
      Mismatches(eps[..|eps| - 1], desired) +
      (if HashOf(e) in desired && !EqualBeyondHash(desired[HashOf(e)], e) then 1 else 0)
  }

  /**
   * The changes a slice holding `eps` needs to hold the desired endpoints:
   * desired endpoints without a match are added, matches that differ are
   * updated, endpoints without a match are removed.
   */
  function ChangesFor(eps: seq<Endpoint>, desired: map<EndpointHash, Endpoint>): TotalsByAction {
    var m := Matches(eps, desired);
    TotalsByAction(|desired| - m, Mismatches(eps, desired), |eps| - m)
  }

  /** The diff of one existing slice against the desired set, counted endpoint by endpoint. */
  method TotalChanges(existingSlice: EndpointSlice, desiredSet: EndpointSet) returns (totals: TotalsByAction)
    ensures totals == ChangesFor(existingSlice.endpoints, desiredSet.items)
    ensures totals.removed + Matches(existingSlice.endpoints, desiredSet.items) == |existingSlice.endpoints|
    ensures 0 <= totals.updated <= Matches(existingSlice.endpoints, desiredSet.items)
    ensures totals.added == desiredSet.Len() - Matches(existingSlice.endpoints, desiredSet.items)
  {
    var eps := existingSlice.endpoints;
    totals := NoChanges;
    var existingMatches := 0;
    var i := 0;
    while i < |eps|
      invariant 0 <= i <= |eps|
      invariant existingMatches == Matches(eps[..i], desiredSet.items)
      invariant totals == TotalsByAction(0, Mismatches(eps[..i], desiredSet.items), i - existingMatches)
    {
      var endpoint := eps[i];
      var got := desiredSet.Get(endpoint);
      if got.None? {
        totals := totals.(removed := totals.removed + 1);
      } else {
        existingMatches := existingMatches + 1;
        if !EqualBeyondHash(got.value, endpoint) {
          totals := totals.(updated := totals.updated + 1);
        }
      }
      assert eps[..i + 1][..i] == eps[..i];
      i := i + 1;
    }
    assert eps[..i] == eps;
    totals := totals.(added := desiredSet.Len() - existingMatches);
  }

  // ---------------------------------------------------------------------
  // What the counts mean
  // ---------------------------------------------------------------------

  /** The endpoints `eps` are exactly the desired endpoints. */
  ghost predicate InSync(eps: seq<Endpoint>, desired: map<EndpointHash, Endpoint>) {
    (forall e | e in eps :: HashOf(e) in desired && desired[HashOf(e)] == e) &&
    (forall h | h in desired :: desired[h] in eps)
  }

  function HashSet(eps: seq<Endpoint>): set<EndpointHash> {
    set e | e in eps :: HashOf(e)
  }

  lemma {:induction false} HashSetSize(eps: seq<Endpoint>)
    requires DistinctHashes(eps)
    ensures |HashSet(eps)| == |eps|
    decreases |eps|
  {
    if eps != [] {
      var n := |eps| - 1;
      HashSetSize(eps[..n]);
      assert eps == eps[..n] + [eps[n]];
      assert HashSet(eps) == HashSet(eps[..n]) + {HashOf(eps[n])};
      assert HashOf(eps[n]) !in HashSet(eps[..n]);
    }
  }

  lemma {:induction false} SubsetSize<T>(a: set<T>, b: set<T>)
    requires a <= b
    ensures |a| <= |b|
    ensures |a| == |b| ==> a == b
    decreases a
  {
    if a != {} {
      var x :| x in a;
      SubsetSize(a - {x}, b - {x});
    } else if b != {} {
      var y :| y in b;
      assert |b| >= 1;
    }
  }

  lemma {:induction false} MatchesAll(eps: seq<Endpoint>, desired: map<EndpointHash, Endpoint>)
    ensures Matches(eps, desired) == |eps| <==> forall e | e in eps :: HashOf(e) in desired
    decreases |eps|
  {
    if eps != [] {
      var n := |eps| - 1;
      MatchesAll(eps[..n], desired);
      assert eps == eps[..n] + [eps[n]];
    }
  }

  lemma {:induction false} NoMismatches(eps: seq<Endpoint>, desired: map<EndpointHash, Endpoint>)
    ensures Mismatches(eps, desired) == 0 <==>
      forall e | e in eps && HashOf(e) in desired :: EqualBeyondHash(desired[HashOf(e)], e)
    decreases |eps|
  {
    if eps != [] {
      var n := |eps| - 1;
      NoMismatches(eps[..n], desired);
      assert eps == eps[..n] + [eps[n]];
    }
  }

  /** Two endpoints with the same hash that agree beyond it are the same endpoint. */
  lemma SameEndpoint(a: Endpoint, b: Endpoint)
    requires HashOf(a) == HashOf(b) && EqualBeyondHash(a, b)
    ensures a == b
  {
  }

  /** A duplicate-free list of desired endpoints as long as the desired set is the whole set. */
  lemma InSyncByCount(eps: seq<Endpoint>, desired: map<EndpointHash, Endpoint>)
    requires DistinctHashes(eps)
    requires forall e | e in eps :: HashOf(e) in desired && desired[HashOf(e)] == e
    requires |eps| == |desired|
    ensures InSync(eps, desired)
  {
    HashSetSize(eps);
    assert HashSet(eps) <= desired.Keys;
    SubsetSize(HashSet(eps), desired.Keys);
    forall h | h in desired
      ensures desired[h] in eps
    {
      assert h in HashSet(eps);
      var e :| e in eps && HashOf(e) == h;
    }
  }

  /**
   * For a slice without duplicate hashes, the diff is empty exactly when the
   * slice already holds the desired endpoints: the no-op path of the
   * reconciler fires when, and only when, there is nothing to write.
   */
  lemma NoChangesIffInSync(eps: seq<Endpoint>, desired: map<EndpointHash, Endpoint>)
    requires DistinctHashes(eps) && WellKeyed(desired)
    ensures ChangesFor(eps, desired) == NoChanges <==> InSync(eps, desired)
  {
    MatchesAll(eps, desired);
    NoMismatches(eps, desired);
    HashSetSize(eps);
    if ChangesFor(eps, desired) == NoChanges {
      forall e | e in eps
        ensures desired[HashOf(e)] == e
      {
        SameEndpoint(desired[HashOf(e)], e);
      }
      InSyncByCount(eps, desired);
    }
    if InSync(eps, desired) {
      assert HashSet(eps) <= desired.Keys;
      assert desired.Keys <= HashSet(eps) by {
        forall h | h in desired
          ensures h in HashSet(eps)
        {
          assert desired[h] in eps && HashOf(desired[h]) == h;
        }
      }
      assert HashSet(eps) == desired.Keys;
      assert |desired.Keys| == |desired|;
      assert Matches(eps, desired) == |eps|;
      forall e | e in eps && HashOf(e) in desired
        ensures EqualBeyondHash(desired[HashOf(e)], e)
      {
      }
      assert Mismatches(eps, desired) == 0;
    }
  }

  lemma HashSetSnoc(eps: seq<Endpoint>)
    requires eps != []
    ensures HashSet(eps) == HashSet(eps[..|eps| - 1]) + {HashOf(eps[|eps| - 1])}
  {
    assert eps == eps[..|eps| - 1] + [eps[|eps| - 1]];
  }

  lemma {:induction false} MatchedHashes(eps: seq<Endpoint>, desired: map<EndpointHash, Endpoint>)
    requires DistinctHashes(eps)
    ensures Matches(eps, desired) == |HashSet(eps) * desired.Keys|
    decreases |eps|
  {
    if eps != [] {
      var n := |eps| - 1;
      var prefix := eps[..n];
      var h := HashOf(eps[n]);
      MatchedHashes(prefix, desired);
      HashSetSnoc(eps);
      assert h !in HashSet(prefix);
      var before := HashSet(prefix) * desired.Keys;
      assert Matches(eps, desired) == Matches(prefix, desired) + (if h in desired then 1 else 0);
      if h in desired {
        assert HashSet(eps) * desired.Keys == before + {h};
        assert |before + {h}| == |before| + 1;
      } else {
        assert HashSet(eps) * desired.Keys == before;
      }
    }
  }

  /** With distinct hashes in the existing slice, the number of endpoints to add is never negative. */
  lemma AddedNonNegative(eps: seq<Endpoint>, desired: map<EndpointHash, Endpoint>)
    requires DistinctHashes(eps)
    ensures 0 <= ChangesFor(eps, desired).added <= |desired|
  {
    MatchedHashes(eps, desired);
    SubsetSize(HashSet(eps) * desired.Keys, desired.Keys);
  }

  /**
   * Without distinct hashes the counts lose their meaning: a slice listing
   * one endpoint twice looks unchanged against a desired set of two, and
   * against a desired set of one it asks for -1 additions.
   */
  lemma DuplicateHashesSkewCounts()
    ensures var a := Endpoint("10.0.0.1", "", true, "", "");
            var b := Endpoint("10.0.0.2", "", true, "", "");
            var twoDesired := map[HashOf(a) := a, HashOf(b) := b];
            ChangesFor([a, a], twoDesired) == NoChanges && !InSync([a, a], twoDesired) &&
            ChangesFor([a, a], map[HashOf(a) := a]).added == -1
  {
    var a := Endpoint("10.0.0.1", "", true, "", "");
    var b := Endpoint("10.0.0.2", "", true, "", "");
    var twoDesired := map[HashOf(a) := a, HashOf(b) := b];
    assert HashOf(a) != HashOf(b);
    assert [a, a][..1] == [a];
    assert Matches([a], twoDesired) == 1;
    assert Mismatches([a], twoDesired) == 0;
    assert Matches([a], map[HashOf(a) := a]) == 1;
    assert twoDesired[HashOf(b)] !in [a, a];
  }

  // ---------------------------------------------------------------------
  // The slice the reconciler builds, and why a second pass leaves it alone
  // ---------------------------------------------------------------------

  /**
   * `s` holds min(|desired|, max) distinct desired endpoints, each exactly as
   * desired: what draining the desired set into a capped slice produces.
   */
  ghost predicate PlannedFrom(s: EndpointSlice, desired: map<EndpointHash, Endpoint>, max: int) {
    |s.endpoints| == Cap(max, |desired|) &&
    DistinctHashes(s.endpoints) &&
    forall e | e in s.endpoints :: HashOf(e) in desired && desired[HashOf(e)] == e
  }

  /**
   * Idempotence: once the planned slice is written, diffing it against the
   * same desired endpoints finds nothing to do, provided they fit under the cap.
   */
  lemma PlannedSliceIsStable(s: EndpointSlice, desired: map<EndpointHash, Endpoint>, max: int)
    requires PlannedFrom(s, desired, max) && WellKeyed(desired)
    requires |desired| <= max
    ensures ChangesFor(s.endpoints, desired) == NoChanges
  {
    InSyncByCount(s.endpoints, desired);
    NoChangesIffInSync(s.endpoints, desired);
  }

  /** Past the cap the planned slice misses desired endpoints, and the next pass rewrites it again. */
  lemma OverCapNeverStable(s: EndpointSlice, desired: map<EndpointHash, Endpoint>, max: int)
    requires PlannedFrom(s, desired, max)
    requires 0 < |desired| && max < |desired|
    ensures ChangesFor(s.endpoints, desired).added > 0
  {
    assert |s.endpoints| < |desired|;
    assert Matches(s.endpoints, desired) <= |s.endpoints|;
  }
}
