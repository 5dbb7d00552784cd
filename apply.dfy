/**
 * Applying a plan: the creates, updates and deletes sent to the API store,
 * the tracker of slice resource versions they keep up to date, and the
 * errors they collect. The store is an oracle that answers each call for
 * each item; the calls made are returned as a log.
 */
module Apply {
  import opened Discovery
  import opened Recycling

  datatype StoreError = NamespaceTerminating | Failure(reason: string)

  datatype WriteResult = Written(slice: EndpointSlice) | WriteFailed(err: StoreError)

  /** The store's answer to every create, update and delete (by name) it may receive. */
  datatype Store = Store(
    create: EndpointSlice -> WriteResult,
    update: EndpointSlice -> WriteResult,
    delete: string -> Option<StoreError>)

  datatype StoreCall = CreateCall(slice: EndpointSlice) | UpdateCall(slice: EndpointSlice) | DeleteCall(name: string)

  /** One failure collected while applying a plan. */
  datatype FinalizeError =
    | CreateError(err: StoreError)
    | UpdateError(name: string, err: StoreError)
    | DeleteError(name: string, err: StoreError)

  /** Last-seen resource version of each slice, by slice name. */
  type Generations = map<string, nat>

  /** Records the resource version of each slice this controller last wrote. */
  class EndpointSliceTracker {
    var generations: Generations

    constructor ()
      ensures generations == map[]
    {
      generations := map[];
    }

    /** Records or refreshes the version of a slice the store returned. */
    method Update(s: EndpointSlice)
      modifies this
      ensures generations == old(generations)[s.name := s.resourceVersion]
    {
      generations := generations[s.name := s.resourceVersion];
    }

    /** Stops tracking a deleted slice. */
    method Delete(s: EndpointSlice)
      modifies this
      ensures generations == old(generations) - {s.name}
    {
      generations := generations - {s.name};
    }
  }

  function CreateCalls(ss: seq<EndpointSlice>): seq<StoreCall> {
    seq(|ss|, i requires 0 <= i < |ss| => CreateCall(ss[i]))
  }

  function UpdateCalls(ss: seq<EndpointSlice>): seq<StoreCall> {
    seq(|ss|, i requires 0 <= i < |ss| => UpdateCall(ss[i]))
  }

  function DeleteCalls(ss: seq<EndpointSlice>): seq<StoreCall> {
    seq(|ss|, i requires 0 <= i < |ss| => DeleteCall(ss[i].name))
  }

  /** The log, the collected errors and the tracker while a plan is applied. */
  datatype Progress = Progress(calls: seq<StoreCall>, errs: seq<FinalizeError>, tracked: Generations)

  /** Creates `ss` in order, none of them answered with a terminating namespace. */
  function Creates(p: Progress, ss: seq<EndpointSlice>, store: Store): (r: Progress)
    ensures r.calls == p.calls + CreateCalls(ss)
    ensures r.errs == [] <==> p.errs == [] && forall s | s in ss :: store.create(s).Written?
    ensures forall n | n in p.tracked :: n in r.tracked
    ensures forall s | s in ss && store.create(s).Written? :: store.create(s).slice.name in r.tracked
    decreases |ss|
  {
    if ss == [] then p
    else
      var q := Creates(p, ss[..|ss| - 1], store);
      var s := ss[|ss| - 1];
      assert ss == ss[..|ss| - 1] + [s];
      assert CreateCalls(ss) == CreateCalls(ss[..|ss| - 1]) + [CreateCall(s)];
      match store.create(s)
      case Written(c) => Progress(q.calls + [CreateCall(s)], q.errs, q.tracked[c.name := c.resourceVersion])
      case WriteFailed(e) => Progress(q.calls + [CreateCall(s)], q.errs + [CreateError(e)], q.tracked)
  }

  function Updates(p: Progress, ss: seq<EndpointSlice>, store: Store): (r: Progress)
    ensures r.calls == p.calls + UpdateCalls(ss)
    ensures r.errs == [] <==> p.errs == [] && forall s | s in ss :: store.update(s).Written?
    ensures forall n | n in p.tracked :: n in r.tracked
    ensures forall s | s in ss && store.update(s).Written? :: store.update(s).slice.name in r.tracked
    decreases |ss|
  {
    if ss == [] then p
    else
      var q := Updates(p, ss[..|ss| - 1], store);
      var s := ss[|ss| - 1];
      assert ss == ss[..|ss| - 1] + [s];
      assert UpdateCalls(ss) == UpdateCalls(ss[..|ss| - 1]) + [UpdateCall(s)];
      match store.update(s)
      case Written(u) => Progress(q.calls + [UpdateCall(s)], q.errs, q.tracked[u.name := u.resourceVersion])
      case WriteFailed(e) => Progress(q.calls + [UpdateCall(s)], q.errs + [UpdateError(s.name, e)], q.tracked)
  }

  function Deletes(p: Progress, ss: seq<EndpointSlice>, store: Store): (r: Progress)
    ensures r.calls == p.calls + DeleteCalls(ss)
    ensures r.errs == [] <==> p.errs == [] && forall s | s in ss :: store.delete(s.name).None?
    ensures forall s | s in ss && store.delete(s.name).None? :: s.name !in r.tracked
    ensures forall n | n in r.tracked :: n in p.tracked && r.tracked[n] == p.tracked[n]
    ensures forall n | n in p.tracked && (forall s | s in ss :: s.name != n) :: n in r.tracked
    decreases |ss|
  {
    if ss == [] then p
    else
      var q := Deletes(p, ss[..|ss| - 1], store);
      var s := ss[|ss| - 1];
      assert ss == ss[..|ss| - 1] + [s];
      assert DeleteCalls(ss) == DeleteCalls(ss[..|ss| - 1]) + [DeleteCall(s.name)];
      match store.delete(s.name)
      case None => Progress(q.calls + [DeleteCall(s.name)], q.errs, q.tracked - {s.name})
      case Some(e) => Progress(q.calls + [DeleteCall(s.name)], q.errs + [DeleteError(s.name, e)], q.tracked)
  }

  /** The index of the first create the store refuses because the namespace is terminating. */
  function FirstTerminating(creates: seq<EndpointSlice>, store: Store): (r: Option<nat>)
    ensures r.Some? ==> r.value < |creates| && store.create(creates[r.value]) == WriteFailed(NamespaceTerminating)
    ensures r.Some? ==> forall j | 0 <= j < r.value :: store.create(creates[j]) != WriteFailed(NamespaceTerminating)
    ensures r.None? <==> forall s | s in creates :: store.create(s) != WriteFailed(NamespaceTerminating)
    decreases |creates|
  {
    if creates == [] then None
    else if store.create(creates[0]) == WriteFailed(NamespaceTerminating) then Some(0)
    else
      match FirstTerminating(creates[1..], store)
      case None => None
      case Some(i) => Some(i + 1)
  }

  /** The aggregate of the collected errors: none when nothing failed. */
  function NewAggregate(errs: seq<FinalizeError>): Option<seq<FinalizeError>> {
    if errs == [] then None else Some(errs)
  }

  datatype Outcome = Outcome(err: Option<seq<FinalizeError>>, calls: seq<StoreCall>, tracked: Generations)

  /**
   * Applying a recycled plan: the creates (skipped while the Endpoints is
   * being deleted), the updates and the deletes. A create refused because
   * the namespace is terminating ends everything at once, with no error.
   */
  function ApplySpec(deleting: bool, sl: SlicesByAction, store: Store, tracked: Generations): Outcome {
    var start := Progress([], [], tracked);
    var stop := if deleting then None else FirstTerminating(sl.toCreate, store);
    if stop.Some? then
      var p := Creates(start, sl.toCreate[..stop.value], store);
      Outcome(None, p.calls + [CreateCall(sl.toCreate[stop.value])], p.tracked)
    else
      var created := if deleting then start else Creates(start, sl.toCreate, store);
      var p := Deletes(Updates(created, sl.toUpdate, store), sl.toDelete, store);
      Outcome(NewAggregate(p.errs), p.calls, p.tracked)
  }

  /** A terminating create after only non-terminating ones is the first one. */
  lemma FirstTerminatingAt(creates: seq<EndpointSlice>, store: Store, i: nat)
    requires i < |creates| && store.create(creates[i]) == WriteFailed(NamespaceTerminating)
    requires forall j | 0 <= j < i :: store.create(creates[j]) != WriteFailed(NamespaceTerminating)
    ensures FirstTerminating(creates, store) == Some(i)
  {
    assert creates[i] in creates;
  }

  lemma NoneTerminating(creates: seq<EndpointSlice>, store: Store)
    requires forall j | 0 <= j < |creates| :: store.create(creates[j]) != WriteFailed(NamespaceTerminating)
    ensures FirstTerminating(creates, store) == None
  {
    forall s | s in creates
      ensures store.create(s) != WriteFailed(NamespaceTerminating)
    {
      var j :| 0 <= j < |creates| && creates[j] == s;
    }
  }

  /** Sends the creates in order until one is refused because the namespace is terminating. */
  method CreateAll(creates: seq<EndpointSlice>, store: Store, tracker: EndpointSliceTracker, p: Progress)
    returns (calls: seq<StoreCall>, errs: seq<FinalizeError>, stopped: bool)
    requires p.tracked == tracker.generations
    modifies tracker
    ensures stopped <==> FirstTerminating(creates, store).Some?
    ensures stopped ==>
      var q := Creates(p, creates[..FirstTerminating(creates, store).value], store);
      calls == q.calls + [CreateCall(creates[FirstTerminating(creates, store).value])] && tracker.generations == q.tracked
    ensures !stopped ==> Progress(calls, errs, tracker.generations) == Creates(p, creates, store)
  {
    calls, errs := p.calls, p.errs;
    var i := 0;
    while i < |creates|
      invariant 0 <= i <= |creates|
      invariant forall j | 0 <= j < i :: store.create(creates[j]) != WriteFailed(NamespaceTerminating)
      invariant Progress(calls, errs, tracker.generations) == Creates(p, creates[..i], store)
    {
      var endpointSlice := creates[i];
      assert creates[..i + 1][..i] == creates[..i];
      calls := calls + [CreateCall(endpointSlice)];
      match store.create(endpointSlice) {
      case WriteFailed(e) =>
        if e == NamespaceTerminating {
          FirstTerminatingAt(creates, store, i);
          return calls, errs, true;
        }
        errs := errs + [CreateError(e)];
      case Written(createdSlice) =>
        tracker.Update(createdSlice);
      }
      i := i + 1;
    }
    assert creates[..i] == creates;
    NoneTerminating(creates, store);
    stopped := false;
  }

  method UpdateAll(updates: seq<EndpointSlice>, store: Store, tracker: EndpointSliceTracker, p: Progress)
    returns (calls: seq<StoreCall>, errs: seq<FinalizeError>)
    requires p.tracked == tracker.generations
    modifies tracker
    ensures Progress(calls, errs, tracker.generations) == Updates(p, updates, store)
  {
    calls, errs := p.calls, p.errs;
    var i := 0;
    while i < |updates|
      invariant 0 <= i <= |updates|
      invariant Progress(calls, errs, tracker.generations) == Updates(p, updates[..i], store)
    {
      var endpointSlice := updates[i];
      assert updates[..i + 1][..i] == updates[..i];
      calls := calls + [UpdateCall(endpointSlice)];
      match store.update(endpointSlice) {
      case WriteFailed(e) =>
        errs := errs + [UpdateError(endpointSlice.name, e)];
      case Written(updatedSlice) =>
        tracker.Update(updatedSlice);
      }
      i := i + 1;
    }
    assert updates[..i] == updates;
  }

  method DeleteAll(deletes: seq<EndpointSlice>, store: Store, tracker: EndpointSliceTracker, p: Progress)
    returns (calls: seq<StoreCall>, errs: seq<FinalizeError>)
    requires p.tracked == tracker.generations
    modifies tracker
    ensures Progress(calls, errs, tracker.generations) == Deletes(p, deletes, store)
  {
    calls, errs := p.calls, p.errs;
    var i := 0;
    while i < |deletes|
      invariant 0 <= i <= |deletes|
      invariant Progress(calls, errs, tracker.generations) == Deletes(p, deletes[..i], store)
    {
      var endpointSlice := deletes[i];
      assert deletes[..i + 1][..i] == deletes[..i];
      calls := calls + [DeleteCall(endpointSlice.name)];
      match store.delete(endpointSlice.name) {
      case Some(e) =>
        errs := errs + [DeleteError(endpointSlice.name, e)];
      case None =>
        tracker.Delete(endpointSlice);
      }
      i := i + 1;
    }
    assert deletes[..i] == deletes;
  }

  /** Recycles the plan, then creates, updates and deletes its slices, collecting failures. */
  method Finalize(endpoints: Endpoints, slices: SlicesByAction, store: Store, tracker: EndpointSliceTracker)
    returns (err: Option<seq<FinalizeError>>, calls: seq<StoreCall>)
    modifies tracker
    ensures Outcome(err, calls, tracker.generations) ==
      ApplySpec(endpoints.deletionTimestampSet, Recycle(slices), store, old(tracker.generations))
  {
    var sl := Recycle(slices);
    var errs: seq<FinalizeError> := [];
    calls := [];
    if !endpoints.deletionTimestampSet {
      var stopped;
      calls, errs, stopped := CreateAll(sl.toCreate, store, tracker, Progress(calls, errs, tracker.generations));
      if stopped {
        return None, calls;
      }
    }
    calls, errs := UpdateAll(sl.toUpdate, store, tracker, Progress(calls, errs, tracker.generations));
    calls, errs := DeleteAll(sl.toDelete, store, tracker, Progress(calls, errs, tracker.generations));
    err := NewAggregate(errs);
  }

  // ---------------------------------------------------------------------
  // What applying a plan guarantees
  // ---------------------------------------------------------------------

  /** While the Endpoints is being deleted no create is sent. */
  lemma NoCreateWhileDeleting(sl: SlicesByAction, store: Store, tracked: Generations)
    ensures forall c | c in ApplySpec(true, sl, store, tracked).calls :: !c.CreateCall?
  {
    var u := Updates(Progress([], [], tracked), sl.toUpdate, store);
    assert ApplySpec(true, sl, store, tracked).calls == UpdateCalls(sl.toUpdate) + DeleteCalls(sl.toDelete);
  }

  /**
   * A create refused because the namespace is terminating ends the pass
   * without an error: the creates before it were sent, nothing after it.
   */
  lemma TerminatingCreateStopsEverything(deleting: bool, sl: SlicesByAction, store: Store, tracked: Generations, i: nat)
    requires !deleting
    requires i < |sl.toCreate|
    requires store.create(sl.toCreate[i]) == WriteFailed(NamespaceTerminating)
    requires forall j | 0 <= j < i :: store.create(sl.toCreate[j]) != WriteFailed(NamespaceTerminating)
    ensures ApplySpec(deleting, sl, store, tracked).err == None
    ensures ApplySpec(deleting, sl, store, tracked).calls == CreateCalls(sl.toCreate[..i + 1])
  {
    var creates := sl.toCreate;
    var stop := FirstTerminating(creates, store);
    assert stop == Some(i);
    assert CreateCalls(creates[..i + 1]) == CreateCalls(creates[..i]) + [CreateCall(creates[i])];
  }

  /** Without a terminating namespace every create (unless deleting), update and delete is sent, in that order. */
  lemma EveryItemAttempted(deleting: bool, sl: SlicesByAction, store: Store, tracked: Generations)
    requires deleting || FirstTerminating(sl.toCreate, store).None?
    ensures ApplySpec(deleting, sl, store, tracked).calls ==
        (if deleting then [] else CreateCalls(sl.toCreate)) + UpdateCalls(sl.toUpdate) + DeleteCalls(sl.toDelete)
  {
  }

  /** The result is an error exactly when some call that was sent failed. */
  lemma ErrorIffSomeFailure(deleting: bool, sl: SlicesByAction, store: Store, tracked: Generations)
    requires deleting || FirstTerminating(sl.toCreate, store).None?
    ensures ApplySpec(deleting, sl, store, tracked).err.None? <==>
        (deleting || forall s | s in sl.toCreate :: store.create(s).Written?) &&
        (forall s | s in sl.toUpdate :: store.update(s).Written?) &&
        (forall s | s in sl.toDelete :: store.delete(s.name).None?)
  {
  }

  /**
   * After a full pass the tracker no longer holds a slice whose delete
   * succeeded, and holds every slice written by a successful create or
   * update unless a slice of that name was then deleted.
   */
  lemma TrackerFollowsWrites(deleting: bool, sl: SlicesByAction, store: Store, tracked: Generations)
    requires deleting || FirstTerminating(sl.toCreate, store).None?
    ensures var after := ApplySpec(deleting, sl, store, tracked).tracked;
      (forall s | s in sl.toDelete && store.delete(s.name).None? :: s.name !in after) &&
      (forall s | s in sl.toUpdate && store.update(s).Written? && (forall d | d in sl.toDelete :: d.name != store.update(s).slice.name) ::
         store.update(s).slice.name in after) &&
      (forall s | !deleting && s in sl.toCreate && store.create(s).Written? && (forall d | d in sl.toDelete :: d.name != store.create(s).slice.name) ::
         store.create(s).slice.name in after)
  {
  }

  // ---------------------------------------------------------------------
  // Deleting every slice of an Endpoints that is gone
  // ---------------------------------------------------------------------

  /** The errors the store answers to deleting `ss`, in order. */
  function DeleteFailures(ss: seq<EndpointSlice>, store: Store): (r: seq<StoreError>)
    ensures |r| <= |ss|
    ensures r == [] <==> forall s | s in ss :: store.delete(s.name).None?
    decreases |ss|
  {
    if ss == [] then []
    else
      var s := ss[|ss| - 1];
      assert ss == ss[..|ss| - 1] + [s];
      DeleteFailures(ss[..|ss| - 1], store) + (match store.delete(s.name) case None => [] case Some(e) => [e])
  }

  /** The failures are reported in order: the first one is the answer to the earliest failing delete. */
  lemma {:induction false} FirstFailureIsEarliest(ss: seq<EndpointSlice>, store: Store, i: nat)
    requires i < |ss| && store.delete(ss[i].name).Some?
    requires forall j | 0 <= j < i :: store.delete(ss[j].name).None?
    ensures DeleteFailures(ss, store) != [] && DeleteFailures(ss, store)[0] == store.delete(ss[i].name).value
    decreases |ss|
  {
    var n := |ss| - 1;
    if i < n {
      assert ss[..n][i] == ss[i];
      assert forall j | 0 <= j < i :: ss[..n][j] == ss[j];
      FirstFailureIsEarliest(ss[..n], store, i);
    } else {
      var prefix := ss[..n];
      assert forall s | s in prefix :: store.delete(s.name).None?;
    }
  }

  datatype DeleteEndpointsError = DeleteEndpointsError(failed: nat, total: nat, first: StoreError)

  /**
   * Deletes every given slice, whatever the earlier deletes answered, and
   * reports how many of them failed, out of how many, and the first failure.
   */
  method DeleteEndpoints(endpointSlices: seq<EndpointSlice>, store: Store)
    returns (err: Option<DeleteEndpointsError>, calls: seq<StoreCall>)
    ensures calls == DeleteCalls(endpointSlices)
    ensures err.None? <==> forall s | s in endpointSlices :: store.delete(s.name).None?
    ensures err.Some? ==>
      err.value.total == |endpointSlices| && 0 < err.value.failed <= |endpointSlices| &&
      err.value.failed == |DeleteFailures(endpointSlices, store)| &&
      err.value.first == DeleteFailures(endpointSlices, store)[0]
  {
    var errs: seq<StoreError> := [];
    calls := [];
    var i := 0;
    while i < |endpointSlices|
      invariant 0 <= i <= |endpointSlices|
      invariant errs == DeleteFailures(endpointSlices[..i], store)
      invariant calls == DeleteCalls(endpointSlices[..i])
    {
      var endpointSlice := endpointSlices[i];
      assert endpointSlices[..i + 1][..i] == endpointSlices[..i];
      calls := calls + [DeleteCall(endpointSlice.name)];
      var e := store.delete(endpointSlice.name);
      if e.Some? {
        errs := errs + [e.value];
      }
      i := i + 1;
    }
    assert endpointSlices[..i] == endpointSlices;
    if |errs| > 0 {
      return Some(DeleteEndpointsError(|errs|, |endpointSlices|, errs[0])), calls;
    }
    err := None;
  }
}
