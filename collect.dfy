/**
 * The first phase of a reconcile pass: every subset of an Endpoints
 * resource is fed, in order, to a fresh calculator of the desired state.
 */
module Collection {
  import opened Discovery
  import opened DesiredState
  import opened Reconciler

  lemma SubsetStep(subsets: seq<EndpointSubset>, i: nat, max: int, validate: Validator)
    requires i < |subsets|
    ensures DesiredOf(subsets[..i + 1], max, validate) == AddSubset(DesiredOf(subsets[..i], max, validate), subsets[i], max, validate)
    ensures Events(subsets[..i + 1], max, validate) ==
      Events(subsets[..i], max, validate) + SubsetEvents(subsets[i], max, validate)
    ensures PortsOf(subsets[..i + 1]) == RegisterPorts(PortsOf(subsets[..i]), subsets[i].ports)
  {
    assert subsets[..i + 1][..i] == subsets[..i];
  }

  /** `desired`, `events` and the recorded `portsByKey` are what the subsets `subsets` give, added in order. */
  ghost predicate Collected(desired: Desired, events: seq<Event>, portsByKey: map<PortMapKey, seq<EndpointPort>>,
                            subsets: seq<EndpointSubset>, max: int, validate: Validator) {
    desired == DesiredOf(subsets, max, validate) && events == Events(subsets, max, validate) && portsByKey == PortsOf(subsets)
  }

  /** Feeds subset `i` to the calculator and records its warning, if any. */
  method CollectStep(d: DesiredCalc, events: seq<Event>, subsets: seq<EndpointSubset>, i: nat, max: int, validate: Validator)
    returns (events': seq<Event>, next: nat)
    requires i < |subsets| && d.Valid() && Collected(d.desired, events, d.portsByKey, subsets[..i], max, validate)
    modifies d, d.Repr
    ensures d.Valid() && fresh(d.Repr - old(d.Repr))
    ensures next == i + 1 && Collected(d.desired, events', d.portsByKey, subsets[..next], max, validate)
  {
    SubsetStep(subsets, i, max, validate);
    var numInvalid := MirrorSubset(d, subsets[i], max, validate);
    events' := events;
    if numInvalid > 0 {
      events' := events + [InvalidIPAddress(numInvalid)];
    }
    next := i + 1;
  }

  /**
   * Feeds every subset to a new calculator, in order, and records one
   * warning for each subset that had invalid addresses.
   */
  method CollectDesired(subsets: seq<EndpointSubset>, max: int, validate: Validator) returns (d: DesiredCalc, events: seq<Event>)
    ensures fresh(d) && fresh(d.Repr) && d.Valid()
    ensures Collected(d.desired, events, d.portsByKey, subsets, max, validate)
  {
    d := new DesiredCalc();
    events := [];
    var i := 0;
    ghost var desired, portsByKey := d.desired, d.portsByKey;
    while i < |subsets|
      invariant 0 <= i <= |subsets|
      invariant fresh(d)
      invariant fresh(d.Repr)
      invariant d.Valid() && d.desired == desired && d.portsByKey == portsByKey
      invariant Collected(desired, events, portsByKey, subsets[..i], max, validate)
    {
      events, i := CollectStep(d, events, subsets, i, max, validate);
      desired, portsByKey := d.desired, d.portsByKey;
    }
    assert subsets[..i] == subsets;
  }
}
