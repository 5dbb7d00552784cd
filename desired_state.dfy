/**
 * The desired state computed from the subsets of a legacy Endpoints
 * resource: for every port-map key, the endpoints that should be mirrored.
 * The specification functions describe the result as a value; the class
 * DesiredCalc builds it in place, one subset and one address at a time.
 */
module DesiredState {
  import opened Discovery
  import opened EndpointSets

  /** Classifies an IP string: its family, or None when it is not a valid IP. */
  type Validator = string -> Option<AddressType>

  /** Desired endpoints, per port-map key, keyed by endpoint hash. */
  type Desired = map<PortMapKey, map<EndpointHash, Endpoint>>

  /** The keys one subset's ports give in each address family. */
  datatype MultiKey = MultiKey(v4: PortMapKey, v6: PortMapKey) {
    function ForType(t: AddressType): PortMapKey {
      match t
      case IPv4 => v4
      case IPv6 => v6
    }
  }

  function MultiKeyOf(ports: seq<EndpointPort>): MultiKey {
    MultiKey(NewAddrTypePortMapKey(ports, IPv4), NewAddrTypePortMapKey(ports, IPv6))
  }

  /** An address offered to the calculator, with the readiness it is offered with. */
  datatype Offer = Offer(address: EndpointAddress, ready: bool)

  function Offers(s: EndpointSubset): seq<Offer> {
    seq(|s.addresses|, i requires 0 <= i < |s.addresses| => Offer(s.addresses[i], true)) +
    seq(|s.notReadyAddresses|, i requires 0 <= i < |s.notReadyAddresses| => Offer(s.notReadyAddresses[i], false))
  }

  /**
   * The addresses of a subset that reach the calculator: the ready ones, then
   * the not-ready ones, cut off after `max` of them (valid or not).
   */
  function Offered(s: EndpointSubset, max: int): (r: seq<Offer>)
    ensures |r| == Cap(max, |s.addresses| + |s.notReadyAddresses|)
    ensures forall i | 0 <= i < |r| && i < |s.addresses| :: r[i] == Offer(s.addresses[i], true)
    ensures forall i | |s.addresses| <= i < |r| :: r[i] == Offer(s.notReadyAddresses[i - |s.addresses|], false)
  {
    Offers(s)[..Cap(max, |Offers(s)|)]
  }

  function RegisterKey(d: Desired, k: PortMapKey): Desired {
    if k in d then d else d[k := map[]]
  }

  /** The desired state after a subset's ports are registered: both keys exist, nothing else changes. */
  function Register(d: Desired, ports: seq<EndpointPort>): (r: Desired)
    ensures r.Keys == d.Keys + {MultiKeyOf(ports).v4, MultiKeyOf(ports).v6}
    ensures forall k | k in d :: r[k] == d[k]
    ensures forall k | k in r && k !in d :: r[k] == map[]
  {
    var mk := MultiKeyOf(ports);
    RegisterKey(RegisterKey(d, mk.v4), mk.v6)
  }

  /** One offered address: an invalid IP changes nothing, a valid one is inserted under its family's key. */
  function AddOne(d: Desired, mk: MultiKey, o: Offer, validate: Validator): Desired
    requires mk.v4 in d && mk.v6 in d
  {
    match validate(o.address.ip)
    case None => d
    case Some(t) =>
      var k := mk.ForType(t);
      d[k := InsertFirst(d[k], AddressToEndpoint(o.address, o.ready))]
  }

  function AddAll(d: Desired, mk: MultiKey, offers: seq<Offer>, validate: Validator): (r: Desired)
    requires mk.v4 in d && mk.v6 in d
    ensures r.Keys == d.Keys
    decreases |offers|
  {
    if offers == [] then d
    else AddOne(AddAll(d, mk, offers[..|offers| - 1], validate), mk, offers[|offers| - 1], validate)
  }

  /** How many of the offers carry an invalid IP. */
  function InvalidCount(offers: seq<Offer>, validate: Validator): (n: nat)
    ensures n <= |offers|
    decreases |offers|
  {
    if offers == [] then 0
    else
      InvalidCount(offers[..|offers| - 1], validate) +
      (if validate(offers[|offers| - 1].address.ip).None? then 1 else 0)
  }

  function AddSubset(d: Desired, s: EndpointSubset, max: int, validate: Validator): Desired {
    AddAll(Register(d, s.ports), MultiKeyOf(s.ports), Offered(s, max), validate)
  }

  /** The desired state of a whole Endpoints resource: its subsets added in order. */
  function DesiredOf(subsets: seq<EndpointSubset>, max: int, validate: Validator): Desired
    decreases |subsets|
  {
    if subsets == [] then map[]
    else AddSubset(DesiredOf(subsets[..|subsets| - 1], max, validate), subsets[|subsets| - 1], max, validate)
  }

  /** The warning event raised for a subset that had invalid addresses. */
  datatype Event = InvalidIPAddress(skipped: nat)

  function SubsetEvents(s: EndpointSubset, max: int, validate: Validator): seq<Event> {
    var n := InvalidCount(Offered(s, max), validate);
    if n > 0 then [InvalidIPAddress(n)] else []
  }

  function Events(subsets: seq<EndpointSubset>, max: int, validate: Validator): seq<Event>
    decreases |subsets|
  {
    if subsets == [] then []
    else Events(subsets[..|subsets| - 1], max, validate) + SubsetEvents(subsets[|subsets| - 1], max, validate)
  }

  // ---------------------------------------------------------------------
  // Properties of the desired state
  // ---------------------------------------------------------------------

  /**
   * At most one warning per subset, each carrying a positive count of
   * skipped addresses that is no larger than the per-subset cap.
   */
  lemma {:induction false} EventsBounded(subsets: seq<EndpointSubset>, max: int, validate: Validator)
    ensures |Events(subsets, max, validate)| <= |subsets|
    ensures forall e | e in Events(subsets, max, validate) :: 0 < e.skipped <= max
  {
    if subsets != [] {
      EventsBounded(subsets[..|subsets| - 1], max, validate);
    }
  }

  /** Some subset's ports give `k` in `k`'s family. */
  ghost predicate RegisteredBy(subsets: seq<EndpointSubset>, k: PortMapKey) {
    exists i | 0 <= i < |subsets| :: k == NewAddrTypePortMapKey(subsets[i].ports, k.addressType)
  }

  lemma RegisteredByStep(subsets: seq<EndpointSubset>, k: PortMapKey)
    requires subsets != []
    ensures RegisteredBy(subsets, k) <==>
      RegisteredBy(subsets[..|subsets| - 1], k) || k in {MultiKeyOf(subsets[|subsets| - 1].ports).v4, MultiKeyOf(subsets[|subsets| - 1].ports).v6}
  {
    var n := |subsets| - 1;
    var mk := MultiKeyOf(subsets[n].ports);
    if k.addressType == IPv4 {
      assert k != mk.v6 && (k == mk.v4 <==> k == NewAddrTypePortMapKey(subsets[n].ports, k.addressType));
    } else {
      assert k != mk.v4 && (k == mk.v6 <==> k == NewAddrTypePortMapKey(subsets[n].ports, k.addressType));
    }
    if RegisteredBy(subsets, k) {
      var i :| 0 <= i < |subsets| && k == NewAddrTypePortMapKey(subsets[i].ports, k.addressType);
      if i < n {
        assert subsets[..n][i] == subsets[i];
      }
    }
    if RegisteredBy(subsets[..n], k) {
      var i :| 0 <= i < n && k == NewAddrTypePortMapKey(subsets[..n][i].ports, k.addressType);
      assert subsets[..n][i] == subsets[i];
    }
  }

  /** Every subset registers the keys of both families, and no other key is ever desired. */
  lemma {:induction false} DesiredKeys(subsets: seq<EndpointSubset>, max: int, validate: Validator, k: PortMapKey)
    ensures k in DesiredOf(subsets, max, validate) <==> RegisteredBy(subsets, k)
  {
    if subsets != [] {
      var n := |subsets| - 1;
      DesiredKeys(subsets[..n], max, validate, k);
      RegisteredByStep(subsets, k);
      var d := DesiredOf(subsets[..n], max, validate);
      assert DesiredOf(subsets, max, validate).Keys == Register(d, subsets[n].ports).Keys;
    }
  }

  /** An entry of the desired state, once present, is never replaced by a later offer (see AddAllFirstSeen for the entry itself). */
  lemma {:induction false} EntriesNeverReplaced(d: Desired, mk: MultiKey, offers: seq<Offer>, validate: Validator, k: PortMapKey, h: EndpointHash)
    requires mk.v4 in d && mk.v6 in d
    requires k in d && h in d[k]
    ensures h in AddAll(d, mk, offers, validate)[k]
    ensures AddAll(d, mk, offers, validate)[k][h] == d[k][h]
    decreases |offers|
  {
    if offers != [] {
      EntriesNeverReplaced(d, mk, offers[..|offers| - 1], validate, k, h);
    }
  }

  /** Desired entries sit under their own hash and carry an IP of their key's family. */
  ghost predicate Sound(d: Desired, validate: Validator) {
    forall k, h | k in d && h in d[k] :: HashOf(d[k][h]) == h && validate(d[k][h].address) == Some(k.addressType)
  }

  lemma {:induction false} AddAllSound(d: Desired, mk: MultiKey, offers: seq<Offer>, validate: Validator)
    requires mk.v4 in d && mk.v6 in d
    requires mk.v4.addressType == IPv4 && mk.v6.addressType == IPv6
    requires Sound(d, validate)
    ensures Sound(AddAll(d, mk, offers, validate), validate)
    decreases |offers|
  {
    if offers != [] {
      AddAllSound(d, mk, offers[..|offers| - 1], validate);
    }
  }

  /**
   * Every desired endpoint has a valid IP of its key's family and is stored
   * under its hash; addresses with an invalid IP are never desired.
   */
  lemma {:induction false} DesiredSound(subsets: seq<EndpointSubset>, max: int, validate: Validator)
    ensures Sound(DesiredOf(subsets, max, validate), validate)
    decreases |subsets|
  {
    if subsets != [] {
      var n := |subsets| - 1;
      DesiredSound(subsets[..n], max, validate);
      var mk := MultiKeyOf(subsets[n].ports);
      AddAllSound(Register(DesiredOf(subsets[..n], max, validate), subsets[n].ports), mk, Offered(subsets[n], max), validate);
    }
  }

  /** The endpoint record an offered address becomes. */
  function OfferEndpoint(o: Offer): Endpoint {
    AddressToEndpoint(o.address, o.ready)
  }

  /** Some subset whose ports give `k` offered, within its cap, the address that became `e`. */
  ghost predicate OfferedUnder(subsets: seq<EndpointSubset>, max: int, k: PortMapKey, e: Endpoint) {
    exists i, j | 0 <= i < |subsets| && 0 <= j < |Offered(subsets[i], max)| ::
      e == OfferEndpoint(Offered(subsets[i], max)[j]) && k == NewAddrTypePortMapKey(subsets[i].ports, k.addressType)
  }

  lemma OfferedUnderExtend(subsets: seq<EndpointSubset>, max: int, k: PortMapKey, e: Endpoint)
    requires subsets != [] && OfferedUnder(subsets[..|subsets| - 1], max, k, e)
    ensures OfferedUnder(subsets, max, k, e)
  {
    var n := |subsets| - 1;
    var i, j :| 0 <= i < n && 0 <= j < |Offered(subsets[..n][i], max)| &&
      e == OfferEndpoint(Offered(subsets[..n][i], max)[j]) && k == NewAddrTypePortMapKey(subsets[..n][i].ports, k.addressType);
    assert subsets[..n][i] == subsets[i];
  }

  lemma {:induction false} AddAllFromOffers(d: Desired, mk: MultiKey, offers: seq<Offer>, validate: Validator, k: PortMapKey, h: EndpointHash)
    requires mk.v4 in d && mk.v6 in d
    requires mk.v4.addressType == IPv4 && mk.v6.addressType == IPv6
    requires k in AddAll(d, mk, offers, validate) && h in AddAll(d, mk, offers, validate)[k]
    ensures (k in d && h in d[k] && AddAll(d, mk, offers, validate)[k][h] == d[k][h]) ||
            (exists j | 0 <= j < |offers| ::
               AddAll(d, mk, offers, validate)[k][h] == OfferEndpoint(offers[j]) && k == mk.ForType(k.addressType))
    decreases |offers|
  {
    if offers != [] {
      var n := |offers| - 1;
      var prev := AddAll(d, mk, offers[..n], validate);
      var r := AddAll(d, mk, offers, validate);
      if k in prev && h in prev[k] && r[k][h] == prev[k][h] {
        AddAllFromOffers(d, mk, offers[..n], validate, k, h);
        if !(k in d && h in d[k] && r[k][h] == d[k][h]) {
          var j :| 0 <= j < n && prev[k][h] == OfferEndpoint(offers[..n][j]) && k == mk.ForType(k.addressType);
          assert offers[..n][j] == offers[j];
        }
      } else {
        var t := validate(offers[n].address.ip).value;
        assert k == mk.ForType(t) && k.addressType == t;
        assert r[k][h] == OfferEndpoint(offers[n]);
      }
    }
  }

  /**
   * Every desired endpoint is the record of an address that was offered,
   * within its subset's cap, by a subset whose ports give the entry's key:
   * addresses past the cap never become desired.
   */
  lemma {:induction false} DesiredFromOffers(subsets: seq<EndpointSubset>, max: int, validate: Validator, k: PortMapKey, h: EndpointHash)
    requires k in DesiredOf(subsets, max, validate) && h in DesiredOf(subsets, max, validate)[k]
    ensures OfferedUnder(subsets, max, k, DesiredOf(subsets, max, validate)[k][h])
    decreases |subsets|
  {
    var n := |subsets| - 1;
    var prev := DesiredOf(subsets[..n], max, validate);
    var last := subsets[n];
    var mk := MultiKeyOf(last.ports);
    var reg := Register(prev, last.ports);
    var e := DesiredOf(subsets, max, validate)[k][h];
    AddAllFromOffers(reg, mk, Offered(last, max), validate, k, h);
    if k in reg && h in reg[k] && e == reg[k][h] {
      assert k in prev && h in prev[k];
      DesiredFromOffers(subsets[..n], max, validate, k, h);
      OfferedUnderExtend(subsets, max, k, e);
    } else {
      var j :| 0 <= j < |Offered(last, max)| && e == OfferEndpoint(Offered(last, max)[j]) && k == mk.ForType(k.addressType);
      assert k == NewAddrTypePortMapKey(subsets[n].ports, k.addressType);
    }
  }

  /** A valid offered address leaves an entry under its hash, in its family's key. */
  lemma {:induction false} AddAllComplete(d: Desired, mk: MultiKey, offers: seq<Offer>, validate: Validator, j: nat)
    requires mk.v4 in d && mk.v6 in d
    requires j < |offers| && validate(offers[j].address.ip).Some?
    ensures mk.ForType(validate(offers[j].address.ip).value) in AddAll(d, mk, offers, validate)
    ensures HashOf(OfferEndpoint(offers[j])) in AddAll(d, mk, offers, validate)[mk.ForType(validate(offers[j].address.ip).value)]
    decreases |offers|
  {
    var n := |offers| - 1;
    var k := mk.ForType(validate(offers[j].address.ip).value);
    var prev := AddAll(d, mk, offers[..n], validate);
    assert k in prev;
    if j < n {
      assert offers[..n][j] == offers[j];
      AddAllComplete(d, mk, offers[..n], validate, j);
    }
  }

  /** Adding a subset keeps every entry already desired, unchanged. */
  lemma AddSubsetKeeps(d: Desired, s: EndpointSubset, max: int, validate: Validator, k: PortMapKey, h: EndpointHash)
    requires k in d && h in d[k]
    ensures k in AddSubset(d, s, max, validate) && h in AddSubset(d, s, max, validate)[k]
    ensures AddSubset(d, s, max, validate)[k][h] == d[k][h]
  {
    EntriesNeverReplaced(Register(d, s.ports), MultiKeyOf(s.ports), Offered(s, max), validate, k, h);
  }

  /** Adding a subset desires each of its valid offers under the key its ports give in the offer's family. */
  lemma AddSubsetAdds(d: Desired, s: EndpointSubset, max: int, validate: Validator, j: nat)
    requires j < |Offered(s, max)| && validate(Offered(s, max)[j].address.ip).Some?
    ensures var k := NewAddrTypePortMapKey(s.ports, validate(Offered(s, max)[j].address.ip).value);
      k in AddSubset(d, s, max, validate) && HashOf(OfferEndpoint(Offered(s, max)[j])) in AddSubset(d, s, max, validate)[k]
  {
    var mk := MultiKeyOf(s.ports);
    AddAllComplete(Register(d, s.ports), mk, Offered(s, max), validate, j);
    var t := validate(Offered(s, max)[j].address.ip).value;
    assert mk.ForType(t) == NewAddrTypePortMapKey(s.ports, t);
  }

  /**
   * Every address a subset offers within its cap whose IP is valid is desired:
   * an entry with its hash sits under the key its subset's ports give in its family.
   */
  lemma {:induction false} DesiredComplete(subsets: seq<EndpointSubset>, max: int, validate: Validator, i: nat, j: nat)
    requires i < |subsets| && j < |Offered(subsets[i], max)|
    requires validate(Offered(subsets[i], max)[j].address.ip).Some?
    ensures var k := NewAddrTypePortMapKey(subsets[i].ports, validate(Offered(subsets[i], max)[j].address.ip).value);
      k in DesiredOf(subsets, max, validate) &&
      HashOf(OfferEndpoint(Offered(subsets[i], max)[j])) in DesiredOf(subsets, max, validate)[k]
    decreases |subsets|
  {
    var n := |subsets| - 1;
    var prev := DesiredOf(subsets[..n], max, validate);
    assert DesiredOf(subsets, max, validate) == AddSubset(prev, subsets[n], max, validate);
    if i == n {
      AddSubsetAdds(prev, subsets[n], max, validate, j);
    } else {
      assert subsets[..n][i] == subsets[i];
      var o := Offered(subsets[i], max)[j];
      var k := NewAddrTypePortMapKey(subsets[i].ports, validate(o.address.ip).value);
      DesiredComplete(subsets[..n], max, validate, i, j);
      assert k in prev && HashOf(OfferEndpoint(o)) in prev[k];
      AddSubsetKeeps(prev, subsets[n], max, validate, k, HashOf(OfferEndpoint(o)));
    }
  }

  /** Some subset whose ports give `k` offered, within its cap, an address of `k`'s family whose endpoint hashes to `h`. */
  ghost predicate ValidOfferUnder(subsets: seq<EndpointSubset>, max: int, validate: Validator, k: PortMapKey, h: EndpointHash) {
    exists i, j :: LandsUnder(subsets, max, validate, i, j, k, h)
  }

  /**
   * The desired state holds exactly the hashes of the valid addresses offered
   * within the cap, each under the key its subset's ports give in its family.
   */
  lemma DesiredExactly(subsets: seq<EndpointSubset>, max: int, validate: Validator, k: PortMapKey, h: EndpointHash)
    ensures (k in DesiredOf(subsets, max, validate) && h in DesiredOf(subsets, max, validate)[k]) <==>
      ValidOfferUnder(subsets, max, validate, k, h)
  {
    var d := DesiredOf(subsets, max, validate);
    if k in d && h in d[k] {
      DesiredFromOffers(subsets, max, validate, k, h);
      DesiredSound(subsets, max, validate);
      var i, j :| 0 <= i < |subsets| && 0 <= j < |Offered(subsets[i], max)| &&
        d[k][h] == OfferEndpoint(Offered(subsets[i], max)[j]) && k == NewAddrTypePortMapKey(subsets[i].ports, k.addressType);
      assert validate(Offered(subsets[i], max)[j].address.ip) == Some(k.addressType);
      assert LandsUnder(subsets, max, validate, i, j, k, h);
    }
    if ValidOfferUnder(subsets, max, validate, k, h) {
      var i, j :| LandsUnder(subsets, max, validate, i, j, k, h);
      DesiredComplete(subsets, max, validate, i, j);
    }
  }

  /** Offering two runs of addresses one after the other is offering their concatenation. */
  lemma {:induction false} AddAllSplit(d: Desired, mk: MultiKey, o1: seq<Offer>, o2: seq<Offer>, validate: Validator)
    requires mk.v4 in d && mk.v6 in d
    ensures AddAll(d, mk, o1 + o2, validate) == AddAll(AddAll(d, mk, o1, validate), mk, o2, validate)
    decreases |o2|
  {
    if o2 == [] {
      assert o1 + o2 == o1;
    } else {
      var n := |o2| - 1;
      assert (o1 + o2)[..|o1 + o2| - 1] == o1 + o2[..n];
      assert (o1 + o2)[|o1 + o2| - 1] == o2[n];
      AddAllSplit(d, mk, o1, o2[..n], validate);
    }
  }

  /** The offer is valid and would be stored under key `k` with hash `h`. */
  predicate LandsAt(mk: MultiKey, o: Offer, validate: Validator, k: PortMapKey, h: EndpointHash) {
    validate(o.address.ip).Some? && mk.ForType(validate(o.address.ip).value) == k && HashOf(OfferEndpoint(o)) == h
  }

  /** Offers none of which lands at `k` and `h` leave that hash absent from `k`. */
  lemma {:induction false} AddAllAbsent(d: Desired, mk: MultiKey, offers: seq<Offer>, validate: Validator, k: PortMapKey, h: EndpointHash)
    requires mk.v4 in d && mk.v6 in d && k in d && h !in d[k]
    requires forall j | 0 <= j < |offers| :: !LandsAt(mk, offers[j], validate, k, h)
    ensures h !in AddAll(d, mk, offers, validate)[k]
    decreases |offers|
  {
    if offers != [] {
      var n := |offers| - 1;
      assert forall j | 0 <= j < n :: offers[..n][j] == offers[j];
      AddAllAbsent(d, mk, offers[..n], validate, k, h);
      assert !LandsAt(mk, offers[n], validate, k, h);
    }
  }

  /**
   * The first offer that lands at a key and hash not yet desired is the one
   * stored there: later offers with the same hash never replace it.
   */
  lemma AddAllFirstSeen(d: Desired, mk: MultiKey, offers: seq<Offer>, validate: Validator, j: nat, k: PortMapKey, h: EndpointHash)
    requires mk.v4 in d && mk.v6 in d && k in d && h !in d[k]
    requires j < |offers| && LandsAt(mk, offers[j], validate, k, h)
    requires forall i | 0 <= i < j :: !LandsAt(mk, offers[i], validate, k, h)
    ensures h in AddAll(d, mk, offers, validate)[k]
    ensures AddAll(d, mk, offers, validate)[k][h] == OfferEndpoint(offers[j])
  {
    var before := offers[..j];
    assert forall i | 0 <= i < j :: before[i] == offers[i];
    AddAllAbsent(d, mk, before, validate, k, h);
    assert offers[..j + 1][..j] == before;
    var mid := AddAll(d, mk, offers[..j + 1], validate);
    assert mid[k][h] == OfferEndpoint(offers[j]);
    assert offers == offers[..j + 1] + offers[j + 1..];
    AddAllSplit(d, mk, offers[..j + 1], offers[j + 1..], validate);
    EntriesNeverReplaced(mid, mk, offers[j + 1..], validate, k, h);
  }

  /** Address `j` of subset `i`, offered within the cap, is valid and would be stored under `k` with hash `h`. */
  ghost predicate LandsUnder(subsets: seq<EndpointSubset>, max: int, validate: Validator, i: int, j: int, k: PortMapKey, h: EndpointHash) {
    0 <= i < |subsets| && 0 <= j < |Offered(subsets[i], max)| &&
    validate(Offered(subsets[i], max)[j].address.ip) == Some(k.addressType) &&
    k == NewAddrTypePortMapKey(subsets[i].ports, k.addressType) &&
    HashOf(OfferEndpoint(Offered(subsets[i], max)[j])) == h
  }

  /** Address `j` of subset `i` is the first, in subset order and then offer order, to land at `k` and `h`. */
  ghost predicate FirstLanding(subsets: seq<EndpointSubset>, max: int, validate: Validator, i: int, j: int, k: PortMapKey, h: EndpointHash) {
    LandsUnder(subsets, max, validate, i, j, k, h) &&
    forall i2, j2 | i2 < i || (i2 == i && j2 < j) :: !LandsUnder(subsets, max, validate, i2, j2, k, h)
  }

  /** Whenever some address lands at `k` and `h`, a first one does, no later than it. */
  lemma FirstLandingExists(subsets: seq<EndpointSubset>, max: int, validate: Validator, i: nat, j: nat, k: PortMapKey, h: EndpointHash)
    returns (i0: nat, j0: nat)
    requires LandsUnder(subsets, max, validate, i, j, k, h)
    ensures FirstLanding(subsets, max, validate, i0, j0, k, h)
    ensures i0 < i || (i0 == i && j0 <= j)
    decreases i, j
  {
    if FirstLanding(subsets, max, validate, i, j, k, h) {
      i0, j0 := i, j;
    } else {
      var i2, j2 :| (i2 < i || (i2 == i && j2 < j)) && LandsUnder(subsets, max, validate, i2, j2, k, h);
      i0, j0 := FirstLandingExists(subsets, max, validate, i2, j2, k, h);
    }
  }

  /** Within a subset, the first address to land at `k` and `h` is the one the subset stores. */
  lemma AddSubsetFirstSeen(d: Desired, s: EndpointSubset, max: int, validate: Validator, j: nat, k: PortMapKey, h: EndpointHash)
    requires k in d ==> h !in d[k]
    requires j < |Offered(s, max)| && validate(Offered(s, max)[j].address.ip) == Some(k.addressType)
    requires k == NewAddrTypePortMapKey(s.ports, k.addressType) && HashOf(OfferEndpoint(Offered(s, max)[j])) == h
    requires forall j2 | 0 <= j2 < j ::
      validate(Offered(s, max)[j2].address.ip) != Some(k.addressType) || HashOf(OfferEndpoint(Offered(s, max)[j2])) != h
    ensures k in AddSubset(d, s, max, validate) && h in AddSubset(d, s, max, validate)[k]
    ensures AddSubset(d, s, max, validate)[k][h] == OfferEndpoint(Offered(s, max)[j])
  {
    var mk := MultiKeyOf(s.ports);
    var offers := Offered(s, max);
    var reg := Register(d, s.ports);
    assert mk.ForType(k.addressType) == k;
    forall j2 | 0 <= j2 < j ensures !LandsAt(mk, offers[j2], validate, k, h) {
      if validate(offers[j2].address.ip).Some? {
        assert mk.ForType(validate(offers[j2].address.ip).value).addressType == validate(offers[j2].address.ip).value;
      }
    }
    AddAllFirstSeen(reg, mk, offers, validate, j, k, h);
  }

  /** Below the last subset, landing in a prefix is landing in the whole. */
  lemma PrefixLandings(subsets: seq<EndpointSubset>, max: int, validate: Validator, i: int, j: int, k: PortMapKey, h: EndpointHash)
    requires 0 <= i < |subsets| - 1
    ensures LandsUnder(subsets[..|subsets| - 1], max, validate, i, j, k, h) == LandsUnder(subsets, max, validate, i, j, k, h)
  {
    assert subsets[..|subsets| - 1][i] == subsets[i];
  }

  /** A first landing before the last subset is a first landing of the prefix without it. */
  lemma FirstLandingPrefix(subsets: seq<EndpointSubset>, max: int, validate: Validator, i: int, j: int, k: PortMapKey, h: EndpointHash)
    requires FirstLanding(subsets, max, validate, i, j, k, h) && i < |subsets| - 1
    ensures FirstLanding(subsets[..|subsets| - 1], max, validate, i, j, k, h)
  {
    var prefix := subsets[..|subsets| - 1];
    PrefixLandings(subsets, max, validate, i, j, k, h);
    forall i2, j2 | i2 < i || (i2 == i && j2 < j)
      ensures !LandsUnder(prefix, max, validate, i2, j2, k, h)
    {
      if 0 <= i2 {
        PrefixLandings(subsets, max, validate, i2, j2, k, h);
      }
    }
  }

  /** A first landing in the last subset leaves nothing of the earlier subsets at that key and hash. */
  lemma FirstLandingLast(subsets: seq<EndpointSubset>, max: int, validate: Validator, i: int, j: int, k: PortMapKey, h: EndpointHash)
    requires i == |subsets| - 1 && FirstLanding(subsets, max, validate, i, j, k, h)
    ensures !ValidOfferUnder(subsets[..|subsets| - 1], max, validate, k, h)
  {
    var prefix := subsets[..|subsets| - 1];
    forall i2, j2 ensures !LandsUnder(prefix, max, validate, i2, j2, k, h) {
      if 0 <= i2 < |prefix| {
        PrefixLandings(subsets, max, validate, i2, j2, k, h);
      }
    }
  }

  /** A first landing in the last subset is the entry that subset stores over the earlier ones. */
  lemma FirstSeenInLast(subsets: seq<EndpointSubset>, max: int, validate: Validator, i: nat, j: nat, k: PortMapKey, h: EndpointHash)
    requires i == |subsets| - 1 && FirstLanding(subsets, max, validate, i, j, k, h)
    ensures var d := AddSubset(DesiredOf(subsets[..|subsets| - 1], max, validate), subsets[|subsets| - 1], max, validate);
      k in d && h in d[k] && d[k][h] == OfferEndpoint(Offered(subsets[|subsets| - 1], max)[j])
  {
    var n := |subsets| - 1;
    FirstLandingLast(subsets, max, validate, i, j, k, h);
    DesiredExactly(subsets[..n], max, validate, k, h);
    forall j2 | 0 <= j2 < j
      ensures validate(Offered(subsets[n], max)[j2].address.ip) != Some(k.addressType) ||
              HashOf(OfferEndpoint(Offered(subsets[n], max)[j2])) != h
    {
      assert !LandsUnder(subsets, max, validate, n, j2, k, h);
    }
    AddSubsetFirstSeen(DesiredOf(subsets[..n], max, validate), subsets[n], max, validate, j, k, h);
  }

  /**
   * First seen wins for the whole desired state: the endpoint stored under a
   * key and hash is the record of the first address, in subset order and then
   * offer order, that lands there.
   */
  lemma {:induction false} DesiredFirstSeen(subsets: seq<EndpointSubset>, max: int, validate: Validator, i: nat, j: nat, k: PortMapKey, h: EndpointHash)
    requires FirstLanding(subsets, max, validate, i, j, k, h)
    ensures k in DesiredOf(subsets, max, validate) && h in DesiredOf(subsets, max, validate)[k]
    ensures DesiredOf(subsets, max, validate)[k][h] == OfferEndpoint(Offered(subsets[i], max)[j])
    decreases |subsets|
  {
    var n := |subsets| - 1;
    var prev := DesiredOf(subsets[..n], max, validate);
    assert DesiredOf(subsets, max, validate) == AddSubset(prev, subsets[n], max, validate);
    if i < n {
      FirstLandingPrefix(subsets, max, validate, i, j, k, h);
      DesiredFirstSeen(subsets[..n], max, validate, i, j, k, h);
      assert subsets[..n][i] == subsets[i];
      AddSubsetKeeps(prev, subsets[n], max, validate, k, h);
    } else {
      FirstSeenInLast(subsets, max, validate, i, j, k, h);
    }
  }

  /**
   * Within one subset, a ready address offered within the cap with a valid IP
   * is desired as ready, even when the same address is also listed as not
   * ready: ready addresses are offered first, and the first one seen wins.
   */
  lemma ReadyOfferWins(s: EndpointSubset, max: int, validate: Validator, p: nat)
    requires p < |s.addresses| && p < |Offered(s, max)| && validate(s.addresses[p].ip).Some?
    ensures var k := NewAddrTypePortMapKey(s.ports, validate(s.addresses[p].ip).value);
      var h := EndpointHash(s.addresses[p].ip, s.addresses[p].targetRef);
      k in DesiredOf([s], max, validate) && h in DesiredOf([s], max, validate)[k] &&
      DesiredOf([s], max, validate)[k][h].ready
  {
    var k := NewAddrTypePortMapKey(s.ports, validate(s.addresses[p].ip).value);
    var h := EndpointHash(s.addresses[p].ip, s.addresses[p].targetRef);
    assert Offered(s, max)[p] == Offer(s.addresses[p], true);
    assert LandsUnder([s], max, validate, 0, p, k, h);
    var i0, j0 := FirstLandingExists([s], max, validate, 0, p, k, h);
    DesiredFirstSeen([s], max, validate, i0, j0, k, h);
    assert Offered(s, max)[j0] == Offer(s.addresses[j0], true);
  }

  /** One more offer with a valid IPv4 address adds its hash under the IPv4 key. */
  lemma AddValidStep(d: Desired, mk: MultiKey, offers: seq<Offer>, n: nat, validate: Validator)
    requires mk.v4 in d && mk.v6 in d && mk.v4.addressType == IPv4
    requires n < |offers| && validate(offers[n].address.ip) == Some(IPv4)
    ensures AddAll(d, mk, offers[..n + 1], validate)[mk.v4].Keys ==
      AddAll(d, mk, offers[..n], validate)[mk.v4].Keys + {HashOf(OfferEndpoint(offers[n]))}
  {
    assert offers[..n + 1][..n] == offers[..n];
  }

  /** One more offer with an invalid IP changes nothing. */
  lemma SkipInvalidStep(d: Desired, mk: MultiKey, offers: seq<Offer>, n: nat, validate: Validator)
    requires mk.v4 in d && mk.v6 in d
    requires n < |offers| && validate(offers[n].address.ip).None?
    ensures AddAll(d, mk, offers[..n + 1], validate) == AddAll(d, mk, offers[..n], validate)
  {
    assert offers[..n + 1][..n] == offers[..n];
  }

  /** When no offer is an IPv6 address, the IPv6 key's endpoints are left as they were. */
  lemma {:induction false} NoOffersOfFamily(d: Desired, mk: MultiKey, offers: seq<Offer>, validate: Validator)
    requires mk.v4 in d && mk.v6 in d
    requires mk.v4.addressType == IPv4 && mk.v6.addressType == IPv6
    requires forall j | 0 <= j < |offers| :: validate(offers[j].address.ip) != Some(IPv6)
    ensures AddAll(d, mk, offers, validate)[mk.v6] == d[mk.v6]
    decreases |offers|
  {
    if offers != [] {
      var n := |offers| - 1;
      assert forall j | 0 <= j < n :: offers[..n][j] == offers[j];
      NoOffersOfFamily(d, mk, offers[..n], validate);
    }
  }

  /** The first three of those offers: the first and third are valid, the second is not. */
  lemma ThreeOffers(d: Desired, mk: MultiKey, validate: Validator, offers: seq<Offer>)
    requires mk.v4 in d && mk.v6 in d && d[mk.v4] == map[]
    requires mk.v4.addressType == IPv4 && mk.v6.addressType == IPv6
    requires |offers| >= 3
    requires validate(offers[0].address.ip) == Some(IPv4) && validate(offers[2].address.ip) == Some(IPv4)
    requires validate(offers[1].address.ip).None?
    ensures AddAll(d, mk, offers[..3], validate)[mk.v4].Keys ==
      {HashOf(OfferEndpoint(offers[0])), HashOf(OfferEndpoint(offers[2]))}
  {
    assert offers[..0] == [];
    AddValidStep(d, mk, offers, 0, validate);
    SkipInvalidStep(d, mk, offers, 1, validate);
    AddValidStep(d, mk, offers, 2, validate);
  }

  /** Five offers, two of them with an invalid IP: the three valid ones go under the IPv4 key. */
  lemma FiveOffers(d: Desired, mk: MultiKey, validate: Validator, offers: seq<Offer>)
    requires mk.v4 in d && mk.v6 in d && d[mk.v4] == map[]
    requires mk.v4.addressType == IPv4 && mk.v6.addressType == IPv6
    requires |offers| == 5
    requires validate(offers[0].address.ip) == Some(IPv4) && validate(offers[2].address.ip) == Some(IPv4) && validate(offers[3].address.ip) == Some(IPv4)
    requires validate(offers[1].address.ip).None? && validate(offers[4].address.ip).None?
    ensures AddAll(d, mk, offers, validate)[mk.v4].Keys ==
      {HashOf(OfferEndpoint(offers[0])), HashOf(OfferEndpoint(offers[2])), HashOf(OfferEndpoint(offers[3]))}
  {
    ThreeOffers(d, mk, validate, offers);
    AddValidStep(d, mk, offers, 3, validate);
    SkipInvalidStep(d, mk, offers, 4, validate);
    assert offers[..5] == offers;
  }

  /** The same five offers raise a count of two invalid addresses. */
  lemma FiveOffersCount(validate: Validator, offers: seq<Offer>)
    requires |offers| == 5
    requires validate(offers[0].address.ip).Some? && validate(offers[2].address.ip).Some? && validate(offers[3].address.ip).Some?
    requires validate(offers[1].address.ip).None? && validate(offers[4].address.ip).None?
    ensures InvalidCount(offers, validate) == 2
  {
    assert offers[..5] == offers && offers[..5][..4] == offers[..4] && offers[..4][..3] == offers[..3];
    assert offers[..3][..2] == offers[..2] && offers[..2][..1] == offers[..1] && offers[..1][..0] == [];
    assert InvalidCount(offers[..1], validate) == 0;
    assert InvalidCount(offers[..2], validate) == 1;
    assert InvalidCount(offers[..3], validate) == 1;
    assert InvalidCount(offers[..4], validate) == 1;
  }

  /**
   * A subset with three valid IPv4 addresses and two malformed ones, under a
   * cap that lets all five through: exactly the three valid ones are desired
   * under the IPv4 key, nothing is desired for IPv6, and one warning reports
   * the two skipped.
   */
  lemma InvalidAddressesSkipped(validate: Validator, a1: EndpointAddress, a2: EndpointAddress, a3: EndpointAddress,
                                b1: EndpointAddress, b2: EndpointAddress, ports: seq<EndpointPort>, max: int)
    requires max >= 5
    requires validate(a1.ip) == Some(IPv4) && validate(a2.ip) == Some(IPv4) && validate(a3.ip) == Some(IPv4)
    requires validate(b1.ip).None? && validate(b2.ip).None?
    ensures var subsets := [EndpointSubset([a1, b1, a2], [a3, b2], ports)];
      var d := DesiredOf(subsets, max, validate);
      d.Keys == {NewAddrTypePortMapKey(ports, IPv4), NewAddrTypePortMapKey(ports, IPv6)} &&
      d[NewAddrTypePortMapKey(ports, IPv4)].Keys ==
        {EndpointHash(a1.ip, a1.targetRef), EndpointHash(a2.ip, a2.targetRef), EndpointHash(a3.ip, a3.targetRef)} &&
      d[NewAddrTypePortMapKey(ports, IPv6)] == map[] &&
      Events(subsets, max, validate) == [InvalidIPAddress(2)]
  {
    var s := EndpointSubset([a1, b1, a2], [a3, b2], ports);
    var offers := Offered(s, max);
    assert offers == [Offer(a1, true), Offer(b1, true), Offer(a2, true), Offer(a3, false), Offer(b2, false)];
    assert [s][..0] == [];
    FiveOffers(Register(map[], ports), MultiKeyOf(ports), validate, offers);
    NoOffersOfFamily(Register(map[], ports), MultiKeyOf(ports), offers, validate);
    FiveOffersCount(validate, offers);
  }

  // ---------------------------------------------------------------------
  // The ports recorded for each key
  // ---------------------------------------------------------------------

  /** The ports recorded after a subset's ports are registered: both of its keys take them. */
  function RegisterPorts(portsByKey: map<PortMapKey, seq<EndpointPort>>, ports: seq<EndpointPort>): map<PortMapKey, seq<EndpointPort>> {
    portsByKey[MultiKeyOf(ports).v4 := ports][MultiKeyOf(ports).v6 := ports]
  }

  /** The ports recorded for each key once every subset has been registered, in order. */
  function PortsOf(subsets: seq<EndpointSubset>): map<PortMapKey, seq<EndpointPort>>
    decreases |subsets|
  {
    if subsets == [] then map[]
    else RegisterPorts(PortsOf(subsets[..|subsets| - 1]), subsets[|subsets| - 1].ports)
  }

  /** Subset `i` is the last one whose ports give `k`. */
  ghost predicate LastToGive(subsets: seq<EndpointSubset>, i: int, k: PortMapKey) {
    0 <= i < |subsets| && NewAddrTypePortMapKey(subsets[i].ports, k.addressType) == k &&
    forall j | i < j < |subsets| :: NewAddrTypePortMapKey(subsets[j].ports, k.addressType) != k
  }

  /**
   * Ports are recorded for exactly the keys some subset gives, and a key's
   * ports are those of the last subset that gives it: a later subset with the
   * same set of ports overwrites the ports an earlier one recorded.
   */
  lemma {:induction false} PortsOfLast(subsets: seq<EndpointSubset>, k: PortMapKey)
    ensures k in PortsOf(subsets) <==> RegisteredBy(subsets, k)
    ensures k in PortsOf(subsets) ==> exists i | LastToGive(subsets, i, k) :: PortsOf(subsets)[k] == subsets[i].ports
    decreases |subsets|
  {
    if subsets != [] {
      var n := |subsets| - 1;
      var mk := MultiKeyOf(subsets[n].ports);
      PortsOfLast(subsets[..n], k);
      RegisteredByStep(subsets, k);
      var gives := NewAddrTypePortMapKey(subsets[n].ports, k.addressType) == k;
      assert gives <==> k == mk.v4 || k == mk.v6 by {
        if k.addressType == IPv4 { assert k != mk.v6; } else { assert k != mk.v4; }
      }
      if gives {
        assert LastToGive(subsets, n, k);
      } else if k in PortsOf(subsets) {
        var i :| LastToGive(subsets[..n], i, k) && PortsOf(subsets[..n])[k] == subsets[..n][i].ports;
        assert subsets[..n][i] == subsets[i];
        assert LastToGive(subsets, i, k);
      }
    }
  }

  /** The ports recorded for a key give back that key. */
  lemma {:induction false} PortsOfGiveKeys(subsets: seq<EndpointSubset>)
    ensures PortsGiveKeys(PortsOf(subsets))
    decreases |subsets|
  {
    if subsets != [] {
      var n := |subsets| - 1;
      var mk := MultiKeyOf(subsets[n].ports);
      PortsOfGiveKeys(subsets[..n]);
      PortsGiveKeysUpdate(PortsOf(subsets[..n]), mk.v4, subsets[n].ports);
      PortsGiveKeysUpdate(PortsOf(subsets[..n])[mk.v4 := subsets[n].ports], mk.v6, subsets[n].ports);
    }
  }

  // ---------------------------------------------------------------------
  // The calculator, built in place
  // ---------------------------------------------------------------------

  /** Each key owns a distinct valid set from `repr`, holding that key's desired endpoints. */
  ghost predicate OwnSets(sets: map<PortMapKey, EndpointSet>, desired: Desired, repr: set<EndpointSet>)
    reads repr
  {
    (forall k | k in sets :: sets[k] in repr && sets[k].Valid() && k in desired && sets[k].items == desired[k]) &&
    (forall k, k' | k in sets && k' in sets && k != k' :: sets[k] != sets[k'])
  }

  /** The ports recorded for a key give back that key. */
  ghost predicate PortsGiveKeys(portsByKey: map<PortMapKey, seq<EndpointPort>>) {
    forall k | k in portsByKey :: NewAddrTypePortMapKey(portsByKey[k], k.addressType) == k
  }

  lemma PortsGiveKeysUpdate(portsByKey: map<PortMapKey, seq<EndpointPort>>, k: PortMapKey, ports: seq<EndpointPort>)
    requires PortsGiveKeys(portsByKey) && k == NewAddrTypePortMapKey(ports, k.addressType)
    ensures PortsGiveKeys(portsByKey[k := ports])
  {
  }

  /** A fresh empty set for a new key keeps every key's set its own. */
  lemma OwnSetsExtend(sets: map<PortMapKey, EndpointSet>, desired: Desired, repr: set<EndpointSet>, k: PortMapKey, s: EndpointSet)
    requires OwnSets(sets, desired, repr) && s !in repr && k !in sets
    requires s.Valid() && s.items == map[]
    ensures OwnSets(sets[k := s], desired[k := map[]], repr + {s})
  {
  }

  class DesiredCalc {
    var endpointsByKey: map<PortMapKey, EndpointSet>
    var portsByKey: map<PortMapKey, seq<EndpointPort>>
    /** The contents of the endpoint sets, as a value. */
    ghost var desired: Desired
    ghost var Repr: set<EndpointSet>

    /**
     * Each key owns its own set, whose contents `desired` records, and the
     * ports recorded for a key give back that key.
     */
    ghost predicate Valid()
      reads this, Repr
    {
      endpointsByKey.Keys == portsByKey.Keys && endpointsByKey.Keys == desired.Keys &&
      OwnSets(endpointsByKey, desired, Repr) && PortsGiveKeys(portsByKey)
    }

    constructor ()
      ensures Valid() && fresh(Repr) && desired == map[]
    {
      endpointsByKey := map[];
      portsByKey := map[];
      desired := map[];
      Repr := {};
    }

    /** Records the ports of key `k`, giving the key an empty set of its own when it has none yet. */
    method InitKey(k: PortMapKey, ports: seq<EndpointPort>)
      requires Valid() && k == NewAddrTypePortMapKey(ports, k.addressType)
      modifies this
      ensures Valid() && fresh(Repr - old(Repr))
      ensures desired == RegisterKey(old(desired), k)
      ensures portsByKey == old(portsByKey)[k := ports]
    {
      PortsGiveKeysUpdate(portsByKey, k, ports);
      if k in endpointsByKey {
        portsByKey := portsByKey[k := ports];
      } else {
        AddKey(k, ports);
      }
    }

    method AddKey(k: PortMapKey, ports: seq<EndpointPort>)
      requires Valid() && k !in endpointsByKey && PortsGiveKeys(portsByKey[k := ports])
      modifies this
      ensures Valid() && fresh(Repr - old(Repr))
      ensures desired == old(desired)[k := map[]]
      ensures portsByKey == old(portsByKey)[k := ports]
    {
      var s := new EndpointSet();
      OwnSetsExtend(endpointsByKey, desired, Repr, k, s);
      endpointsByKey, desired, portsByKey, Repr := endpointsByKey[k := s], desired[k := map[]], portsByKey[k := ports], Repr + {s};
    }

    /** Registers a subset's ports under both families and returns the two keys. */
    method InitPorts(ports: seq<EndpointPort>) returns (mk: MultiKey)
      requires Valid()
      modifies this
      ensures Valid() && fresh(Repr - old(Repr))
      ensures mk == MultiKeyOf(ports)
      ensures desired == Register(old(desired), ports)
      ensures portsByKey == RegisterPorts(old(portsByKey), ports)
    {
      mk := MultiKeyOf(ports);
      InitKey(mk.v4, ports);
      InitKey(mk.v6, ports);
    }

    /** Adds one address; false, and no change, when its IP is not valid. */
    method AddAddress(address: EndpointAddress, mk: MultiKey, ready: bool, validate: Validator) returns (ok: bool)
      requires Valid() && mk.v4 in endpointsByKey && mk.v6 in endpointsByKey
      modifies this, Repr
      ensures Valid() && Repr == old(Repr) && endpointsByKey == old(endpointsByKey) && portsByKey == old(portsByKey)
      ensures ok <==> validate(address.ip).Some?
      ensures desired == AddOne(old(desired), mk, Offer(address, ready), validate)
    {
      var family := validate(address.ip);
      if family.None? {
        return false;
      }
      var k := mk.ForType(family.value);
      var target := endpointsByKey[k];
      var e := AddressToEndpoint(address, ready);
      target.Insert(e);
      desired := desired[k := InsertFirst(desired[k], e)];
      ok := true;
    }
  }
}
