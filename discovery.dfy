/**
 * Value types shared by the EndpointSlice mirroring reconciler: the legacy
 * Endpoints resource it reads, the EndpointSlices it writes, the port-map key
 * that groups them, and the plan and counters it computes in one pass.
 */
module Discovery {

  datatype Option<T> = None | Some(value: T)

  /** The address families the mirroring controller produces slices for. */
  datatype AddressType = IPv4 | IPv6

  datatype EndpointPort = EndpointPort(name: string, protocol: string, port: int)

  /** One address of a legacy Endpoints subset. */
  datatype EndpointAddress = EndpointAddress(ip: string, hostname: string, nodeName: string, targetRef: string)

  datatype EndpointSubset = EndpointSubset(
    addresses: seq<EndpointAddress>,
    notReadyAddresses: seq<EndpointAddress>,
    ports: seq<EndpointPort>)

  /** The legacy resource; `deletionTimestampSet` is true while it is being deleted. */
  datatype Endpoints = Endpoints(
    namespace: string,
    name: string,
    deletionTimestampSet: bool,
    subsets: seq<EndpointSubset>)

  /** One endpoint record of an EndpointSlice. */
  datatype Endpoint = Endpoint(address: string, targetRef: string, ready: bool, hostname: string, nodeName: string)

  /** The identity of an endpoint: the fields its set hash covers. */
  datatype EndpointHash = EndpointHash(address: string, targetRef: string)

  function HashOf(e: Endpoint): EndpointHash {
    EndpointHash(e.address, e.targetRef)
  }

  /** Compares the fields the hash leaves out. */
  predicate EqualBeyondHash(a: Endpoint, b: Endpoint) {
    a.ready == b.ready && a.hostname == b.hostname && a.nodeName == b.nodeName
  }

  /** The endpoint record a legacy address becomes. */
  function AddressToEndpoint(a: EndpointAddress, ready: bool): Endpoint {
    Endpoint(a.ip, a.targetRef, ready, a.hostname, a.nodeName)
  }

  /**
   * An EndpointSlice as the reconciler handles it. An empty `name` marks a
   * slice that the store names when it creates it.
   */
  datatype EndpointSlice = EndpointSlice(
    name: string,
    namespace: string,
    owner: string,
    addressType: AddressType,
    ports: seq<EndpointPort>,
    endpoints: seq<Endpoint>,
    resourceVersion: nat)

  /** Groups slices and desired endpoints: the unordered port set plus the family. */
  datatype PortMapKey = PortMapKey(ports: set<EndpointPort>, addressType: AddressType)

  function NewAddrTypePortMapKey(ports: seq<EndpointPort>, addressType: AddressType): PortMapKey {
    PortMapKey((set p | p in ports), addressType)
  }

  function KeyOf(s: EndpointSlice): PortMapKey {
    NewAddrTypePortMapKey(s.ports, s.addressType)
  }

  /**
   * The port-map key does not depend on the order or repetition of the ports.
   * This records the choice made by the abstraction of `newAddrTypePortMapKey`
   * as a set of ports; it follows from that choice rather than from the hashing.
   */
  lemma KeyIgnoresPortOrder(ports1: seq<EndpointPort>, ports2: seq<EndpointPort>, t: AddressType)
    requires forall p :: p in ports1 <==> p in ports2
    ensures NewAddrTypePortMapKey(ports1, t) == NewAddrTypePortMapKey(ports2, t)
  {
  }

  /** The number of entries a cap `max` lets through out of `n`: min(n, max), never negative. */
  function Cap(max: int, n: nat): (r: nat)
    ensures r <= n && (max <= 0 ==> r == 0)
    ensures max > 0 ==> r <= max && (r == n || r == max)
  {
    if max <= 0 then 0 else if max < n then max else n
  }

  /** A fresh slice for the given Endpoints, ports and family, named `name` (possibly ""). */
  function NewEndpointSlice(ep: Endpoints, ports: seq<EndpointPort>, addressType: AddressType, name: string): EndpointSlice {
    EndpointSlice(name, ep.namespace, ep.name, addressType, ports, [], 0)
  }

  datatype TotalsByAction = TotalsByAction(added: int, updated: int, removed: int)

  const NoChanges := TotalsByAction(0, 0, 0)

  function AddTotals(a: TotalsByAction, b: TotalsByAction): TotalsByAction {
    TotalsByAction(a.added + b.added, a.updated + b.updated, a.removed + b.removed)
  }

  datatype SlicesByAction = SlicesByAction(
    toCreate: seq<EndpointSlice>,
    toUpdate: seq<EndpointSlice>,
    toDelete: seq<EndpointSlice>)

  const NoSlices := SlicesByAction([], [], [])

  function AppendSlices(a: SlicesByAction, b: SlicesByAction): SlicesByAction {
    SlicesByAction(a.toCreate + b.toCreate, a.toUpdate + b.toUpdate, a.toDelete + b.toDelete)
  }

  /** Within `eps` no two endpoints share a hash. */
  ghost predicate DistinctHashes(eps: seq<Endpoint>) {
    forall i, j | 0 <= i < j < |eps| :: HashOf(eps[i]) != HashOf(eps[j])
  }

  /** Every entry of an endpoint map is stored under its own hash. */
  ghost predicate WellKeyed(m: map<EndpointHash, Endpoint>) {
    forall h | h in m :: HashOf(m[h]) == h
  }
}
