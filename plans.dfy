/** The records that pass between the failover orchestrator and the AWS
    provider: tags, route tables and the operation plan that is checkpointed
    and replayed. Plans are kept as loosely typed as the JavaScript values
    they model, so that a plan can land in the wrong slot exactly as the code
    allows. */
module Plans {
  import opened Base

  /** One `{ Key, Value }` tag, or one `key: value` pair of a tags object. */
  datatype Tag = Tag(key: string, value: string)

  /** What `_normalizeTags` makes of a tag list, read at one key: the value of
      the last tag with that key (a later key overwrites in the object it
      builds), or `None` when no tag has it. */
  function TagValue(tags: seq<Tag>, key: string): (r: Option<string>)
    ensures r.Some? <==> exists i :: 0 <= i < |tags| && tags[i].key == key
    ensures r.Some? ==> Tag(key, r.value) in tags
  {
    if tags == [] then None
    else if tags[|tags| - 1].key == key then Some(tags[|tags| - 1].value)
    else TagValue(tags[..|tags| - 1], key)
  }

  /** How the next hop of a route range is found (`_nextHopAddressResolver`). */
  datatype NextHopSpec = NextHopSpec(discoveryType: string, items: Option<seq<string>>, tag: string)

  /** One entry of `routeAddressRanges` handed to the provider. */
  datatype AddressRange = AddressRange(routeAddresses: string, routeNextHopAddresses: NextHopSpec)

  /** Elastic IP reassociation: `{ current, target, AllocationId }`. */
  datatype PublicAddressOp = PublicAddressOp(
    currentPrivateIp: Option<string>,
    currentAssociationId: Option<string>,
    targetPrivateIp: string,
    targetNicId: string,
    allocationId: Option<string>)

  /** One key of the `publicAddresses` object (keyed by public IP, in insertion order). */
  datatype PublicEntry = PublicEntry(publicIp: string, op: PublicAddressOp)

  /** A secondary private address to move, with the public address bound to it. */
  datatype MovedAddress = MovedAddress(address: string, publicAddress: Option<string>)

  /** `{ networkInterfaceId, addresses }`. */
  datatype NicBatch = NicBatch(nicId: string, addresses: seq<MovedAddress>)

  /** `{ disassociate: [...], associate: [...] }`. */
  datatype InterfaceOps = InterfaceOps(disassociate: seq<NicBatch>, associate: seq<NicBatch>)

  /** An AWS route as returned by `describeRouteTables`. */
  datatype Route = Route(
    destinationCidrBlock: Option<string>,
    destinationIpv6CidrBlock: Option<string>,
    nicId: Option<string>)

  datatype RouteTable = RouteTable(id: string, routes: seq<Route>, tags: seq<Tag>)

  /** `{ routeTable, networkInterfaceId, routeAddresses }`. */
  datatype RouteOperation = RouteOperation(routeTable: RouteTable, nicId: string, routeAddresses: string)

  /** A plan value as stored in `failoverOperations.addresses` or `.routes`:
      the empty object `{}`, an address plan object, or a route plan array. */
  datatype Plan =
    | EmptyObject
    | AddressOps(publicAddresses: seq<PublicEntry>, interfaces: InterfaceOps)
    | RouteOps(routes: seq<RouteOperation>)
}
