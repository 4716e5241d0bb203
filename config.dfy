/** The failover declaration as the orchestrator reads it: which operation
    kinds are enabled, and the options it hands to the cloud provider. */
module Config {
  import opened Base
  import opened Plans

  const ROUTE_NEXT_HOP_ADDRESS_TAG := "f5_self_ips"
  const DEFAULT_DISCOVERY_TYPE := "routeTag"

  datatype NextHopDecl = NextHopDecl(discoveryType: Option<string>, items: Option<seq<string>>)

  datatype AddressRangeDecl = AddressRangeDecl(range: string, nextHopAddresses: Option<NextHopDecl>)

  datatype FailoverAddressesDecl = FailoverAddressesDecl(enabled: Option<bool>, scopingTags: Option<seq<Tag>>)

  datatype FailoverRoutesDecl = FailoverRoutesDecl(
    enabled: Option<bool>,
    scopingTags: Option<seq<Tag>>,
    scopingAddressRanges: Option<seq<AddressRangeDecl>>,
    defaultNextHopAddresses: Option<NextHopDecl>)

  /** The validated declaration; `None` stands for a key that is absent (or null). */
  datatype Declaration = Declaration(
    environment: Option<string>,
    failoverAddresses: Option<FailoverAddressesDecl>,
    failoverRoutes: Option<FailoverRoutesDecl>,
    externalStorageTags: Option<seq<Tag>>)

  /** What `_parseConfig` returns for the provider's `init`. */
  datatype ProviderOptions = ProviderOptions(
    tags: Option<seq<Tag>>,
    routeTags: Option<seq<Tag>>,
    routeAddressRanges: seq<AddressRange>,
    storageTags: Option<seq<Tag>>)

  /** `_getOperationEnabledState`: an absent section is disabled, a section
      without `enabled` is enabled (backwards compatibility), otherwise the
      flag decides. */
  function OperationEnabledState(present: bool, enabled: Option<bool>): (r: bool)
    ensures r <==> present && enabled != Some(false)
    ensures !present ==> !r
    ensures present && enabled.None? ==> r
  {
    if !present then false
    else if enabled.None? then true
    else enabled.value
  }

  function AddressOperationsEnabled(d: Declaration): bool {
    OperationEnabledState(d.failoverAddresses.Some?,
      if d.failoverAddresses.Some? then d.failoverAddresses.value.enabled else None)
  }

  function RouteOperationsEnabled(d: Declaration): bool {
    OperationEnabledState(d.failoverRoutes.Some?,
      if d.failoverRoutes.Some? then d.failoverRoutes.value.enabled else None)
  }

  /** `failoverRoutes.defaultNextHopAddresses`, when the whole path exists. */
  function DefaultNextHop(d: Declaration): Option<NextHopDecl> {
    if d.failoverRoutes.Some? then d.failoverRoutes.value.defaultNextHopAddresses else None
  }

  /** `_nextHopAddressResolver`: a range's own next-hop settings win; otherwise
      the declaration's defaults. The discovery type falls back to `routeTag`.
      An explicit setting always yields an item list (possibly empty), while the
      default path passes the default items through, absent or not. */
  function NextHopAddressResolver(d: Declaration, range: AddressRangeDecl): (r: NextHopSpec)
    ensures r.tag == ROUTE_NEXT_HOP_ADDRESS_TAG
    ensures r.discoveryType != ""
    ensures range.nextHopAddresses.Some? ==> r.items.Some?
    ensures range.nextHopAddresses.Some? && Truthy(range.nextHopAddresses.value.discoveryType) ==>
      r.discoveryType == range.nextHopAddresses.value.discoveryType.value
    ensures range.nextHopAddresses.None? ==>
      r.items == (if DefaultNextHop(d).Some? then DefaultNextHop(d).value.items else None)
  {
    if range.nextHopAddresses.Some? then
      var hop := range.nextHopAddresses.value;
      NextHopSpec(
        if Truthy(hop.discoveryType) then hop.discoveryType.value else DEFAULT_DISCOVERY_TYPE,
        Some(hop.items.GetOr([])),
        ROUTE_NEXT_HOP_ADDRESS_TAG)
    else
      var dflt := DefaultNextHop(d);
      var dtype := if dflt.Some? then dflt.value.discoveryType else None;
      NextHopSpec(
        if Truthy(dtype) then dtype.value else DEFAULT_DISCOVERY_TYPE,
        if dflt.Some? then dflt.value.items else None,
        ROUTE_NEXT_HOP_ADDRESS_TAG)
  }

  /** `failoverRoutes.scopingAddressRanges || []`. */
  function ScopingAddressRanges(d: Declaration): seq<AddressRangeDecl> {
    if d.failoverRoutes.Some? then d.failoverRoutes.value.scopingAddressRanges.GetOr([]) else []
  }

  /** `_parseConfig`: one provider range per declared range, in order, each with
      its resolved next hop; the tag sets are passed through. */
  method ParseConfig(d: Declaration) returns (opts: ProviderOptions)
    ensures opts.tags == (if d.failoverAddresses.Some? then d.failoverAddresses.value.scopingTags else None)
    ensures opts.routeTags == (if d.failoverRoutes.Some? then d.failoverRoutes.value.scopingTags else None)
    ensures opts.storageTags == d.externalStorageTags
    ensures |opts.routeAddressRanges| == |ScopingAddressRanges(d)|
    ensures forall i :: 0 <= i < |opts.routeAddressRanges| ==>
      opts.routeAddressRanges[i] ==
        AddressRange(ScopingAddressRanges(d)[i].range, NextHopAddressResolver(d, ScopingAddressRanges(d)[i]))
  {
    var ranges := ScopingAddressRanges(d);
    var routeAddressRanges: seq<AddressRange> := [];
    var i := 0;
    while i < |ranges|
      invariant 0 <= i <= |ranges|
      invariant |routeAddressRanges| == i
      invariant forall k :: 0 <= k < i ==>
        routeAddressRanges[k] == AddressRange(ranges[k].range, NextHopAddressResolver(d, ranges[k]))
    {
      var addressRange := ranges[i];
      routeAddressRanges := routeAddressRanges + [AddressRange(addressRange.range, NextHopAddressResolver(d, addressRange))];
      i := i + 1;
    }
    opts := ProviderOptions(
      if d.failoverAddresses.Some? then d.failoverAddresses.value.scopingTags else None,
      if d.failoverRoutes.Some? then d.failoverRoutes.value.scopingTags else None,
      routeAddressRanges,
      d.externalStorageTags);
  }
}
