/** The AWS provider's apply side: the EC2 calls that carry out a plan, in
    the order the provider issues them, against a fake EC2 that records every
    call and rejects a fixed set of them; and the `updateAddresses` /
    `updateRoutes` entry points that choose between discovering, applying a
    given plan, or both. */
module AwsApply {
  import opened Base
  import opened Strings
  import opened Plans
  import opened AwsDiscovery

  const DESTINATION_V4_KEY := "DestinationCidrBlock"
  const DESTINATION_V6_KEY := "DestinationIpv6CidrBlock"
  /** The rejection of a refused EC2 call (the SDK's error itself is not modelled). */
  const EC2_REJECTED := "EC2 request rejected"

  /** The mutating EC2 requests, with their parameters. */
  datatype Ec2Call =
    | DisassociateAddress(associationId: string)
    | AssociateAddress(allocationId: Option<string>, nicId: string, privateIp: string, allowReassociation: bool)
    | UnassignPrivateIpAddresses(nicId: string, addresses: seq<string>)
    | AssignPrivateIpAddresses(nicId: string, addresses: seq<string>)
    | ReplaceRoute(routeTableId: string, nicId: string, destinationKey: string, destination: Option<string>)

  /** A recorded EC2: it answers the describe calls of discovery with fixed
      data, logs every mutating request and rejects those in `rejects`. */
  class Ec2Fake {
    const rejects: set<Ec2Call>
    /** `describeAddresses` with the scoping tags: the elastic IPs in scope. */
    const elasticIps: seq<ElasticIp>
    /** `describeAddresses` without tag filters, which the look-up by public
        address (a `public-ip` filter) selects from. */
    const accountElasticIps: seq<ElasticIp>
    /** This instance's secondary private addresses and their NIC ids. */
    const secondaryIps: map<string, string>
    /** `describeNetworkInterfaces` with the scoping tags. */
    const nics: seq<Nic>
    /** `describeRouteTables` with the route scoping tags. */
    const routeTables: seq<RouteTable>
    var log: seq<Ec2Call>

    constructor(rejects: set<Ec2Call>, elasticIps: seq<ElasticIp>, accountElasticIps: seq<ElasticIp>,
                secondaryIps: map<string, string>, nics: seq<Nic>, routeTables: seq<RouteTable>)
      ensures this.rejects == rejects && this.elasticIps == elasticIps && this.accountElasticIps == accountElasticIps
      ensures this.secondaryIps == secondaryIps
      ensures this.nics == nics && this.routeTables == routeTables
      ensures log == []
    {
      this.rejects := rejects;
      this.elasticIps := elasticIps;
      this.accountElasticIps := accountElasticIps;
      this.secondaryIps := secondaryIps;
      this.nics := nics;
      this.routeTables := routeTables;
      log := [];
    }

    /** Issue one request; it resolves unless it is one EC2 rejects. */
    method Send(c: Ec2Call) returns (ok: bool)
      modifies this`log
      ensures log == old(log) + [c]
      ensures ok <==> c !in rejects
    {
      log := log + [c];
      ok := c !in rejects;
    }
  }

  /** None of the calls is rejected (each awaited promise resolved). */
  predicate Accepted(calls: seq<Ec2Call>, rejects: set<Ec2Call>) {
    forall c :: c in calls ==> c !in rejects
  }

  lemma AcceptedSnoc(a: seq<Ec2Call>, c: Ec2Call, rejects: set<Ec2Call>)
    ensures Accepted(a + [c], rejects) <==> Accepted(a, rejects) && c !in rejects
  {
  }

  /** A concatenation of call batches resolves iff both batches do. */
  lemma AcceptedAppend(a: seq<Ec2Call>, b: seq<Ec2Call>, rejects: set<Ec2Call>)
    ensures Accepted(a + b, rejects) <==> Accepted(a, rejects) && Accepted(b, rejects)
  {
  }

  /** One loop iteration that issues `step` after `done`: the log and the
      outcome so far extend to `done + step`. */
  lemma LogStep(log0: seq<Ec2Call>, log1: seq<Ec2Call>, log2: seq<Ec2Call>, done: seq<Ec2Call>, step: seq<Ec2Call>,
                total: seq<Ec2Call>, ok: bool, stepOk: bool, rejects: set<Ec2Call>)
    requires total == done + step
    requires log1 == log0 + done && (ok <==> Accepted(done, rejects))
    requires log2 == log1 + step && (stepOk <==> Accepted(step, rejects))
    ensures log2 == log0 + total && (ok && stepOk <==> Accepted(total, rejects))
  {
  }

  // ---------------------------------------------------------------------
  // Elastic IPs (`_reassociatePublicAddresses`)
  // ---------------------------------------------------------------------

  /** The disassociations: one per entry that is currently associated. */
  function DisassociateCalls(ops: seq<PublicEntry>): (calls: seq<Ec2Call>)
    ensures forall i :: 0 <= i < |calls| ==> calls[i].DisassociateAddress?
  {
    if ops == [] then []
    else
      var current := ops[|ops| - 1].op.currentAssociationId;
      DisassociateCalls(ops[..|ops| - 1]) + (if Truthy(current) then [DisassociateAddress(current.value)] else [])
  }

  /** An entry can be associated when it has an allocation id, a target NIC
      and a target private address. */
  predicate Associable(op: PublicAddressOp) {
    Truthy(op.allocationId) && op.targetNicId != "" && op.targetPrivateIp != ""
  }

  function AssociateCall(op: PublicAddressOp): Ec2Call {
    AssociateAddress(op.allocationId, op.targetNicId, op.targetPrivateIp, true)
  }

  /** The associations: one per entry with everything it needs. */
  function AssociateCalls(ops: seq<PublicEntry>): (calls: seq<Ec2Call>)
    ensures forall i :: 0 <= i < |calls| ==> calls[i].AssociateAddress?
  {
    if ops == [] then []
    else
      var op := ops[|ops| - 1].op;
      AssociateCalls(ops[..|ops| - 1]) + (if Associable(op) then [AssociateCall(op)] else [])
  }

  /** The disassociation one entry contributes. */
  function DisassociateFor(e: PublicEntry): seq<Ec2Call> {
    if Truthy(e.op.currentAssociationId) then [DisassociateAddress(e.op.currentAssociationId.value)] else []
  }

  /** The association one entry contributes. */
  function AssociateFor(e: PublicEntry): seq<Ec2Call> {
    if Associable(e.op) then [AssociateCall(e.op)] else []
  }

  lemma DisassociateCallsStep(ops: seq<PublicEntry>, i: nat)
    requires i < |ops|
    ensures DisassociateCalls(ops[..i + 1]) == DisassociateCalls(ops[..i]) + DisassociateFor(ops[i])
  {
    assert ops[..i + 1][..i] == ops[..i];
  }

  lemma AssociateCallsStep(ops: seq<PublicEntry>, i: nat)
    requires i < |ops|
    ensures AssociateCalls(ops[..i + 1]) == AssociateCalls(ops[..i]) + AssociateFor(ops[i])
  {
    assert ops[..i + 1][..i] == ops[..i];
  }

  /** The calls `_reassociatePublicAddresses` issues: all disassociations,
      and the associations only once every disassociation has resolved. */
  function PublicReassociationCalls(ops: seq<PublicEntry>, rejects: set<Ec2Call>): seq<Ec2Call> {
    var release := DisassociateCalls(ops);
    release + (if Accepted(release, rejects) then AssociateCalls(ops) else [])
  }

  lemma {:induction false} DisassociateCallsMeaning(ops: seq<PublicEntry>)
    ensures forall c :: c in DisassociateCalls(ops) <==>
      exists k :: 0 <= k < |ops| && Truthy(ops[k].op.currentAssociationId) &&
        c == DisassociateAddress(ops[k].op.currentAssociationId.value)
  {
    if ops != [] {
      var init := ops[..|ops| - 1];
      DisassociateCallsMeaning(init);
      assert forall k :: 0 <= k < |init| ==> init[k] == ops[k];
    }
  }

  lemma {:induction false} AssociateCallsMeaning(ops: seq<PublicEntry>)
    ensures forall c :: c in AssociateCalls(ops) <==>
      exists k :: 0 <= k < |ops| && Associable(ops[k].op) && c == AssociateCall(ops[k].op)
  {
    if ops != [] {
      var init := ops[..|ops| - 1];
      AssociateCallsMeaning(init);
      assert forall k :: 0 <= k < |init| ==> init[k] == ops[k];
    }
  }

  /** Release before claim: every disassociation is issued before any
      association; associations are issued only after all disassociations
      resolved, and then one for each entry with an allocation id, a NIC and
      a private address (allowing reassociation); every currently associated
      entry is disassociated. */
  lemma PublicReassociationOrder(ops: seq<PublicEntry>, rejects: set<Ec2Call>)
    ensures var calls := PublicReassociationCalls(ops, rejects);
      && (forall i, j :: 0 <= i < j < |calls| && calls[i].AssociateAddress? ==> calls[j].AssociateAddress?)
      && (forall j :: 0 <= j < |calls| && calls[j].AssociateAddress? ==>
            Accepted(DisassociateCalls(ops), rejects) && calls[j].allowReassociation &&
            Truthy(calls[j].allocationId) && calls[j].nicId != "" && calls[j].privateIp != "")
      && (forall k :: 0 <= k < |ops| && Truthy(ops[k].op.currentAssociationId) ==>
            DisassociateAddress(ops[k].op.currentAssociationId.value) in calls)
      && (Accepted(DisassociateCalls(ops), rejects) ==>
            forall k :: 0 <= k < |ops| && Associable(ops[k].op) ==> AssociateCall(ops[k].op) in calls)
  {
    var release := DisassociateCalls(ops);
    var calls := PublicReassociationCalls(ops, rejects);
    DisassociateCallsMeaning(ops);
    AssociateCallsMeaning(ops);
    forall j | 0 <= j < |calls| && calls[j].AssociateAddress?
      ensures Accepted(release, rejects) && calls[j].allowReassociation &&
        Truthy(calls[j].allocationId) && calls[j].nicId != "" && calls[j].privateIp != ""
    {
      assert j >= |release|;
      var claim := AssociateCalls(ops);
      assert calls[j] == claim[j - |release|];
      assert claim[j - |release|] in claim;
    }
  }

  // ---------------------------------------------------------------------
  // Secondary private addresses (`_reassociateAddresses`)
  // ---------------------------------------------------------------------

  function AddressesOf(moved: seq<MovedAddress>): seq<string> {
    seq(|moved|, i requires 0 <= i < |moved| => moved[i].address)
  }

  /** The unassign requests: one per disassociate batch. */
  function UnassignCalls(batches: seq<NicBatch>): seq<Ec2Call> {
    if batches == [] then []
    else
      var b := batches[|batches| - 1];
      UnassignCalls(batches[..|batches| - 1]) + [UnassignPrivateIpAddresses(b.nicId, AddressesOf(b.addresses))]
  }

  /** One unassign request per batch, in batch order. */
  lemma {:induction false} UnassignCallsMeaning(batches: seq<NicBatch>)
    ensures |UnassignCalls(batches)| == |batches|
    ensures forall i :: 0 <= i < |batches| ==>
      UnassignCalls(batches)[i] == UnassignPrivateIpAddresses(batches[i].nicId, AddressesOf(batches[i].addresses))
  {
    if batches != [] {
      var init := batches[..|batches| - 1];
      UnassignCallsMeaning(init);
      assert forall i :: 0 <= i < |init| ==> init[i] == batches[i];
    }
  }

  /** The first elastic IP with this public address (`Addresses[0]`). */
  function FirstWithPublicIp(eips: seq<ElasticIp>, publicIp: string): Option<ElasticIp> {
    if eips == [] then None
    else if eips[0].publicIp == publicIp then Some(eips[0])
    else FirstWithPublicIp(eips[1..], publicIp)
  }

  /** `_reassociatePublicAddressToNic`: disassociate the elastic IP if it is
      associated, then (if that resolved) associate it with the address. */
  function PublicToNicCalls(publicIp: string, nicId: string, address: string, eips: seq<ElasticIp>,
                            rejects: set<Ec2Call>): seq<Ec2Call>
  {
    var info := FirstWithPublicIp(eips, publicIp);
    var associationId := if info.Some? then info.value.associationId else None;
    var claim := AssociateAddress(if info.Some? then info.value.allocationId else None, nicId, address, true);
    if Truthy(associationId) then
      var release := DisassociateAddress(associationId.value);
      [release] + (if release !in rejects then [claim] else [])
    else [claim]
  }

  /** The public addresses that follow the moved private addresses. */
  function FollowCalls(moved: seq<MovedAddress>, nicId: string, eips: seq<ElasticIp>, rejects: set<Ec2Call>)
    : seq<Ec2Call>
  {
    if moved == [] then []
    else
      var m := moved[|moved| - 1];
      FollowCalls(moved[..|moved| - 1], nicId, eips, rejects) +
        (if Truthy(m.publicAddress) then PublicToNicCalls(m.publicAddress.value, nicId, m.address, eips, rejects) else [])
  }

  /** The calls one moved address contributes: its public address follows
      when it has one. */
  function FollowFor(m: MovedAddress, nicId: string, eips: seq<ElasticIp>, rejects: set<Ec2Call>): seq<Ec2Call> {
    if Truthy(m.publicAddress) then PublicToNicCalls(m.publicAddress.value, nicId, m.address, eips, rejects) else []
  }

  lemma FollowCallsStep(moved: seq<MovedAddress>, i: nat, nicId: string, eips: seq<ElasticIp>, rejects: set<Ec2Call>)
    requires i < |moved|
    ensures FollowCalls(moved[..i + 1], nicId, eips, rejects) ==
      FollowCalls(moved[..i], nicId, eips, rejects) + FollowFor(moved[i], nicId, eips, rejects)
  {
    assert moved[..i + 1][..i] == moved[..i];
  }

  lemma UnassignCallsStep(batches: seq<NicBatch>, i: nat)
    requires i < |batches|
    ensures UnassignCalls(batches[..i + 1]) ==
      UnassignCalls(batches[..i]) + [UnassignPrivateIpAddresses(batches[i].nicId, AddressesOf(batches[i].addresses))]
  {
    assert batches[..i + 1][..i] == batches[..i];
  }

  lemma AssignCallsStep(batches: seq<NicBatch>, i: nat, eips: seq<ElasticIp>, rejects: set<Ec2Call>)
    requires i < |batches|
    ensures AssignCalls(batches[..i + 1], eips, rejects) ==
      AssignCalls(batches[..i], eips, rejects) + AssignBatchCalls(batches[i], eips, rejects)
  {
    assert batches[..i + 1][..i] == batches[..i];
  }

  /** `_associateAddressToNic`: assign the addresses, then (if that resolved)
      move their public addresses along. */
  function AssignBatchCalls(batch: NicBatch, eips: seq<ElasticIp>, rejects: set<Ec2Call>): seq<Ec2Call> {
    var claim := AssignPrivateIpAddresses(batch.nicId, AddressesOf(batch.addresses));
    [claim] + (if claim !in rejects then FollowCalls(batch.addresses, batch.nicId, eips, rejects) else [])
  }

  function AssignCalls(batches: seq<NicBatch>, eips: seq<ElasticIp>, rejects: set<Ec2Call>): seq<Ec2Call> {
    if batches == [] then []
    else AssignCalls(batches[..|batches| - 1], eips, rejects) + AssignBatchCalls(batches[|batches| - 1], eips, rejects)
  }

  /** The calls `_reassociateAddresses` issues: all unassigns, and the
      assign phase only once every unassign has resolved. */
  function InterfaceCalls(ops: InterfaceOps, eips: seq<ElasticIp>, rejects: set<Ec2Call>): seq<Ec2Call> {
    var release := UnassignCalls(ops.disassociate);
    release + (if Accepted(release, rejects) then AssignCalls(ops.associate, eips, rejects) else [])
  }

  lemma {:induction false} FollowCallsShape(moved: seq<MovedAddress>, nicId: string, eips: seq<ElasticIp>,
                                            rejects: set<Ec2Call>)
    ensures forall c :: c in FollowCalls(moved, nicId, eips, rejects) ==>
      c.DisassociateAddress? || (c.AssociateAddress? && c.nicId == nicId)
  {
    if moved != [] {
      FollowCallsShape(moved[..|moved| - 1], nicId, eips, rejects);
    }
  }

  /** The assign phase holds no unassign, and it assigns to exactly the NICs
      of the associate batches, in order. */
  lemma {:induction false} AssignCallsShape(batches: seq<NicBatch>, eips: seq<ElasticIp>, rejects: set<Ec2Call>)
    ensures forall c :: c in AssignCalls(batches, eips, rejects) ==> !c.UnassignPrivateIpAddresses?
    ensures forall k :: 0 <= k < |batches| ==>
      AssignPrivateIpAddresses(batches[k].nicId, AddressesOf(batches[k].addresses)) in AssignCalls(batches, eips, rejects)
  {
    if batches != [] {
      var init := batches[..|batches| - 1];
      var last := batches[|batches| - 1];
      var done := AssignCalls(init, eips, rejects);
      var step := AssignBatchCalls(last, eips, rejects);
      assert AssignCalls(batches, eips, rejects) == done + step;
      AssignCallsShape(init, eips, rejects);
      AssignBatchShape(last, eips, rejects);
      forall k | 0 <= k < |batches|
        ensures AssignPrivateIpAddresses(batches[k].nicId, AddressesOf(batches[k].addresses)) in done + step
      {
        if k < |init| {
          assert init[k] == batches[k];
        }
      }
    }
  }

  /** One batch's calls: its assign request, and no unassign. */
  lemma AssignBatchShape(batch: NicBatch, eips: seq<ElasticIp>, rejects: set<Ec2Call>)
    ensures forall c :: c in AssignBatchCalls(batch, eips, rejects) ==> !c.UnassignPrivateIpAddresses?
    ensures AssignPrivateIpAddresses(batch.nicId, AddressesOf(batch.addresses)) in AssignBatchCalls(batch, eips, rejects)
  {
    FollowCallsShape(batch.addresses, batch.nicId, eips, rejects);
  }

  /** Release before claim for private addresses: the calls open with one
      unassign per disassociate batch, in order, and no later call is an
      unassign; anything after them is issued only once all of them resolved. */
  lemma ReassociationReleasesFirst(ops: InterfaceOps, eips: seq<ElasticIp>, rejects: set<Ec2Call>)
    ensures var calls := InterfaceCalls(ops, eips, rejects);
      && |ops.disassociate| <= |calls|
      && (forall k :: 0 <= k < |ops.disassociate| ==>
            calls[k] == UnassignPrivateIpAddresses(ops.disassociate[k].nicId, AddressesOf(ops.disassociate[k].addresses)))
      && (forall j :: |ops.disassociate| <= j < |calls| ==> !calls[j].UnassignPrivateIpAddresses?)
      && (|ops.disassociate| < |calls| ==> Accepted(UnassignCalls(ops.disassociate), rejects))
  {
    var release := UnassignCalls(ops.disassociate);
    var calls := InterfaceCalls(ops, eips, rejects);
    UnassignCallsMeaning(ops.disassociate);
    AssignCallsShape(ops.associate, eips, rejects);
    if Accepted(release, rejects) {
      var claim := AssignCalls(ops.associate, eips, rejects);
      assert calls == release + claim;
      forall j | |release| <= j < |calls| ensures !calls[j].UnassignPrivateIpAddresses? {
        assert calls[j] == claim[j - |release|];
        assert claim[j - |release|] in claim;
      }
    } else {
      assert calls == release + [];
    }
  }

  /** Once every unassign resolved, each associate batch gets its assign
      request. */
  lemma ReassociationClaims(ops: InterfaceOps, eips: seq<ElasticIp>, rejects: set<Ec2Call>)
    requires Accepted(UnassignCalls(ops.disassociate), rejects)
    ensures forall k :: 0 <= k < |ops.associate| ==>
      AssignPrivateIpAddresses(ops.associate[k].nicId, AddressesOf(ops.associate[k].addresses))
        in InterfaceCalls(ops, eips, rejects)
  {
    AssignCallsShape(ops.associate, eips, rejects);
  }

  // ---------------------------------------------------------------------
  // Routes (`_updateRoutes`, `_updateRouteTable`, `_replaceRoute`)
  // ---------------------------------------------------------------------

  /** `_replaceRoute`'s request: IPv6 destination for version "6", IPv4
      destination otherwise. */
  function ReplaceRouteCall(destCidr: Option<string>, nicId: string, routeTableId: string, ipVersion: string): Ec2Call {
    ReplaceRoute(routeTableId, nicId, if ipVersion == "6" then DESTINATION_V6_KEY else DESTINATION_V4_KEY, destCidr)
  }

  /** The destination a route holds under a request key. */
  function RouteField(route: Route, key: string): Option<string> {
    if key == DESTINATION_V6_KEY then route.destinationIpv6CidrBlock else route.destinationCidrBlock
  }

  /** The request that replaces a route names it by exactly one destination
      key, the IPv6 key iff the route has an IPv6 destination, with the value
      the route holds under that key. */
  lemma ReplaceRouteNamesRoute(route: Route, nicId: string, routeTableId: string)
    ensures var info := ResolveRouteCidrBlock(route);
      var c := ReplaceRouteCall(info.cidrBlock, nicId, routeTableId, info.ipVersion);
      && (c.destinationKey == DESTINATION_V6_KEY || c.destinationKey == DESTINATION_V4_KEY)
      && (c.destinationKey == DESTINATION_V6_KEY <==> Truthy(route.destinationIpv6CidrBlock))
      && c.destination == RouteField(route, c.destinationKey)
      && c.routeTableId == routeTableId && c.nicId == nicId
  {
  }

  /** A route of the table is replaced when its destination occurs in the
      range text. */
  predicate InRange(route: Route, routeAddresses: string) {
    Contains(routeAddresses, JsText(ResolveRouteCidrBlock(route).cidrBlock))
  }

  function ReplaceFor(route: Route, nicId: string, routeTableId: string): Ec2Call {
    var info := ResolveRouteCidrBlock(route);
    ReplaceRouteCall(info.cidrBlock, nicId, routeTableId, info.ipVersion)
  }

  /** The request one route of the table contributes: a replace when it is
      in range, nothing otherwise. */
  function RouteReplace(route: Route, nicId: string, routeTableId: string, routeAddresses: string): seq<Ec2Call> {
    if InRange(route, routeAddresses) then [ReplaceFor(route, nicId, routeTableId)] else []
  }

  /** `_updateRouteTable`: one replace request per route in range. */
  function RouteTableCalls(routes: seq<Route>, nicId: string, routeTableId: string, routeAddresses: string)
    : seq<Ec2Call>
  {
    if routes == [] then []
    else
      var route := routes[|routes| - 1];
      RouteTableCalls(routes[..|routes| - 1], nicId, routeTableId, routeAddresses) +
        (if InRange(route, routeAddresses) then [ReplaceFor(route, nicId, routeTableId)] else [])
  }

  lemma RouteTableCallsStep(routes: seq<Route>, i: nat, nicId: string, routeTableId: string, routeAddresses: string)
    requires i < |routes|
    ensures RouteTableCalls(routes[..i + 1], nicId, routeTableId, routeAddresses) ==
      RouteTableCalls(routes[..i], nicId, routeTableId, routeAddresses) +
        RouteReplace(routes[i], nicId, routeTableId, routeAddresses)
  {
    assert routes[..i + 1][..i] == routes[..i];
  }

  /** `_updateRoutes` on a list of operations. */
  function RouteCalls(ops: seq<RouteOperation>): seq<Ec2Call> {
    if ops == [] then []
    else
      var op := ops[|ops| - 1];
      RouteCalls(ops[..|ops| - 1]) + RouteTableCalls(op.routeTable.routes, op.nicId, op.routeTable.id, op.routeAddresses)
  }

  lemma RouteCallsStep(ops: seq<RouteOperation>, i: nat)
    requires i < |ops|
    ensures RouteCalls(ops[..i + 1]) ==
      RouteCalls(ops[..i]) + RouteTableCalls(ops[i].routeTable.routes, ops[i].nicId, ops[i].routeTable.id, ops[i].routeAddresses)
  {
    assert ops[..i + 1][..i] == ops[..i];
  }

  lemma {:induction false} RouteTableCallsMeaning(routes: seq<Route>, nicId: string, routeTableId: string,
                                                  routeAddresses: string)
    ensures forall c :: c in RouteTableCalls(routes, nicId, routeTableId, routeAddresses) <==>
      exists route :: route in routes && InRange(route, routeAddresses) && c == ReplaceFor(route, nicId, routeTableId)
  {
    if routes != [] {
      var init := routes[..|routes| - 1];
      RouteTableCallsMeaning(init, nicId, routeTableId, routeAddresses);
      assert routes == init + [routes[|routes| - 1]];
    }
  }

  /** The replace requests of `_updateRoutes`: each one re-points a route in
      range of an operation's table to that operation's NIC, and every such
      route is re-pointed. */
  lemma {:induction false} RouteCallsMeaning(ops: seq<RouteOperation>)
    ensures forall c :: c in RouteCalls(ops) <==>
      exists k, route :: 0 <= k < |ops| && route in ops[k].routeTable.routes &&
        InRange(route, ops[k].routeAddresses) && c == ReplaceFor(route, ops[k].nicId, ops[k].routeTable.id)
  {
    if ops != [] {
      var init := ops[..|ops| - 1];
      var op := ops[|ops| - 1];
      RouteCallsMeaning(init);
      RouteTableCallsMeaning(op.routeTable.routes, op.nicId, op.routeTable.id, op.routeAddresses);
      assert forall k :: 0 <= k < |init| ==> init[k] == ops[k];
    }
  }

  // ---------------------------------------------------------------------
  // Plans (`_updateAddresses`, `_updateRoutes`)
  // ---------------------------------------------------------------------

  /** `_updateAddresses`: nothing for no plan or an object without keys; an
      address plan reassociates elastic IPs and private addresses; an array
      has no `publicAddresses` or `interfaces`, so it issues nothing. */
  function AddressPlanCalls(plan: Option<Plan>, eips: seq<ElasticIp>, rejects: set<Ec2Call>): seq<Ec2Call> {
    if plan.Some? && plan.value.AddressOps? then
      PublicReassociationCalls(plan.value.publicAddresses, rejects) + InterfaceCalls(plan.value.interfaces, eips, rejects)
    else []
  }

  /** `_updateRoutes`: only a non-empty array of operations issues requests. */
  function RoutePlanCalls(plan: Option<Plan>): seq<Ec2Call> {
    if plan.Some? && plan.value.RouteOps? then RouteCalls(plan.value.routes) else []
  }

  /** An empty or absent route plan, or one of another shape (such as the
      `{}` the orchestrator hands over when only routes are enabled), issues
      no replace request. */
  lemma NonRoutePlanReplacesNothing(plan: Option<Plan>)
    requires plan.None? || !plan.value.RouteOps? || plan.value.routes == []
    ensures RoutePlanCalls(plan) == []
  {
  }

  /** Which branch `updateAddresses` / `updateRoutes` takes. */
  datatype Mode = DiscoverOnly | ApplyGiven | DiscoverAndApply

  /** `discoverOnly === true` wins; otherwise any given plan (every plan
      value is an object, so truthy) is applied as is; otherwise discover and
      apply. */
  function ModeOf(discoverOnly: Option<bool>, updateOperations: Option<Plan>): (m: Mode)
    ensures m == DiscoverOnly <==> discoverOnly == Some(true)
    ensures m == ApplyGiven <==> discoverOnly != Some(true) && updateOperations.Some?
    ensures m == DiscoverAndApply <==> discoverOnly != Some(true) && updateOperations.None?
  {
    if discoverOnly == Some(true) then DiscoverOnly
    else if updateOperations.Some? then ApplyGiven
    else DiscoverAndApply
  }

  /** The options of `updateAddresses` and `updateRoutes`. */
  datatype UpdateOptions = UpdateOptions(
    localAddresses: Option<seq<string>>,
    failoverAddresses: Option<seq<string>>,
    discoverOnly: Option<bool>,
    updateOperations: Option<Plan>)

  /** The AWS provider, over a recorded EC2. `vipsTagKeys` is the list of
      tag keys that name an elastic IP's target addresses; the provider reads
      it from the constant `AWS_VIPS_TAGS`, which is undefined. */
  class AwsCloud {
    const ec2: Ec2Fake
    const routeContext: RouteContext
    const vipsTagKeys: Option<seq<string>>

    constructor(ec2: Ec2Fake, routeContext: RouteContext, vipsTagKeys: Option<seq<string>>)
      ensures this.ec2 == ec2 && this.routeContext == routeContext && this.vipsTagKeys == vipsTagKeys
    {
      this.ec2 := ec2;
      this.routeContext := routeContext;
      this.vipsTagKeys := vipsTagKeys;
    }

    /** `_reassociatePublicAddresses`. */
    method ReassociatePublicAddresses(operations: seq<PublicEntry>) returns (ok: bool)
      modifies ec2`log
      ensures ec2.log == old(ec2.log) + PublicReassociationCalls(operations, ec2.rejects)
      ensures ok <==> Accepted(PublicReassociationCalls(operations, ec2.rejects), ec2.rejects)
    {
      var released := DisassociateAll(operations);
      if !released {
        assert DisassociateCalls(operations) + [] == DisassociateCalls(operations);
        return false;
      }
      ok := AssociateAll(operations);
      AcceptedAppend(DisassociateCalls(operations), AssociateCalls(operations), ec2.rejects);
    }

    /** The disassociation half of `_reassociatePublicAddresses`. */
    method DisassociateAll(operations: seq<PublicEntry>) returns (released: bool)
      modifies ec2`log
      ensures ec2.log == old(ec2.log) + DisassociateCalls(operations)
      ensures released <==> Accepted(DisassociateCalls(operations), ec2.rejects)
    {
      ghost var log0 := ec2.log;
      released := true;
      var i := 0;
      while i < |operations|
        invariant 0 <= i <= |operations|
        invariant ec2.log == log0 + DisassociateCalls(operations[..i])
        invariant released <==> Accepted(DisassociateCalls(operations[..i]), ec2.rejects)
      {
        ghost var log1 := ec2.log;
        var associationId := operations[i].op.currentAssociationId;
        var sent := true;
        if Truthy(associationId) {
          sent := ec2.Send(DisassociateAddress(associationId.value));
        } else {
          assert ec2.log == log1 + [];
        }
        DisassociateCallsStep(operations, i);
        LogStep(log0, log1, ec2.log, DisassociateCalls(operations[..i]), DisassociateFor(operations[i]),
                DisassociateCalls(operations[..i + 1]), released, sent, ec2.rejects);
        released := released && sent;
        i := i + 1;
      }
      assert operations[..i] == operations;
    }

    /** The association half of `_reassociatePublicAddresses`. */
    method AssociateAll(operations: seq<PublicEntry>) returns (ok: bool)
      modifies ec2`log
      ensures ec2.log == old(ec2.log) + AssociateCalls(operations)
      ensures ok <==> Accepted(AssociateCalls(operations), ec2.rejects)
    {
      ghost var log0 := ec2.log;
      ok := true;
      var i := 0;
      while i < |operations|
        invariant 0 <= i <= |operations|
        invariant ec2.log == log0 + AssociateCalls(operations[..i])
        invariant ok <==> Accepted(AssociateCalls(operations[..i]), ec2.rejects)
      {
        ghost var log1 := ec2.log;
        var op := operations[i].op;
        var sent := true;
        if Truthy(op.allocationId) && op.targetNicId != "" && op.targetPrivateIp != "" {
          sent := ec2.Send(AssociateCall(op));
        } else {
          assert ec2.log == log1 + [];
        }
        AssociateCallsStep(operations, i);
        LogStep(log0, log1, ec2.log, AssociateCalls(operations[..i]), AssociateFor(operations[i]),
                AssociateCalls(operations[..i + 1]), ok, sent, ec2.rejects);
        ok := ok && sent;
        i := i + 1;
      }
      assert operations[..i] == operations;
    }

    /** `_reassociatePublicAddressToNic`. */
    method ReassociatePublicAddressToNic(publicAddress: string, networkInterfaceId: string, privateAddress: string)
      returns (ok: bool)
      modifies ec2`log
      ensures ec2.log == old(ec2.log) + PublicToNicCalls(publicAddress, networkInterfaceId, privateAddress, ec2.accountElasticIps, ec2.rejects)
      ensures ok <==> Accepted(PublicToNicCalls(publicAddress, networkInterfaceId, privateAddress, ec2.accountElasticIps, ec2.rejects), ec2.rejects)
    {
      var addressInfo := FirstWithPublicIp(ec2.accountElasticIps, publicAddress);
      var associationId := if addressInfo.Some? then addressInfo.value.associationId else None;
      var allocationId := if addressInfo.Some? then addressInfo.value.allocationId else None;
      var claim := AssociateAddress(allocationId, networkInterfaceId, privateAddress, true);
      if Truthy(associationId) {
        var release := DisassociateAddress(associationId.value);
        ok := ec2.Send(release);
        AcceptedSnoc([], release, ec2.rejects);
        if !ok {
          assert [release] + [] == [release];
          return;
        }
        ok := ec2.Send(claim);
        AcceptedSnoc([release], claim, ec2.rejects);
      } else {
        ok := ec2.Send(claim);
        AcceptedSnoc([], claim, ec2.rejects);
      }
    }

    /** `_associateAddressToNic`. */
    method AssociateAddressToNic(batch: NicBatch) returns (ok: bool)
      modifies ec2`log
      ensures ec2.log == old(ec2.log) + AssignBatchCalls(batch, ec2.accountElasticIps, ec2.rejects)
      ensures ok <==> Accepted(AssignBatchCalls(batch, ec2.accountElasticIps, ec2.rejects), ec2.rejects)
    {
      var claim := AssignPrivateIpAddresses(batch.nicId, AddressesOf(batch.addresses));
      ok := ec2.Send(claim);
      AcceptedSnoc([], claim, ec2.rejects);
      if !ok {
        assert [claim] + [] == [claim];
        return;
      }
      ghost var log0 := ec2.log;
      var addresses := batch.addresses;
      var i := 0;
      while i < |addresses|
        invariant 0 <= i <= |addresses|
        invariant ec2.log == log0 + FollowCalls(addresses[..i], batch.nicId, ec2.accountElasticIps, ec2.rejects)
        invariant ok <==> Accepted(FollowCalls(addresses[..i], batch.nicId, ec2.accountElasticIps, ec2.rejects), ec2.rejects)
      {
        ghost var log1 := ec2.log;
        var address := addresses[i];
        var moved := true;
        if Truthy(address.publicAddress) {
          moved := ReassociatePublicAddressToNic(address.publicAddress.value, batch.nicId, address.address);
        } else {
          assert ec2.log == log1 + [];
        }
        FollowCallsStep(addresses, i, batch.nicId, ec2.accountElasticIps, ec2.rejects);
        LogStep(log0, log1, ec2.log, FollowCalls(addresses[..i], batch.nicId, ec2.accountElasticIps, ec2.rejects),
                FollowFor(address, batch.nicId, ec2.accountElasticIps, ec2.rejects),
                FollowCalls(addresses[..i + 1], batch.nicId, ec2.accountElasticIps, ec2.rejects), ok, moved, ec2.rejects);
        ok := ok && moved;
        i := i + 1;
      }
      assert addresses[..i] == addresses;
      AcceptedAppend([claim], FollowCalls(addresses, batch.nicId, ec2.accountElasticIps, ec2.rejects), ec2.rejects);
    }

    /** `_reassociateAddresses`. */
    method ReassociateAddresses(operations: InterfaceOps) returns (ok: bool)
      modifies ec2`log
      ensures ec2.log == old(ec2.log) + InterfaceCalls(operations, ec2.accountElasticIps, ec2.rejects)
      ensures ok <==> Accepted(InterfaceCalls(operations, ec2.accountElasticIps, ec2.rejects), ec2.rejects)
    {
      var disassociate := operations.disassociate;
      var released := UnassignAll(disassociate);
      if !released {
        assert UnassignCalls(disassociate) + [] == UnassignCalls(disassociate);
        return false;
      }
      ok := AssignAll(operations.associate);
      AcceptedAppend(UnassignCalls(disassociate), AssignCalls(operations.associate, ec2.accountElasticIps, ec2.rejects), ec2.rejects);
    }

    /** The unassign half of `_reassociateAddresses`. */
    method UnassignAll(disassociate: seq<NicBatch>) returns (released: bool)
      modifies ec2`log
      ensures ec2.log == old(ec2.log) + UnassignCalls(disassociate)
      ensures released <==> Accepted(UnassignCalls(disassociate), ec2.rejects)
    {
      ghost var log0 := ec2.log;
      released := true;
      var i := 0;
      while i < |disassociate|
        invariant 0 <= i <= |disassociate|
        invariant ec2.log == log0 + UnassignCalls(disassociate[..i])
        invariant released <==> Accepted(UnassignCalls(disassociate[..i]), ec2.rejects)
      {
        ghost var log1 := ec2.log;
        var association := disassociate[i];
        var release := UnassignPrivateIpAddresses(association.nicId, AddressesOf(association.addresses));
        var sent := ec2.Send(release);
        UnassignCallsStep(disassociate, i);
        LogStep(log0, log1, ec2.log, UnassignCalls(disassociate[..i]), [release], UnassignCalls(disassociate[..i + 1]),
                released, sent, ec2.rejects);
        released := released && sent;
        i := i + 1;
      }
      assert disassociate[..i] == disassociate;
    }

    /** The assign half of `_reassociateAddresses`. */
    method AssignAll(associate: seq<NicBatch>) returns (ok: bool)
      modifies ec2`log
      ensures ec2.log == old(ec2.log) + AssignCalls(associate, ec2.accountElasticIps, ec2.rejects)
      ensures ok <==> Accepted(AssignCalls(associate, ec2.accountElasticIps, ec2.rejects), ec2.rejects)
    {
      ghost var log0 := ec2.log;
      ok := true;
      var i := 0;
      while i < |associate|
        invariant 0 <= i <= |associate|
        invariant ec2.log == log0 + AssignCalls(associate[..i], ec2.accountElasticIps, ec2.rejects)
        invariant ok <==> Accepted(AssignCalls(associate[..i], ec2.accountElasticIps, ec2.rejects), ec2.rejects)
      {
        ghost var log1 := ec2.log;
        var batchOk := AssociateAddressToNic(associate[i]);
        AssignCallsStep(associate, i, ec2.accountElasticIps, ec2.rejects);
        LogStep(log0, log1, ec2.log, AssignCalls(associate[..i], ec2.accountElasticIps, ec2.rejects),
                AssignBatchCalls(associate[i], ec2.accountElasticIps, ec2.rejects),
                AssignCalls(associate[..i + 1], ec2.accountElasticIps, ec2.rejects), ok, batchOk, ec2.rejects);
        ok := ok && batchOk;
        i := i + 1;
      }
      assert associate[..i] == associate;
    }

    /** `_updateAddresses`. */
    method ApplyAddressPlan(operations: Option<Plan>) returns (ok: bool)
      modifies ec2`log
      ensures ec2.log == old(ec2.log) + AddressPlanCalls(operations, ec2.accountElasticIps, ec2.rejects)
      ensures ok <==> Accepted(AddressPlanCalls(operations, ec2.accountElasticIps, ec2.rejects), ec2.rejects)
    {
      if operations.None? || !operations.value.AddressOps? {
        return true;
      }
      var publicOk := ReassociatePublicAddresses(operations.value.publicAddresses);
      var interfacesOk := ReassociateAddresses(operations.value.interfaces);
      AcceptedAppend(PublicReassociationCalls(operations.value.publicAddresses, ec2.rejects),
                     InterfaceCalls(operations.value.interfaces, ec2.accountElasticIps, ec2.rejects), ec2.rejects);
      ok := publicOk && interfacesOk;
    }

    /** One iteration of `_updateRouteTable`: replace the route when its
        destination is in range. */
    method ReplaceIfInRange(route: Route, networkInterfaceId: string, routeTableId: string, routeAddressRange: string)
      returns (ok: bool)
      modifies ec2`log
      ensures ec2.log == old(ec2.log) + RouteReplace(route, networkInterfaceId, routeTableId, routeAddressRange)
      ensures ok <==> Accepted(RouteReplace(route, networkInterfaceId, routeTableId, routeAddressRange), ec2.rejects)
    {
      if InRange(route, routeAddressRange) {
        ok := ec2.Send(ReplaceFor(route, networkInterfaceId, routeTableId));
      } else {
        ok := true;
      }
    }

    /** `_updateRouteTable`. */
    method UpdateRouteTable(routeTable: RouteTable, networkInterfaceId: string, routeAddressRange: string)
      returns (ok: bool)
      modifies ec2`log
      ensures ec2.log == old(ec2.log) + RouteTableCalls(routeTable.routes, networkInterfaceId, routeTable.id, routeAddressRange)
      ensures ok <==> Accepted(RouteTableCalls(routeTable.routes, networkInterfaceId, routeTable.id, routeAddressRange), ec2.rejects)
    {
      ghost var log0 := ec2.log;
      var routes := routeTable.routes;
      ok := true;
      var i := 0;
      while i < |routes|
        invariant 0 <= i <= |routes|
        invariant ec2.log == log0 + RouteTableCalls(routes[..i], networkInterfaceId, routeTable.id, routeAddressRange)
        invariant ok <==> Accepted(RouteTableCalls(routes[..i], networkInterfaceId, routeTable.id, routeAddressRange), ec2.rejects)
      {
        ghost var log1 := ec2.log;
        var sent := ReplaceIfInRange(routes[i], networkInterfaceId, routeTable.id, routeAddressRange);
        RouteTableCallsStep(routes, i, networkInterfaceId, routeTable.id, routeAddressRange);
        LogStep(log0, log1, ec2.log, RouteTableCalls(routes[..i], networkInterfaceId, routeTable.id, routeAddressRange),
                RouteReplace(routes[i], networkInterfaceId, routeTable.id, routeAddressRange),
                RouteTableCalls(routes[..i + 1], networkInterfaceId, routeTable.id, routeAddressRange), ok, sent, ec2.rejects);
        ok := ok && sent;
        i := i + 1;
      }
      assert routes[..i] == routes;
    }

    /** `_updateRoutes`. */
    method ApplyRoutePlan(operations: Option<Plan>) returns (ok: bool)
      modifies ec2`log
      ensures ec2.log == old(ec2.log) + RoutePlanCalls(operations)
      ensures ok <==> Accepted(RoutePlanCalls(operations), ec2.rejects)
    {
      if operations.None? || !operations.value.RouteOps? || |operations.value.routes| == 0 {
        return true;
      }
      ok := UpdateRouteTables(operations.value.routes);
    }

    /** The loop of `_updateRoutes` over a non-empty list of operations. */
    method UpdateRouteTables(ops: seq<RouteOperation>) returns (ok: bool)
      modifies ec2`log
      ensures ec2.log == old(ec2.log) + RouteCalls(ops)
      ensures ok <==> Accepted(RouteCalls(ops), ec2.rejects)
    {
      ghost var log0 := ec2.log;
      ok := true;
      var i := 0;
      while i < |ops|
        invariant 0 <= i <= |ops|
        invariant ec2.log == log0 + RouteCalls(ops[..i])
        invariant ok <==> Accepted(RouteCalls(ops[..i]), ec2.rejects)
      {
        ghost var log1 := ec2.log;
        var operation := ops[i];
        var updated := UpdateRouteTable(operation.routeTable, operation.nicId, operation.routeAddresses);
        RouteCallsStep(ops, i);
        LogStep(log0, log1, ec2.log, RouteCalls(ops[..i]),
                RouteTableCalls(operation.routeTable.routes, operation.nicId, operation.routeTable.id, operation.routeAddresses),
                RouteCalls(ops[..i + 1]), ok, updated, ec2.rejects);
        ok := ok && updated;
        i := i + 1;
      }
      assert ops[..i] == ops;
    }

    /** The address plan discovery finds with what EC2 reports. */
    function DiscoveredAddressPlan(options: UpdateOptions): Result<Plan, string>
      reads this, ec2
    {
      AddressPlanFor(ec2.elasticIps, ec2.secondaryIps, ec2.nics, vipsTagKeys,
                     options.localAddresses.GetOr([]), options.failoverAddresses.GetOr([]))
    }

    /** `updateAddresses`: discover only (no EC2 request), apply the given
      plan, or discover and apply what was found. */
    method UpdateAddresses(options: UpdateOptions) returns (r: Result<Option<Plan>, string>)
      modifies ec2`log
      ensures ModeOf(options.discoverOnly, options.updateOperations) == DiscoverOnly ==>
        ec2.log == old(ec2.log) &&
        r == (match DiscoveredAddressPlan(options) case Ok(p) => Ok(Some(p)) case Err(e) => Err(e))
      ensures ModeOf(options.discoverOnly, options.updateOperations) == ApplyGiven ==>
        var calls := AddressPlanCalls(options.updateOperations, ec2.accountElasticIps, ec2.rejects);
        ec2.log == old(ec2.log) + calls &&
        r == if Accepted(calls, ec2.rejects) then Ok(None) else Err(EC2_REJECTED)
      ensures ModeOf(options.discoverOnly, options.updateOperations) == DiscoverAndApply ==>
        match DiscoveredAddressPlan(options)
        case Err(e) => ec2.log == old(ec2.log) && r == Err(e)
        case Ok(p) =>
          var calls := AddressPlanCalls(Some(p), ec2.accountElasticIps, ec2.rejects);
          ec2.log == old(ec2.log) + calls &&
          r == if Accepted(calls, ec2.rejects) then Ok(None) else Err(EC2_REJECTED)
    {
      var mode := ModeOf(options.discoverOnly, options.updateOperations);
      if mode == ApplyGiven {
        var ok := ApplyAddressPlan(options.updateOperations);
        return if ok then Ok(None) else Err(EC2_REJECTED);
      }
      var discovered := DiscoverAddressOperations(ec2.elasticIps, ec2.secondaryIps, ec2.nics, vipsTagKeys,
                                                  options.localAddresses.GetOr([]), options.failoverAddresses.GetOr([]));
      if discovered.Err? {
        return Err(discovered.error);
      }
      if mode == DiscoverOnly {
        return Ok(Some(discovered.value));
      }
      var ok := ApplyAddressPlan(Some(discovered.value));
      return if ok then Ok(None) else Err(EC2_REJECTED);
    }

    /** `updateRoutes`: as `updateAddresses`, for the route plan. */
    method UpdateRoutes(options: UpdateOptions) returns (r: Result<Option<Plan>, string>)
      modifies ec2`log
      ensures ModeOf(options.discoverOnly, options.updateOperations) == DiscoverOnly ==>
        ec2.log == old(ec2.log) &&
        r == (match DiscoverRouteOperations(routeContext, options.localAddresses, ec2.routeTables)
              case Ok(ops) => Ok(Some(RouteOps(ops))) case Err(e) => Err(e))
      ensures ModeOf(options.discoverOnly, options.updateOperations) == ApplyGiven ==>
        var calls := RoutePlanCalls(options.updateOperations);
        ec2.log == old(ec2.log) + calls &&
        r == if Accepted(calls, ec2.rejects) then Ok(None) else Err(EC2_REJECTED)
      ensures ModeOf(options.discoverOnly, options.updateOperations) == DiscoverAndApply ==>
        match DiscoverRouteOperations(routeContext, options.localAddresses, ec2.routeTables)
        case Err(e) => ec2.log == old(ec2.log) && r == Err(e)
        case Ok(ops) =>
          ec2.log == old(ec2.log) + RouteCalls(ops) &&
          r == if Accepted(RouteCalls(ops), ec2.rejects) then Ok(None) else Err(EC2_REJECTED)
    {
      var mode := ModeOf(options.discoverOnly, options.updateOperations);
      if mode == ApplyGiven {
        var ok := ApplyRoutePlan(options.updateOperations);
        return if ok then Ok(None) else Err(EC2_REJECTED);
      }
      var discovered := DiscoverRouteOperations(routeContext, options.localAddresses, ec2.routeTables);
      if discovered.Err? {
        return Err(discovered.error);
      }
      if mode == DiscoverOnly {
        return Ok(Some(RouteOps(discovered.value)));
      }
      var ok := ApplyRoutePlan(Some(RouteOps(discovered.value)));
      return if ok then Ok(None) else Err(EC2_REJECTED);
    }
  }
}
