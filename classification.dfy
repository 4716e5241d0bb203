/** Turning the device's facts into the addresses that must follow this
    device: the traffic groups it is active for, its self addresses tagged
    with whether they float with such a group, the floating virtual, SNAT and
    NAT addresses, and the final split into local and failover addresses.
    Each operation is a loop (the code pushes inside `forEach`), proved
    against a specification function defined from the end of its input. */
module Classification {
  import opened Strings

  const ACTIVE := "active"
  const STANDBY := "standby"

  /** One entry of the traffic-group stats: device name, failover state and
      traffic group, each the `description` of its nested stat. */
  datatype TrafficGroupStat = TrafficGroupStat(deviceName: string, failoverState: string, trafficGroup: string)

  datatype TrafficGroup = TrafficGroup(name: string)

  /** A self IP as the device lists it (`address` may carry `/mask` and `%route-domain`). */
  datatype SelfAddress = SelfAddress(address: string, trafficGroup: string)

  datatype ClassifiedSelfAddress = ClassifiedSelfAddress(address: string, trafficGroup: string, trafficGroupMatch: bool)

  /** A virtual or SNAT translation address (its `address` key), or a NAT
      address seen through its `translationAddress` key. */
  datatype FloatingSource = FloatingSource(address: string, trafficGroup: string)

  datatype NatAddress = NatAddress(translationAddress: string, trafficGroup: string)

  datatype FloatingAddress = FloatingAddress(address: string)

  /** `{ localAddresses, failoverAddresses }`. */
  datatype AddressSets = AddressSets(localAddresses: seq<string>, failoverAddresses: seq<string>)

  // ---------------------------------------------------------------------
  // _getTrafficGroups

  /** The device name contains the hostname and the state is the one asked for. */
  predicate IsLocalFor(e: TrafficGroupStat, hostname: string, status: string) {
    Contains(e.deviceName, hostname) && e.failoverState == status
  }

  function LocalGroups(stats: seq<TrafficGroupStat>, hostname: string, status: string): seq<TrafficGroup>
  {
    if stats == [] then []
    else
      var e := stats[|stats| - 1];
      LocalGroups(stats[..|stats| - 1], hostname, status) +
        (if IsLocalFor(e, hostname, status) then [TrafficGroup(e.trafficGroup)] else [])
  }

  /** `_getTrafficGroups`: the groups, in entry order, of the entries that are local for `status`. */
  method GetTrafficGroups(stats: seq<TrafficGroupStat>, hostname: string, status: string)
    returns (trafficGroups: seq<TrafficGroup>)
    ensures trafficGroups == LocalGroups(stats, hostname, status)
  {
    trafficGroups := [];
    var i := 0;
    while i < |stats|
      invariant 0 <= i <= |stats|
      invariant trafficGroups == LocalGroups(stats[..i], hostname, status)
    {
      var e := stats[i];
      if Contains(e.deviceName, hostname) && e.failoverState == status {
        trafficGroups := trafficGroups + [TrafficGroup(e.trafficGroup)];
      }
      assert stats[..i + 1][..i] == stats[..i];
      i := i + 1;
    }
    assert stats[..|stats|] == stats;
  }

  /** A group is reported exactly when some entry is local for the status and
      names it; there are never more groups than entries. */
  lemma {:induction false} LocalGroupsMembership(stats: seq<TrafficGroupStat>, hostname: string, status: string)
    ensures |LocalGroups(stats, hostname, status)| <= |stats|
    ensures forall g :: g in LocalGroups(stats, hostname, status) <==>
      exists k :: 0 <= k < |stats| && IsLocalFor(stats[k], hostname, status) && g == TrafficGroup(stats[k].trafficGroup)
  {
    if stats != [] {
      var init := stats[..|stats| - 1];
      LocalGroupsMembership(init, hostname, status);
      forall g
        ensures g in LocalGroups(stats, hostname, status) <==>
          exists k :: 0 <= k < |stats| && IsLocalFor(stats[k], hostname, status) && g == TrafficGroup(stats[k].trafficGroup)
      {
        if g in LocalGroups(init, hostname, status) {
          var k :| 0 <= k < |init| && IsLocalFor(init[k], hostname, status) && g == TrafficGroup(init[k].trafficGroup);
          assert stats[k] == init[k];
        }
        if exists k :: 0 <= k < |stats| && IsLocalFor(stats[k], hostname, status) && g == TrafficGroup(stats[k].trafficGroup) {
          var k :| 0 <= k < |stats| && IsLocalFor(stats[k], hostname, status) && g == TrafficGroup(stats[k].trafficGroup);
          if k < |init| {
            assert init[k] == stats[k];
          }
        }
      }
    }
  }

  /** The same entries can never be local for both statuses, so the active
      and standby lists of `getFailoverStatusAndObjects` come from disjoint entries. */
  lemma LocalForOneStatusOnly(e: TrafficGroupStat, hostname: string)
    ensures !(IsLocalFor(e, hostname, ACTIVE) && IsLocalFor(e, hostname, STANDBY))
  {
  }

  // ---------------------------------------------------------------------
  // _getSelfAddresses

  /** Some traffic group's name contains `tg` (`name.indexOf(tg) !== -1`). */
  predicate GroupMatches(groups: seq<TrafficGroup>, tg: string) {
    exists k :: 0 <= k < |groups| && Contains(groups[k].name, tg)
  }

  /** `address.split('/')[0].split('%')[0]`: the bare address. */
  function BareAddress(address: string): (r: string)
    ensures '/' !in r && '%' !in r
    ensures IsPrefix(r, address)
  {
    var noMask := BeforeFirst(address, '/');
    var r := BeforeFirst(noMask, '%');
    assert forall x :: x in r ==> x in noMask by {
      assert r == noMask[..|r|];
    }
    assert address[..|r|] == noMask[..|r|];
    r
  }

  /** A self address stays itself when it has neither mask nor route domain. */
  lemma BareAddressPlain(address: string)
    requires '/' !in address && '%' !in address
    ensures BareAddress(address) == address
  {
    BeforeFirstAbsent(address, '/');
    BeforeFirstAbsent(address, '%');
  }

  function ClassifySelf(item: SelfAddress, groups: seq<TrafficGroup>): ClassifiedSelfAddress {
    ClassifiedSelfAddress(BareAddress(item.address), item.trafficGroup, GroupMatches(groups, item.trafficGroup))
  }

  /** The classified self addresses, one per input, in order. */
  function ClassifySelves(selfs: seq<SelfAddress>, groups: seq<TrafficGroup>): (r: seq<ClassifiedSelfAddress>)
    ensures |r| == |selfs|
    ensures forall i :: 0 <= i < |selfs| ==> r[i] == ClassifySelf(selfs[i], groups)
  {
    if selfs == [] then []
    else ClassifySelves(selfs[..|selfs| - 1], groups) + [ClassifySelf(selfs[|selfs| - 1], groups)]
  }

  /** The inner `forEach` of `_getSelfAddresses`: does some active group's
      name contain `tg`? */
  method MatchTrafficGroup(tg: string, trafficGroups: seq<TrafficGroup>) returns (trafficGroupMatch: bool)
    ensures trafficGroupMatch <==> GroupMatches(trafficGroups, tg)
  {
    trafficGroupMatch := false;
    var j := 0;
    while j < |trafficGroups|
      invariant 0 <= j <= |trafficGroups|
      invariant trafficGroupMatch <==> exists k :: 0 <= k < j && Contains(trafficGroups[k].name, tg)
    {
      if Contains(trafficGroups[j].name, tg) {
        trafficGroupMatch := true;
      }
      j := j + 1;
    }
  }

  /** `_getSelfAddresses`: one classified record per self address, in order:
      the bare address, its traffic group, and whether some active group's
      name contains that group. */
  method GetSelfAddresses(selfAddresses: seq<SelfAddress>, trafficGroups: seq<TrafficGroup>)
    returns (addresses: seq<ClassifiedSelfAddress>)
    ensures addresses == ClassifySelves(selfAddresses, trafficGroups)
  {
    addresses := [];
    var i := 0;
    while i < |selfAddresses|
      invariant 0 <= i <= |selfAddresses|
      invariant addresses == ClassifySelves(selfAddresses[..i], trafficGroups)
    {
      var item := selfAddresses[i];
      var trafficGroupMatch := MatchTrafficGroup(item.trafficGroup, trafficGroups);
      addresses := addresses + [ClassifiedSelfAddress(BareAddress(item.address), item.trafficGroup, trafficGroupMatch)];
      assert selfAddresses[..i + 1][..i] == selfAddresses[..i];
      i := i + 1;
    }
    assert selfAddresses[..|selfAddresses|] == selfAddresses;
  }

  /** A self IP of a group this device is active for matches, whatever its
      mask or route domain. */
  lemma OwnGroupMatches(groups: seq<TrafficGroup>, k: nat)
    requires k < |groups|
    ensures GroupMatches(groups, groups[k].name)
  {
    ContainsSelf(groups[k].name);
  }

  /** Without any active group nothing matches. */
  lemma NoGroupsNoMatch(tg: string)
    ensures !GroupMatches([], tg)
  {
  }

  // ---------------------------------------------------------------------
  // _getFloatingAddresses

  /** What `_addAddress` pushes for one item: its address without route domain,
      once per traffic group whose name contains the item's group. */
  function PushesFor(address: string, tg: string, groups: seq<TrafficGroup>): seq<FloatingAddress>
  {
    if groups == [] then []
    else
      PushesFor(address, tg, groups[..|groups| - 1]) +
        (if Contains(groups[|groups| - 1].name, tg) then [FloatingAddress(BeforeFirst(address, '%'))] else [])
  }

  function FloatingFrom(items: seq<FloatingSource>, groups: seq<TrafficGroup>): seq<FloatingAddress>
  {
    if items == [] then []
    else
      var e := items[|items| - 1];
      FloatingFrom(items[..|items| - 1], groups) + PushesFor(e.address, e.trafficGroup, groups)
  }

  /** NAT addresses enter through their translation address. */
  function NatSources(nats: seq<NatAddress>): (r: seq<FloatingSource>)
    ensures |r| == |nats|
    ensures forall i :: 0 <= i < |nats| ==> r[i] == FloatingSource(nats[i].translationAddress, nats[i].trafficGroup)
  {
    if nats == [] then []
    else
      var e := nats[|nats| - 1];
      NatSources(nats[..|nats| - 1]) + [FloatingSource(e.translationAddress, e.trafficGroup)]
  }

  /** `_addAddress`: push the item's address once per matching group. */
  method AddAddress(addresses: seq<FloatingAddress>, item: FloatingSource, trafficGroups: seq<TrafficGroup>)
    returns (r: seq<FloatingAddress>)
    ensures r == addresses + PushesFor(item.address, item.trafficGroup, trafficGroups)
  {
    r := addresses;
    var address := BeforeFirst(item.address, '%');
    var j := 0;
    while j < |trafficGroups|
      invariant 0 <= j <= |trafficGroups|
      invariant r == addresses + PushesFor(item.address, item.trafficGroup, trafficGroups[..j])
    {
      if Contains(trafficGroups[j].name, item.trafficGroup) {
        r := r + [FloatingAddress(address)];
      }
      assert trafficGroups[..j + 1][..j] == trafficGroups[..j];
      j := j + 1;
    }
    assert trafficGroups[..|trafficGroups|] == trafficGroups;
  }

  /** One pass over `items`, pushing as `_addAddress` does. */
  method AddAll(addresses: seq<FloatingAddress>, items: seq<FloatingSource>, trafficGroups: seq<TrafficGroup>)
    returns (r: seq<FloatingAddress>)
    ensures r == addresses + FloatingFrom(items, trafficGroups)
  {
    r := addresses;
    var i := 0;
    while i < |items|
      invariant 0 <= i <= |items|
      invariant r == addresses + FloatingFrom(items[..i], trafficGroups)
    {
      r := AddAddress(r, items[i], trafficGroups);
      assert items[..i + 1][..i] == items[..i];
      i := i + 1;
    }
    assert items[..|items|] == items;
  }

  /** `_getFloatingAddresses`: virtual, then SNAT, then NAT addresses. */
  method GetFloatingAddresses(virtualAddresses: seq<FloatingSource>, snatAddresses: seq<FloatingSource>,
                              natAddresses: seq<NatAddress>, trafficGroups: seq<TrafficGroup>)
    returns (addresses: seq<FloatingAddress>)
    ensures addresses == FloatingFrom(virtualAddresses + snatAddresses + NatSources(natAddresses), trafficGroups)
  {
    addresses := AddAll([], virtualAddresses, trafficGroups);
    addresses := AddAll(addresses, snatAddresses, trafficGroups);
    addresses := AddAll(addresses, NatSources(natAddresses), trafficGroups);
    FloatingFromAppend(virtualAddresses, snatAddresses, trafficGroups);
    FloatingFromAppend(virtualAddresses + snatAddresses, NatSources(natAddresses), trafficGroups);
  }

  lemma {:induction false} FloatingFromAppend(a: seq<FloatingSource>, b: seq<FloatingSource>, groups: seq<TrafficGroup>)
    ensures FloatingFrom(a + b, groups) == FloatingFrom(a, groups) + FloatingFrom(b, groups)
    decreases |b|
  {
    if b == [] {
      assert a + b == a;
    } else {
      var init := b[..|b| - 1];
      var last := b[|b| - 1];
      var pushed := PushesFor(last.address, last.trafficGroup, groups);
      assert (a + b)[..|a + b| - 1] == a + init;
      assert (a + b)[|a + b| - 1] == last;
      assert FloatingFrom(b, groups) == FloatingFrom(init, groups) + pushed;
      FloatingFromAppend(a, init, groups);
      calc {
        FloatingFrom(a + b, groups);
        FloatingFrom(a + init, groups) + pushed;
        (FloatingFrom(a, groups) + FloatingFrom(init, groups)) + pushed;
        FloatingFrom(a, groups) + (FloatingFrom(init, groups) + pushed);
      }
    }
  }

  /** The pushes for one item are copies of its bare address, and there is at
      least one exactly when some group matches it. */
  lemma {:induction false} PushesForShape(address: string, tg: string, groups: seq<TrafficGroup>)
    ensures forall f :: f in PushesFor(address, tg, groups) ==> f == FloatingAddress(BeforeFirst(address, '%'))
    ensures |PushesFor(address, tg, groups)| > 0 <==> GroupMatches(groups, tg)
  {
    if groups != [] {
      var init := groups[..|groups| - 1];
      PushesForShape(address, tg, init);
      if GroupMatches(init, tg) {
        var k :| 0 <= k < |init| && Contains(init[k].name, tg);
        assert groups[k] == init[k];
      }
      if GroupMatches(groups, tg) && !Contains(groups[|groups| - 1].name, tg) {
        var k :| 0 <= k < |groups| && Contains(groups[k].name, tg);
        assert init[k] == groups[k];
      }
    }
  }

  /** Every floating address comes from an item whose group matches, and every
      such item contributes its address. */
  lemma {:induction false} FloatingFromMembership(items: seq<FloatingSource>, groups: seq<TrafficGroup>)
    ensures forall f :: f in FloatingFrom(items, groups) ==>
      exists k :: 0 <= k < |items| && GroupMatches(groups, items[k].trafficGroup) &&
        f.address == BeforeFirst(items[k].address, '%')
    ensures forall k :: 0 <= k < |items| && GroupMatches(groups, items[k].trafficGroup) ==>
      FloatingAddress(BeforeFirst(items[k].address, '%')) in FloatingFrom(items, groups)
  {
    if items != [] {
      var init := items[..|items| - 1];
      var e := items[|items| - 1];
      FloatingFromMembership(init, groups);
      PushesForShape(e.address, e.trafficGroup, groups);
      var rest := FloatingFrom(init, groups);
      var last := PushesFor(e.address, e.trafficGroup, groups);
      assert FloatingFrom(items, groups) == rest + last;
      forall f | f in FloatingFrom(items, groups)
        ensures exists k ::
          0 <= k < |items| && GroupMatches(groups, items[k].trafficGroup) && f.address == BeforeFirst(items[k].address, '%')
      {
        if f in rest {
          var k :| 0 <= k < |init| && GroupMatches(groups, init[k].trafficGroup) &&
            f.address == BeforeFirst(init[k].address, '%');
          assert items[k] == init[k];
        } else {
          assert f in last;
          assert GroupMatches(groups, items[|items| - 1].trafficGroup);
        }
      }
      forall k | 0 <= k < |items| && GroupMatches(groups, items[k].trafficGroup)
        ensures FloatingAddress(BeforeFirst(items[k].address, '%')) in FloatingFrom(items, groups)
      {
        if k < |init| {
          assert init[k] == items[k];
        } else {
          assert last[0] in last;
        }
      }
    }
  }

  // ---------------------------------------------------------------------
  // _getFailoverAddresses

  function LocalOf(selfs: seq<ClassifiedSelfAddress>): seq<string>
  {
    if selfs == [] then []
    else
      var e := selfs[|selfs| - 1];
      LocalOf(selfs[..|selfs| - 1]) + (if e.trafficGroupMatch then [] else [e.address])
  }

  function FailoverOf(selfs: seq<ClassifiedSelfAddress>): seq<string>
  {
    if selfs == [] then []
    else
      var e := selfs[|selfs| - 1];
      FailoverOf(selfs[..|selfs| - 1]) + (if e.trafficGroupMatch then [e.address] else [])
  }

  function AddressesOf(floating: seq<FloatingAddress>): (r: seq<string>)
    ensures |r| == |floating|
    ensures forall i :: 0 <= i < |floating| ==> r[i] == floating[i].address
  {
    if floating == [] then []
    else AddressesOf(floating[..|floating| - 1]) + [floating[|floating| - 1].address]
  }

  /** `_getFailoverAddresses`: non-matching self addresses are local, matching
      ones fail over, and every floating address fails over after them. */
  method GetFailoverAddresses(selfAddresses: seq<ClassifiedSelfAddress>, floatingAddresses: seq<FloatingAddress>)
    returns (r: AddressSets)
    ensures r.localAddresses == LocalOf(selfAddresses)
    ensures r.failoverAddresses == FailoverOf(selfAddresses) + AddressesOf(floatingAddresses)
  {
    var localAddresses: seq<string> := [];
    var failoverAddresses: seq<string> := [];
    var i := 0;
    while i < |selfAddresses|
      invariant 0 <= i <= |selfAddresses|
      invariant localAddresses == LocalOf(selfAddresses[..i])
      invariant failoverAddresses == FailoverOf(selfAddresses[..i])
    {
      var item := selfAddresses[i];
      if item.trafficGroupMatch {
        failoverAddresses := failoverAddresses + [item.address];
      } else {
        localAddresses := localAddresses + [item.address];
      }
      assert selfAddresses[..i + 1][..i] == selfAddresses[..i];
      i := i + 1;
    }
    assert selfAddresses[..|selfAddresses|] == selfAddresses;
    var j := 0;
    while j < |floatingAddresses|
      invariant 0 <= j <= |floatingAddresses|
      invariant failoverAddresses == FailoverOf(selfAddresses) + AddressesOf(floatingAddresses[..j])
    {
      failoverAddresses := failoverAddresses + [floatingAddresses[j].address];
      assert floatingAddresses[..j + 1][..j] == floatingAddresses[..j];
      j := j + 1;
    }
    assert floatingAddresses[..|floatingAddresses|] == floatingAddresses;
    r := AddressSets(localAddresses, failoverAddresses);
  }

  function SelfAddressesOf(selfs: seq<ClassifiedSelfAddress>): (r: seq<string>)
    ensures |r| == |selfs|
    ensures forall i :: 0 <= i < |selfs| ==> r[i] == selfs[i].address
  {
    if selfs == [] then []
    else SelfAddressesOf(selfs[..|selfs| - 1]) + [selfs[|selfs| - 1].address]
  }

  /** Each self address lands in exactly one of the two lists: together they
      hold exactly the self addresses, counted with multiplicity. */
  lemma {:induction false} SelfPartition(selfs: seq<ClassifiedSelfAddress>)
    ensures |LocalOf(selfs)| + |FailoverOf(selfs)| == |selfs|
    ensures multiset(LocalOf(selfs)) + multiset(FailoverOf(selfs)) == multiset(SelfAddressesOf(selfs))
  {
    if selfs != [] {
      SelfPartition(selfs[..|selfs| - 1]);
    }
  }

  /** A local address is the address of a non-matching self IP. */
  lemma {:induction false} LocalIsUnmatched(selfs: seq<ClassifiedSelfAddress>, a: string)
    requires a in LocalOf(selfs)
    ensures exists k :: 0 <= k < |selfs| && !selfs[k].trafficGroupMatch && selfs[k].address == a
  {
    var init := selfs[..|selfs| - 1];
    if a in LocalOf(init) {
      LocalIsUnmatched(init, a);
      var k :| 0 <= k < |init| && !init[k].trafficGroupMatch && init[k].address == a;
      assert selfs[k] == init[k];
    } else {
      assert !selfs[|selfs| - 1].trafficGroupMatch && selfs[|selfs| - 1].address == a;
    }
  }

  /** The address of a non-matching self IP stays local. */
  lemma {:induction false} UnmatchedIsLocal(selfs: seq<ClassifiedSelfAddress>, k: nat)
    requires k < |selfs| && !selfs[k].trafficGroupMatch
    ensures selfs[k].address in LocalOf(selfs)
  {
    var init := selfs[..|selfs| - 1];
    if k < |init| {
      assert init[k] == selfs[k];
      UnmatchedIsLocal(init, k);
    }
  }

  /** A failover address is the address of a matching self IP. */
  lemma {:induction false} FailoverIsMatched(selfs: seq<ClassifiedSelfAddress>, a: string)
    requires a in FailoverOf(selfs)
    ensures exists k :: 0 <= k < |selfs| && selfs[k].trafficGroupMatch && selfs[k].address == a
  {
    var init := selfs[..|selfs| - 1];
    if a in FailoverOf(init) {
      FailoverIsMatched(init, a);
      var k :| 0 <= k < |init| && init[k].trafficGroupMatch && init[k].address == a;
      assert selfs[k] == init[k];
    } else {
      assert selfs[|selfs| - 1].trafficGroupMatch && selfs[|selfs| - 1].address == a;
    }
  }

  /** The address of a matching self IP fails over. */
  lemma {:induction false} MatchedFailsOver(selfs: seq<ClassifiedSelfAddress>, k: nat)
    requires k < |selfs| && selfs[k].trafficGroupMatch
    ensures selfs[k].address in FailoverOf(selfs)
  {
    var init := selfs[..|selfs| - 1];
    if k < |init| {
      assert init[k] == selfs[k];
      MatchedFailsOver(init, k);
    }
  }

  /** A self address is local exactly when it does not match, and fails over
      exactly when it does. */
  lemma SelfPlacement(selfs: seq<ClassifiedSelfAddress>)
    ensures forall a :: a in LocalOf(selfs) <==>
      exists k :: 0 <= k < |selfs| && !selfs[k].trafficGroupMatch && selfs[k].address == a
    ensures forall a :: a in FailoverOf(selfs) <==>
      exists k :: 0 <= k < |selfs| && selfs[k].trafficGroupMatch && selfs[k].address == a
  {
    forall a
      ensures (a in LocalOf(selfs) <==>
        exists k :: 0 <= k < |selfs| && !selfs[k].trafficGroupMatch && selfs[k].address == a)
      ensures (a in FailoverOf(selfs) <==>
        exists k :: 0 <= k < |selfs| && selfs[k].trafficGroupMatch && selfs[k].address == a)
    {
      if a in LocalOf(selfs) {
        LocalIsUnmatched(selfs, a);
      }
      if exists k :: 0 <= k < |selfs| && !selfs[k].trafficGroupMatch && selfs[k].address == a {
        var k :| 0 <= k < |selfs| && !selfs[k].trafficGroupMatch && selfs[k].address == a;
        UnmatchedIsLocal(selfs, k);
      }
      if a in FailoverOf(selfs) {
        FailoverIsMatched(selfs, a);
      }
      if exists k :: 0 <= k < |selfs| && selfs[k].trafficGroupMatch && selfs[k].address == a {
        var k :| 0 <= k < |selfs| && selfs[k].trafficGroupMatch && selfs[k].address == a;
        MatchedFailsOver(selfs, k);
      }
    }
  }

  /** What `_getFailoverAddresses` makes of the device's addresses for the
      given active groups. */
  function ClassifyAddresses(selfs: seq<SelfAddress>, virtuals: seq<FloatingSource>, snats: seq<FloatingSource>,
                             nats: seq<NatAddress>, groups: seq<TrafficGroup>): AddressSets
  {
    var classified := ClassifySelves(selfs, groups);
    AddressSets(LocalOf(classified),
                FailoverOf(classified) + AddressesOf(FloatingFrom(virtuals + snats + NatSources(nats), groups)))
  }

  /** The whole pipeline: the classification of the self addresses followed by
      the split, with the floating addresses of all three kinds. */
  method ClassifyDeviceAddresses(selfAddresses: seq<SelfAddress>, virtualAddresses: seq<FloatingSource>,
                                 snatAddresses: seq<FloatingSource>, natAddresses: seq<NatAddress>,
                                 trafficGroups: seq<TrafficGroup>)
    returns (r: AddressSets)
    ensures r == ClassifyAddresses(selfAddresses, virtualAddresses, snatAddresses, natAddresses, trafficGroups)
  {
    var selfs := GetSelfAddresses(selfAddresses, trafficGroups);
    var floating := GetFloatingAddresses(virtualAddresses, snatAddresses, natAddresses, trafficGroups);
    r := GetFailoverAddresses(selfs, floating);
  }

  /** The sizes add up: every self address once, every floating address once. */
  lemma FailoverAddressCount(selfs: seq<ClassifiedSelfAddress>, floating: seq<FloatingAddress>)
    ensures |LocalOf(selfs)| + |FailoverOf(selfs) + AddressesOf(floating)| == |selfs| + |floating|
  {
    SelfPartition(selfs);
  }
}
