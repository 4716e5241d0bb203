/** The AWS reconciliation planner: from the elastic IPs, network interfaces
    and route tables that EC2 reports, work out which public addresses,
    secondary private addresses and routes must move to this device. */
module AwsDiscovery {
  import opened Base
  import opened Strings
  import opened Plans

  /** The NIC tag whose equal values pair one device's NIC with its peer's. */
  const NIC_TAG := "f5_cloud_failover_nic_map"

  /** The tag keys `_generatePublicAddressOperations` reads from
      `constants.AWS_VIPS_TAGS`, a name the constants table does not define
      (it defines `AWS_VIPS_TAG` only), so the value is `undefined`. */
  const AWS_VIPS_TAGS: Option<seq<string>> := None

  /** The rejection raised when `undefined.indexOf` is evaluated. */
  const UNDEFINED_VIPS_KEYS_ERROR := "TypeError: Cannot read property 'indexOf' of undefined"

  // ---------------------------------------------------------------------
  // Elastic IP reassociation (`_generatePublicAddressOperations`)
  // ---------------------------------------------------------------------

  /** An elastic IP as `describeAddresses` reports it. */
  datatype ElasticIp = ElasticIp(
    publicIp: string,
    privateIp: Option<string>,
    associationId: Option<string>,
    allocationId: Option<string>,
    tags: seq<Tag>)

  /** `tags.find(tag => keys.indexOf(tag.Key) !== -1)`: the first tag with a listed key. */
  function FindVipsTag(tags: seq<Tag>, keys: seq<string>): (r: Option<Tag>)
    ensures r.Some? ==> r.value in tags && r.value.key in keys
    ensures r.Some? ==> exists i :: 0 <= i < |tags| && tags[i] == r.value && forall j :: 0 <= j < i ==> tags[j].key !in keys
    ensures r.None? ==> forall i :: 0 <= i < |tags| ==> tags[i].key !in keys
  {
    if tags == [] then None
    else if tags[0].key in keys then Some(tags[0])
    else FindVipsTag(tags[1..], keys)
  }

  /** The comma-separated target addresses of the first VIPS tag, or none. */
  function TargetAddresses(eip: ElasticIp, keys: seq<string>): seq<string> {
    match FindVipsTag(eip.tags, keys)
    case Some(tag) => Split(tag.value, ',')
    case None => []
  }

  /** A target is taken when it is one of this device's secondary private
      addresses and the elastic IP is not already on it. */
  predicate MovesTo(eip: ElasticIp, target: string, secondary: map<string, string>) {
    target in secondary && Some(target) != eip.privateIp
  }

  /** The `{ current, target, AllocationId }` record for one move; the target
      NIC comes from the secondary-address map. */
  function MoveOp(eip: ElasticIp, target: string, secondary: map<string, string>): PublicAddressOp
    requires target in secondary
  {
    PublicAddressOp(eip.privateIp, eip.associationId, target, secondary[target], eip.allocationId)
  }

  /** The writes into `updatedState` that one elastic IP makes, in order. */
  function EipWrites(eip: ElasticIp, targets: seq<string>, secondary: map<string, string>): seq<PublicEntry>
  {
    if targets == [] then []
    else
      var t := targets[|targets| - 1];
      EipWrites(eip, targets[..|targets| - 1], secondary) +
        (if MovesTo(eip, t, secondary) then [PublicEntry(eip.publicIp, MoveOp(eip, t, secondary))] else [])
  }

  /** All writes into `updatedState`, in order. */
  function Writes(eips: seq<ElasticIp>, secondary: map<string, string>, keys: seq<string>): seq<PublicEntry>
  {
    if eips == [] then []
    else
      var eip := eips[|eips| - 1];
      Writes(eips[..|eips| - 1], secondary, keys) + EipWrites(eip, TargetAddresses(eip, keys), secondary)
  }

  /** The entry stored under `key`, if any. */
  function Lookup(m: seq<PublicEntry>, key: string): Option<PublicAddressOp> {
    if m == [] then None
    else if m[0].publicIp == key then Some(m[0].op)
    else Lookup(m[1..], key)
  }

  predicate DistinctKeys(m: seq<PublicEntry>) {
    forall i, j :: 0 <= i < j < |m| ==> m[i].publicIp != m[j].publicIp
  }

  /** `updatedState[e.publicIp] = e.op`: an existing key keeps its place and
      takes the new value, a new key goes last. */
  function Upsert(m: seq<PublicEntry>, e: PublicEntry): seq<PublicEntry>
  {
    if m == [] then [e]
    else if m[0].publicIp == e.publicIp then [e] + m[1..]
    else [m[0]] + Upsert(m[1..], e)
  }

  /** After an upsert the written key reads the new value, every other key
      reads what it read before, and keys stay distinct. */
  lemma {:induction false} UpsertMeaning(m: seq<PublicEntry>, e: PublicEntry)
    ensures forall k :: Lookup(Upsert(m, e), k) == if k == e.publicIp then Some(e.op) else Lookup(m, k)
    ensures DistinctKeys(m) ==> DistinctKeys(Upsert(m, e))
  {
    if m != [] && m[0].publicIp != e.publicIp {
      UpsertMeaning(m[1..], e);
      UpsertKeys(m[1..], e);
      var r := Upsert(m, e);
      assert r == [m[0]] + Upsert(m[1..], e);
      forall k ensures Lookup(r, k) == if k == e.publicIp then Some(e.op) else Lookup(m, k) {
        if k != m[0].publicIp {
          assert r[1..] == Upsert(m[1..], e);
        }
      }
    } else if m != [] {
      assert Upsert(m, e)[1..] == m[1..];
    }
  }

  /** An upsert only adds the written key. */
  lemma {:induction false} UpsertKeys(m: seq<PublicEntry>, e: PublicEntry)
    ensures forall i :: 0 <= i < |Upsert(m, e)| ==>
      Upsert(m, e)[i].publicIp == e.publicIp || exists j :: 0 <= j < |m| && m[j].publicIp == Upsert(m, e)[i].publicIp
  {
    if m != [] && m[0].publicIp != e.publicIp {
      UpsertKeys(m[1..], e);
      var r := Upsert(m, e);
      forall i | 0 < i < |r|
        ensures r[i].publicIp == e.publicIp || exists j :: 0 <= j < |m| && m[j].publicIp == r[i].publicIp
      {
        assert r[i] == Upsert(m[1..], e)[i - 1];
        if r[i].publicIp != e.publicIp {
          var j :| 0 <= j < |m[1..]| && m[1..][j].publicIp == r[i].publicIp;
          assert m[j + 1].publicIp == r[i].publicIp;
        }
      }
    } else if m != [] {
      var r := Upsert(m, e);
      forall i | 0 < i < |r|
        ensures exists j :: 0 <= j < |m| && m[j].publicIp == r[i].publicIp
      {
        assert r[i] == m[i];
      }
    }
  }

  /** The object built by a sequence of writes. */
  function Apply(writes: seq<PublicEntry>): seq<PublicEntry> {
    if writes == [] then []
    else Upsert(Apply(writes[..|writes| - 1]), writes[|writes| - 1])
  }

  /** One more write upserts into the object built so far. */
  lemma ApplySnoc(writes: seq<PublicEntry>, e: PublicEntry)
    ensures Apply(writes + [e]) == Upsert(Apply(writes), e)
  {
    assert (writes + [e])[..|writes|] == writes;
  }

  /** The value of the last write under `key`. */
  function LastWrite(writes: seq<PublicEntry>, key: string): Option<PublicAddressOp> {
    if writes == [] then None
    else if writes[|writes| - 1].publicIp == key then Some(writes[|writes| - 1].op)
    else LastWrite(writes[..|writes| - 1], key)
  }

  /** The built object has one entry per key, holding that key's last write. */
  lemma {:induction false} ApplyMeaning(writes: seq<PublicEntry>)
    ensures DistinctKeys(Apply(writes))
    ensures forall k :: Lookup(Apply(writes), k) == LastWrite(writes, k)
  {
    if writes != [] {
      ApplyMeaning(writes[..|writes| - 1]);
      UpsertMeaning(Apply(writes[..|writes| - 1]), writes[|writes| - 1]);
    }
  }

  /** The last write under a key is one of the writes under that key, and a
      key is written iff it has a last write. */
  lemma {:induction false} LastWriteMeaning(writes: seq<PublicEntry>, key: string)
    ensures LastWrite(writes, key).Some? ==> PublicEntry(key, LastWrite(writes, key).value) in writes
    ensures LastWrite(writes, key).Some? <==> exists i :: 0 <= i < |writes| && writes[i].publicIp == key
  {
    if writes != [] {
      var init := writes[..|writes| - 1];
      LastWriteMeaning(init, key);
      assert forall i :: 0 <= i < |init| ==> init[i] == writes[i];
    }
  }

  /** Every write of one elastic IP is a move of one of its targets. */
  lemma {:induction false} EipWritesMeaning(eip: ElasticIp, targets: seq<string>, secondary: map<string, string>)
    ensures forall e :: e in EipWrites(eip, targets, secondary) <==>
      exists t :: t in targets && MovesTo(eip, t, secondary) && e == PublicEntry(eip.publicIp, MoveOp(eip, t, secondary))
  {
    if targets != [] {
      var init := targets[..|targets| - 1];
      EipWritesMeaning(eip, init, secondary);
      assert targets == init + [targets[|targets| - 1]];
    }
  }

  /** `e` is the move of one of the target addresses of `eip`. */
  predicate MoveOfEip(eip: ElasticIp, secondary: map<string, string>, keys: seq<string>, e: PublicEntry) {
    exists t :: t in TargetAddresses(eip, keys) && MovesTo(eip, t, secondary) &&
      e == PublicEntry(eip.publicIp, MoveOp(eip, t, secondary))
  }

  /** Every written entry is the move of a target address of some elastic IP. */
  lemma {:induction false} WrittenIsMove(eips: seq<ElasticIp>, secondary: map<string, string>, keys: seq<string>, e: PublicEntry)
    requires e in Writes(eips, secondary, keys)
    ensures exists i :: 0 <= i < |eips| && MoveOfEip(eips[i], secondary, keys, e)
  {
    var last := |eips| - 1;
    var init := eips[..last];
    var own := EipWrites(eips[last], TargetAddresses(eips[last], keys), secondary);
    assert Writes(eips, secondary, keys) == Writes(init, secondary, keys) + own;
    if e in own {
      EipWritesMeaning(eips[last], TargetAddresses(eips[last], keys), secondary);
      assert MoveOfEip(eips[last], secondary, keys, e);
    } else {
      WrittenIsMove(init, secondary, keys, e);
      var i :| 0 <= i < |init| && MoveOfEip(init[i], secondary, keys, e);
      assert init[i] == eips[i];
    }
  }

  /** The move of a target address of an elastic IP is written. */
  lemma {:induction false} MoveIsWritten(eips: seq<ElasticIp>, secondary: map<string, string>, keys: seq<string>, i: nat, e: PublicEntry)
    requires i < |eips| && MoveOfEip(eips[i], secondary, keys, e)
    ensures e in Writes(eips, secondary, keys)
  {
    var last := |eips| - 1;
    var init := eips[..last];
    var own := EipWrites(eips[last], TargetAddresses(eips[last], keys), secondary);
    assert Writes(eips, secondary, keys) == Writes(init, secondary, keys) + own;
    if i == last {
      var eip := eips[last];
      var t :| t in TargetAddresses(eip, keys) && MovesTo(eip, t, secondary) &&
        e == PublicEntry(eip.publicIp, MoveOp(eip, t, secondary));
      EipWritesMeaning(eip, TargetAddresses(eip, keys), secondary);
      assert e in own;
    } else {
      assert init[i] == eips[i];
      MoveIsWritten(init, secondary, keys, i, e);
    }
  }

  /** A write is a move of a target address of some elastic IP, and every
      such move is written. */
  lemma WritesMeaning(eips: seq<ElasticIp>, secondary: map<string, string>, keys: seq<string>)
    ensures forall e :: e in Writes(eips, secondary, keys) <==>
      exists i :: 0 <= i < |eips| && MoveOfEip(eips[i], secondary, keys, e)
  {
    forall e ensures e in Writes(eips, secondary, keys) <==> exists i :: 0 <= i < |eips| && MoveOfEip(eips[i], secondary, keys, e) {
      if e in Writes(eips, secondary, keys) {
        WrittenIsMove(eips, secondary, keys, e);
      }
      if exists i :: 0 <= i < |eips| && MoveOfEip(eips[i], secondary, keys, e) {
        var i :| 0 <= i < |eips| && MoveOfEip(eips[i], secondary, keys, e);
        MoveIsWritten(eips, secondary, keys, i, e);
      }
    }
  }

  /** The public address plan built from `writes`: one entry per public IP
      (distinct keys); an entry exists for a public IP iff some elastic IP with
      that public IP has a target it moves to; and each entry is such a move,
      with the target NIC taken from the secondary-address map. */
  lemma PublicOperationsMeaning(eips: seq<ElasticIp>, secondary: map<string, string>, keys: seq<string>, ip: string)
    ensures var m := Apply(Writes(eips, secondary, keys));
      && DistinctKeys(m)
      && (Lookup(m, ip).Some? <==>
            exists i, t :: 0 <= i < |eips| && eips[i].publicIp == ip &&
              t in TargetAddresses(eips[i], keys) && MovesTo(eips[i], t, secondary))
      && (Lookup(m, ip).Some? ==>
            exists i, t :: 0 <= i < |eips| && eips[i].publicIp == ip &&
              t in TargetAddresses(eips[i], keys) && MovesTo(eips[i], t, secondary) &&
              Lookup(m, ip).value == MoveOp(eips[i], t, secondary))
  {
    var writes := Writes(eips, secondary, keys);
    ApplyMeaning(writes);
    LastWriteMeaning(writes, ip);
    WritesMeaning(eips, secondary, keys);
    if Lookup(Apply(writes), ip).Some? {
      var e := PublicEntry(ip, LastWrite(writes, ip).value);
      assert e in writes;
    }
    if exists i, t :: 0 <= i < |eips| && eips[i].publicIp == ip &&
                      t in TargetAddresses(eips[i], keys) && MovesTo(eips[i], t, secondary) {
      var i, t :| 0 <= i < |eips| && eips[i].publicIp == ip &&
                  t in TargetAddresses(eips[i], keys) && MovesTo(eips[i], t, secondary);
      var e := PublicEntry(ip, MoveOp(eips[i], t, secondary));
      assert e in writes;
      var k :| 0 <= k < |writes| && writes[k] == e;
      assert writes[k].publicIp == ip;
    }
  }

  /** One more target extends the writes by at most that target's move. */
  lemma EipWritesStep(eip: ElasticIp, targets: seq<string>, j: nat, secondary: map<string, string>)
    requires j < |targets|
    ensures EipWrites(eip, targets[..j + 1], secondary) ==
      EipWrites(eip, targets[..j], secondary) +
        (if MovesTo(eip, targets[j], secondary) then [PublicEntry(eip.publicIp, MoveOp(eip, targets[j], secondary))] else [])
  {
    assert targets[..j + 1][..j] == targets[..j];
  }

  /** One more elastic IP extends the writes by that elastic IP's writes. */
  lemma WritesStep(eips: seq<ElasticIp>, i: nat, secondary: map<string, string>, keys: seq<string>)
    requires i < |eips|
    ensures Writes(eips[..i + 1], secondary, keys) ==
      Writes(eips[..i], secondary, keys) + EipWrites(eips[i], TargetAddresses(eips[i], keys), secondary)
  {
    assert eips[..i + 1][..i] == eips[..i];
  }

  /** With the key list undefined, `find` throws as soon as it looks at a tag. */
  predicate VipsLookupThrows(eips: seq<ElasticIp>, keys: Option<seq<string>>) {
    keys.None? && exists i :: 0 <= i < |eips| && |eips[i].tags| > 0
  }

  /** The inner `targetAddresses.forEach` of `_generatePublicAddressOperations`:
      writes each target the elastic IP moves to into `updatedState`. */
  method WriteMoves(updatedState: seq<PublicEntry>, ghost before: seq<PublicEntry>, eip: ElasticIp,
                    targetAddresses: seq<string>, secondary: map<string, string>)
    returns (r: seq<PublicEntry>)
    requires updatedState == Apply(before)
    ensures r == Apply(before + EipWrites(eip, targetAddresses, secondary))
  {
    r := updatedState;
    var j := 0;
    assert before + EipWrites(eip, targetAddresses[..0], secondary) == before;
    while j < |targetAddresses|
      invariant 0 <= j <= |targetAddresses|
      invariant r == Apply(before + EipWrites(eip, targetAddresses[..j], secondary))
    {
      var targetAddress := targetAddresses[j];
      ghost var done := before + EipWrites(eip, targetAddresses[..j], secondary);
      EipWritesStep(eip, targetAddresses, j, secondary);
      if targetAddress in secondary && Some(targetAddress) != eip.privateIp {
        var e := PublicEntry(eip.publicIp, MoveOp(eip, targetAddress, secondary));
        assert before + EipWrites(eip, targetAddresses[..j + 1], secondary) == done + [e];
        ApplySnoc(done, e);
        r := Upsert(r, e);
      } else {
        assert before + EipWrites(eip, targetAddresses[..j + 1], secondary) == done;
      }
      j := j + 1;
    }
    assert targetAddresses[..j] == targetAddresses;
  }

  /** `_generatePublicAddressOperations`: rejects exactly when the key list is
      undefined and some elastic IP has a tag; otherwise the object built by
      all the writes. */
  method GeneratePublicAddressOperations(eips: seq<ElasticIp>, secondary: map<string, string>,
                                         keys: Option<seq<string>>)
    returns (r: Result<seq<PublicEntry>, string>)
    ensures r.Err? <==> VipsLookupThrows(eips, keys)
    ensures r.Err? ==> r.error == UNDEFINED_VIPS_KEYS_ERROR
    ensures r.Ok? ==> r.value == Apply(Writes(eips, secondary, keys.GetOr([])))
  {
    var ks := keys.GetOr([]);
    var updatedState: seq<PublicEntry> := [];
    var i := 0;
    while i < |eips|
      invariant 0 <= i <= |eips|
      invariant forall k :: 0 <= k < i ==> !(keys.None? && |eips[k].tags| > 0)
      invariant updatedState == Apply(Writes(eips[..i], secondary, ks))
    {
      var eip := eips[i];
      if keys.None? && |eip.tags| > 0 {
        assert 0 <= i < |eips| && |eips[i].tags| > 0;
        return Err(UNDEFINED_VIPS_KEYS_ERROR);
      }
      ghost var done := Writes(eips[..i], secondary, ks);
      var targetAddresses := TargetAddresses(eip, ks);
      updatedState := WriteMoves(updatedState, done, eip, targetAddresses, secondary);
      WritesStep(eips, i, secondary, ks);
      assert updatedState == Apply(Writes(eips[..i + 1], secondary, ks));
      i := i + 1;
    }
    assert eips[..i] == eips;
    assert !VipsLookupThrows(eips, keys);
    return Ok(updatedState);
  }

  // ---------------------------------------------------------------------
  // Network interfaces (`_parseNics`, `_checkForNicOperations`,
  // `_generateAddressOperations`)
  // ---------------------------------------------------------------------

  /** One entry of a NIC's `PrivateIpAddresses`. */
  datatype PrivateIp = PrivateIp(address: string, primary: Option<bool>, publicIp: Option<string>)

  /** A network interface as `describeNetworkInterfaces` reports it. */
  datatype Nic = Nic(id: string, privateIps: seq<PrivateIp>, tags: seq<Tag>)

  /** `{ mine, theirs }`. */
  datatype NicPartition = NicPartition(mine: seq<Nic>, theirs: seq<Nic>)

  /** `disassociate` and `associate` for one pair of NICs. */
  datatype NicOps = NicOps(disassociate: NicBatch, associate: NicBatch)

  function NicAddresses(nic: Nic): seq<string> {
    seq(|nic.privateIps|, i requires 0 <= i < |nic.privateIps| => nic.privateIps[i].address)
  }

  function Ids(nics: seq<Nic>): seq<string> {
    seq(|nics|, i requires 0 <= i < |nics| => nics[i].id)
  }

  predicate DistinctIds(nics: seq<Nic>) {
    forall i, j :: 0 <= i < j < |nics| ==> nics[i].id != nics[j].id
  }

  /** The NIC holds one of the addresses. */
  predicate HoldsAny(nic: Nic, addresses: seq<string>) {
    exists a :: a in addresses && a in NicAddresses(nic)
  }

  /** One NIC's `addresses.forEach`: the NIC is pushed once if it holds one of
      the addresses and no NIC with its id is in the list yet. */
  function Pick(list: seq<Nic>, nic: Nic, addresses: seq<string>): seq<Nic> {
    if HoldsAny(nic, addresses) && nic.id !in Ids(list) then list + [nic] else list
  }

  /** The list `nics.forEach` builds with `Pick`. */
  function Collect(nics: seq<Nic>, addresses: seq<string>): seq<Nic> {
    if nics == [] then []
    else Pick(Collect(nics[..|nics| - 1], addresses), nics[|nics| - 1], addresses)
  }

  /** One inner reverse loop of the splice: drop the last NIC with id `x`. */
  function RemoveLast(s: seq<Nic>, x: string): seq<Nic> {
    if s == [] then []
    else if s[|s| - 1].id == x then s[..|s| - 1]
    else RemoveLast(s[..|s| - 1], x) + [s[|s| - 1]]
  }

  /** The outer reverse loop of the splice: `RemoveLast` for each of `mine`,
      from the last to the first. */
  function Spliced(mine: seq<Nic>, theirs: seq<Nic>): seq<Nic> {
    if mine == [] then theirs
    else RemoveLast(Spliced(mine[1..], theirs), mine[0].id)
  }

  /** `s` without the NICs whose id is in `ids`, order kept. */
  function Without(s: seq<Nic>, ids: seq<string>): seq<Nic>
  {
    if s == [] then []
    else Without(s[..|s| - 1], ids) + (if s[|s| - 1].id in ids then [] else [s[|s| - 1]])
  }

  /** What `_parseNics` returns. */
  function ParsedNics(nics: seq<Nic>, localAddresses: seq<string>, failoverAddresses: seq<string>): NicPartition {
    var mine := Collect(nics, localAddresses);
    NicPartition(mine, Spliced(mine, Collect(nics, failoverAddresses)))
  }

  /** The ids of a list with one more NIC. */
  lemma IdsAppend(list: seq<Nic>, nic: Nic)
    ensures Ids(list + [nic]) == Ids(list) + [nic.id]
  {
  }

  /** A collected list has no repeated id; it holds only NICs of `nics` that
      hold one of the addresses, and the id of every such NIC. */
  lemma {:induction false} CollectMeaning(nics: seq<Nic>, addresses: seq<string>)
    ensures DistinctIds(Collect(nics, addresses))
    ensures forall n :: n in Collect(nics, addresses) ==> n in nics && HoldsAny(n, addresses)
    ensures forall n :: n in nics && HoldsAny(n, addresses) ==> n.id in Ids(Collect(nics, addresses))
  {
    if nics != [] {
      var init := nics[..|nics| - 1];
      var nic := nics[|nics| - 1];
      CollectMeaning(init, addresses);
      var list := Collect(init, addresses);
      assert nics == init + [nic];
      if HoldsAny(nic, addresses) && nic.id !in Ids(list) {
        IdsAppend(list, nic);
        forall i | 0 <= i < |list| ensures list[i].id != nic.id {
          assert Ids(list)[i] == list[i].id;
        }
      }
    }
  }

  /** On a list without repeated ids, dropping the last NIC with id `x` is
      dropping every NIC with that id. */
  lemma {:induction false} RemoveLastDistinct(s: seq<Nic>, x: string)
    requires DistinctIds(s)
    ensures RemoveLast(s, x) == Without(s, [x])
  {
    if s != [] {
      var init := s[..|s| - 1];
      if s[|s| - 1].id == x {
        WithoutNone(init, [x]);
      } else {
        RemoveLastDistinct(init, x);
      }
    }
  }

  /** Exactly the NICs of `s` whose id is not in `ids` survive. */
  lemma {:induction false} WithoutMeaning(s: seq<Nic>, ids: seq<string>)
    ensures forall n :: n in Without(s, ids) <==> n in s && n.id !in ids
  {
    if s != [] {
      WithoutMeaning(s[..|s| - 1], ids);
      assert s == s[..|s| - 1] + [s[|s| - 1]];
    }
  }

  /** Removing ids that no NIC of `s` has changes nothing. */
  lemma {:induction false} WithoutNone(s: seq<Nic>, ids: seq<string>)
    requires forall i :: 0 <= i < |s| ==> s[i].id !in ids
    ensures Without(s, ids) == s
  {
    if s != [] {
      WithoutNone(s[..|s| - 1], ids);
    }
  }

  /** Removing `a` and then `b` is removing both at once. */
  lemma {:induction false} WithoutTwice(s: seq<Nic>, a: seq<string>, b: seq<string>)
    ensures Without(Without(s, a), b) == Without(s, b + a)
  {
    if s != [] {
      var init := s[..|s| - 1];
      var last := s[|s| - 1];
      WithoutTwice(init, a, b);
      var w := Without(init, a);
      if last.id !in a {
        assert Without(s, a) == w + [last];
        assert (w + [last])[..|w|] == w;
        assert (last.id in b + a) == (last.id in b);
      } else {
        assert Without(s, a) == w;
        assert last.id in b + a;
      }
    }
  }

  /** Filtering keeps ids distinct. */
  lemma {:induction false} WithoutDistinct(s: seq<Nic>, ids: seq<string>)
    requires DistinctIds(s)
    ensures DistinctIds(Without(s, ids))
  {
    if s != [] {
      var init := s[..|s| - 1];
      WithoutDistinct(init, ids);
      var w := Without(init, ids);
      WithoutMeaning(init, ids);
      forall i | 0 <= i < |w| ensures w[i].id != s[|s| - 1].id {
        assert w[i] in init;
      }
    }
  }

  /** On a list without repeated ids, the splice removes exactly the NICs that
      share an id with one of `mine`. */
  lemma {:induction false} SplicedIsWithout(mine: seq<Nic>, theirs: seq<Nic>)
    requires DistinctIds(theirs)
    ensures Spliced(mine, theirs) == Without(theirs, Ids(mine))
  {
    if mine == [] {
      WithoutNone(theirs, []);
    } else {
      SplicedIsWithout(mine[1..], theirs);
      var rest := Without(theirs, Ids(mine[1..]));
      WithoutDistinct(theirs, Ids(mine[1..]));
      RemoveLastDistinct(rest, mine[0].id);
      WithoutTwice(theirs, Ids(mine[1..]), [mine[0].id]);
      assert Ids(mine) == [mine[0].id] + Ids(mine[1..]);
    }
  }

  /** `_parseNics` as promised: neither list repeats a NIC id, no id is in
      both, `mine` holds the NICs with a local address (one per id) and
      `theirs` the NICs with a failover address whose id is not one of mine. */
  lemma ParsedNicsMeaning(nics: seq<Nic>, localAddresses: seq<string>, failoverAddresses: seq<string>)
    ensures var p := ParsedNics(nics, localAddresses, failoverAddresses);
      && DistinctIds(p.mine) && DistinctIds(p.theirs)
      && (forall i, j :: 0 <= i < |p.mine| && 0 <= j < |p.theirs| ==> p.mine[i].id != p.theirs[j].id)
      && (forall n :: n in p.mine ==> n in nics && HoldsAny(n, localAddresses))
      && (forall n :: n in nics && HoldsAny(n, localAddresses) ==> n.id in Ids(p.mine))
      && (forall n :: n in p.theirs <==>
            n in Collect(nics, failoverAddresses) && n.id !in Ids(p.mine))
      && (forall n :: n in p.theirs ==> n in nics && HoldsAny(n, failoverAddresses))
  {
    var p := ParsedNics(nics, localAddresses, failoverAddresses);
    CollectMeaning(nics, localAddresses);
    CollectMeaning(nics, failoverAddresses);
    SplicedIsWithout(p.mine, Collect(nics, failoverAddresses));
    WithoutDistinct(Collect(nics, failoverAddresses), Ids(p.mine));
    WithoutMeaning(Collect(nics, failoverAddresses), Ids(p.mine));
    forall i, j | 0 <= i < |p.mine| && 0 <= j < |p.theirs| ensures p.mine[i].id != p.theirs[j].id {
      assert p.theirs[j] in p.theirs;
      assert Ids(p.mine)[i] == p.mine[i].id;
    }
  }

  /** The `addresses.forEach` for one NIC in `_parseNics`. */
  method PickNic(list: seq<Nic>, nic: Nic, addresses: seq<string>) returns (r: seq<Nic>)
    ensures r == Pick(list, nic, addresses)
  {
    r := list;
    var nicAddresses := NicAddresses(nic);
    var k := 0;
    while k < |addresses|
      invariant 0 <= k <= |addresses|
      invariant r == if (exists a :: a in addresses[..k] && a in nicAddresses) && nic.id !in Ids(list)
                     then list + [nic] else list
    {
      var address := addresses[k];
      assert addresses[..k + 1] == addresses[..k] + [address];
      IdsAppend(list, nic);
      if address in nicAddresses && nic.id !in Ids(r) {
        r := r + [nic];
      }
      k := k + 1;
    }
    assert addresses[..k] == addresses;
  }

  /** The inner splice loop of `_parseNics`: scan `theirs` from the end and
      splice out the first NIC found with id `x`. */
  method SpliceOut(theirs: seq<Nic>, x: string) returns (r: seq<Nic>)
    ensures r == RemoveLast(theirs, x)
  {
    var qp := |theirs| - 1;
    while qp >= 0
      invariant -1 <= qp < |theirs|
      invariant forall k :: qp < k < |theirs| ==> theirs[k].id != x
    {
      if theirs[qp].id == x {
        RemoveLastAt(theirs, qp, x);
        return theirs[..qp] + theirs[qp + 1..];
      }
      qp := qp - 1;
    }
    RemoveLastAbsent(theirs, x);
    return theirs;
  }

  /** The splice loop of `_parseNics`: for `p` from the last of `mine` down,
      splice out of `theirs` the NIC with that id. */
  method SpliceShared(mine: seq<Nic>, theirNics: seq<Nic>) returns (theirs: seq<Nic>)
    ensures theirs == Spliced(mine, theirNics)
  {
    theirs := theirNics;
    var p := |mine| - 1;
    assert mine[p + 1..] == [];
    while p >= 0
      invariant -1 <= p < |mine|
      invariant theirs == Spliced(mine[p + 1..], theirNics)
    {
      theirs := SpliceOut(theirs, mine[p].id);
      assert mine[p..][1..] == mine[p + 1..];
      p := p - 1;
    }
  }

  /** Dropping the last NIC with id `x` when it sits at index `q`. */
  lemma {:induction false} RemoveLastAt(s: seq<Nic>, q: int, x: string)
    requires 0 <= q < |s| && s[q].id == x
    requires forall k :: q < k < |s| ==> s[k].id != x
    ensures RemoveLast(s, x) == s[..q] + s[q + 1..]
    decreases |s|
  {
    if q < |s| - 1 {
      var init := s[..|s| - 1];
      RemoveLastAt(init, q, x);
      assert init[..q] + init[q + 1..] + [s[|s| - 1]] == s[..q] + s[q + 1..];
    }
  }

  /** Nothing to drop when no NIC has id `x`. */
  lemma {:induction false} RemoveLastAbsent(s: seq<Nic>, x: string)
    requires forall k :: 0 <= k < |s| ==> s[k].id != x
    ensures RemoveLast(s, x) == s
  {
    if s != [] {
      RemoveLastAbsent(s[..|s| - 1], x);
    }
  }

  /** `_parseNics`: sort the NICs into mine (holding a local address) and
      theirs (holding a failover address), then drop from theirs every NIC
      that is also mine. */
  method ParseNics(nics: seq<Nic>, localAddresses: seq<string>, failoverAddresses: seq<string>)
    returns (p: NicPartition)
    ensures p == ParsedNics(nics, localAddresses, failoverAddresses)
  {
    var myNics: seq<Nic> := [];
    var theirNics: seq<Nic> := [];
    var i := 0;
    while i < |nics|
      invariant 0 <= i <= |nics|
      invariant myNics == Collect(nics[..i], localAddresses)
      invariant theirNics == Collect(nics[..i], failoverAddresses)
    {
      assert nics[..i + 1][..i] == nics[..i];
      myNics := PickNic(myNics, nics[i], localAddresses);
      theirNics := PickNic(theirNics, nics[i], failoverAddresses);
      i := i + 1;
    }
    assert nics[..i] == nics;
    theirNics := SpliceShared(myNics, theirNics);
    p := NicPartition(myNics, theirNics);
  }

  /** How often `a` occurs in `s`. */
  function Count(s: seq<string>, a: string): nat {
    if s == [] then 0 else (if s[0] == a then 1 else 0) + Count(s[1..], a)
  }

  lemma {:induction false} CountPositive(s: seq<string>, a: string)
    ensures Count(s, a) > 0 <==> a in s
  {
    if s != [] {
      CountPositive(s[1..], a);
      assert s == [s[0]] + s[1..];
    }
  }

  /** `{ address, publicAddress }` for a private address. */
  function Moved(ip: PrivateIp): MovedAddress {
    MovedAddress(ip.address, ip.publicIp)
  }

  /** What the inner loop pushes for one of their private addresses: one copy
      per occurrence among the failover addresses, none for a primary one. */
  function Copies(ip: PrivateIp, failoverAddresses: seq<string>): seq<MovedAddress> {
    if ip.primary == Some(true) then []
    else seq(Count(failoverAddresses, ip.address), _ => Moved(ip))
  }

  /** `addressesToTake` after the reverse loop over `ips`. */
  function Takes(ips: seq<PrivateIp>, failoverAddresses: seq<string>): seq<MovedAddress> {
    if ips == [] then [] else Takes(ips[1..], failoverAddresses) + Copies(ips[0], failoverAddresses)
  }

  /** The record `_checkForNicOperations` returns: the same addresses taken
      off their NIC and put on mine. */
  function NicOpsFor(myNic: Nic, theirNic: Nic, failoverAddresses: seq<string>): NicOps {
    var take := Takes(theirNic.privateIps, failoverAddresses);
    NicOps(NicBatch(theirNic.id, take), NicBatch(myNic.id, take))
  }

  /** An address is taken iff it is a non-primary address of their NIC that
      is among the failover addresses. */
  lemma {:induction false} TakesMeaning(ips: seq<PrivateIp>, failoverAddresses: seq<string>)
    ensures forall m :: m in Takes(ips, failoverAddresses) <==>
      exists k :: 0 <= k < |ips| && ips[k].primary != Some(true) &&
        ips[k].address in failoverAddresses && m == Moved(ips[k])
  {
    if ips != [] {
      TakesMeaning(ips[1..], failoverAddresses);
      CountPositive(failoverAddresses, ips[0].address);
      var c := Copies(ips[0], failoverAddresses);
      forall m ensures m in c <==> ips[0].primary != Some(true) && ips[0].address in failoverAddresses && m == Moved(ips[0]) {
        if ips[0].primary != Some(true) && ips[0].address in failoverAddresses && m == Moved(ips[0]) {
          assert c[0] == m;
        }
      }
      forall m | m in Takes(ips[1..], failoverAddresses)
        ensures exists k ::
          0 <= k < |ips| && ips[k].primary != Some(true) && ips[k].address in failoverAddresses && m == Moved(ips[k])
      {
        var k :| 0 <= k < |ips[1..]| && ips[1..][k].primary != Some(true) &&
          ips[1..][k].address in failoverAddresses && m == Moved(ips[1..][k]);
        assert ips[k + 1] == ips[1..][k];
      }
      forall m, k | 0 <= k < |ips| && ips[k].primary != Some(true) &&
                    ips[k].address in failoverAddresses && m == Moved(ips[k])
        ensures m in Takes(ips, failoverAddresses)
      {
        if k > 0 {
          assert ips[1..][k - 1] == ips[k];
        }
      }
    }
  }

  /** The pairs of the disassociate and associate batches agree: their NIC
      loses exactly the addresses my NIC gains. */
  lemma NicOpsMeaning(myNic: Nic, theirNic: Nic, failoverAddresses: seq<string>)
    ensures var ops := NicOpsFor(myNic, theirNic, failoverAddresses);
      && ops.disassociate.nicId == theirNic.id
      && ops.associate.nicId == myNic.id
      && ops.disassociate.addresses == ops.associate.addresses
      && (forall m :: m in ops.associate.addresses <==>
            exists k :: 0 <= k < |theirNic.privateIps| && theirNic.privateIps[k].primary != Some(true) &&
              theirNic.privateIps[k].address in failoverAddresses && m == Moved(theirNic.privateIps[k]))
  {
    TakesMeaning(theirNic.privateIps, failoverAddresses);
  }

  /** The first failover address adds one copy when it names a non-primary `ip`. */
  lemma CopiesStep(ip: PrivateIp, failoverAddresses: seq<string>)
    requires failoverAddresses != []
    ensures Copies(ip, failoverAddresses) == Copies(ip, failoverAddresses[1..]) +
      (if failoverAddresses[0] == ip.address && ip.primary != Some(true) then [Moved(ip)] else [])
  {
    if ip.primary != Some(true) && failoverAddresses[0] == ip.address {
      var n := Count(failoverAddresses[1..], ip.address);
      assert Copies(ip, failoverAddresses) == seq(n + 1, _ => Moved(ip));
      assert seq(n + 1, _ => Moved(ip)) == seq(n, _ => Moved(ip)) + [Moved(ip)];
    }
  }

  /** The inner loop of `_checkForNicOperations` for one of their private
      addresses: walks the failover addresses from the end, pushing a match
      unless the address is their NIC's primary one. */
  method PushCopies(addressesToTake: seq<MovedAddress>, ip: PrivateIp, failoverAddresses: seq<string>)
    returns (r: seq<MovedAddress>)
    ensures r == addressesToTake + Copies(ip, failoverAddresses)
  {
    r := addressesToTake;
    var t := |failoverAddresses| - 1;
    while t >= 0
      invariant -1 <= t < |failoverAddresses|
      invariant r == addressesToTake + Copies(ip, failoverAddresses[t + 1..])
    {
      ghost var done := r;
      var rest := failoverAddresses[t..];
      assert rest[1..] == failoverAddresses[t + 1..];
      CopiesStep(ip, rest);
      if failoverAddresses[t] == ip.address && ip.primary != Some(true) {
        r := r + [MovedAddress(ip.address, ip.publicIp)];
        assert r == addressesToTake + (Copies(ip, failoverAddresses[t + 1..]) + [Moved(ip)]);
      } else {
        assert Copies(ip, rest) == Copies(ip, failoverAddresses[t + 1..]) + [];
      }
      t := t - 1;
    }
    assert failoverAddresses[0..] == failoverAddresses;
  }

  /** `_checkForNicOperations`: nested reverse loops over their private
      addresses and the failover addresses, pushing each match that is not
      their NIC's primary address. */
  method CheckForNicOperations(myNic: Nic, theirNic: Nic, failoverAddresses: seq<string>) returns (ops: NicOps)
    ensures ops == NicOpsFor(myNic, theirNic, failoverAddresses)
  {
    var addressesToTake: seq<MovedAddress> := [];
    var theirNicAddresses := theirNic.privateIps;
    var i := |theirNicAddresses| - 1;
    while i >= 0
      invariant -1 <= i < |theirNicAddresses|
      invariant addressesToTake == Takes(theirNicAddresses[i + 1..], failoverAddresses)
    {
      assert theirNicAddresses[i..][1..] == theirNicAddresses[i + 1..];
      addressesToTake := PushCopies(addressesToTake, theirNicAddresses[i], failoverAddresses);
      i := i - 1;
    }
    assert theirNicAddresses[0..] == theirNicAddresses;
    ops := NicOps(NicBatch(theirNic.id, addressesToTake), NicBatch(myNic.id, addressesToTake));
  }

  /** Two NICs are paired when both carry the NIC map tag with the same,
      non-empty value. */
  predicate Paired(myNic: Nic, theirNic: Nic) {
    var theirs := TagValue(theirNic.tags, NIC_TAG);
    var mine := TagValue(myNic.tags, NIC_TAG);
    Truthy(theirs) && Truthy(mine) && theirs == mine
  }

  /** `o` is the operation of one tag-paired combination of my and their NICs. */
  predicate PairedMove(mine: seq<Nic>, theirs: seq<Nic>, failoverAddresses: seq<string>, o: NicOps) {
    exists i, j ::
      0 <= i < |mine| && 0 <= j < |theirs| && Paired(mine[i], theirs[j]) &&
      o == NicOpsFor(mine[i], theirs[j], failoverAddresses)
  }

  /** The pushes of the inner reverse loop of `_generateAddressOperations`
      for one of my NICs. */
  function Row(myNic: Nic, theirs: seq<Nic>, failoverAddresses: seq<string>): seq<NicOps> {
    if theirs == [] then []
    else
      var pushed := if Paired(myNic, theirs[0]) then [NicOpsFor(myNic, theirs[0], failoverAddresses)] else [];
      Row(myNic, theirs[1..], failoverAddresses) + pushed
  }

  /** All pushes of the nested reverse loops, in order. */
  function PairOps(mine: seq<Nic>, theirs: seq<Nic>, failoverAddresses: seq<string>): seq<NicOps> {
    if mine == [] then [] else PairOps(mine[1..], theirs, failoverAddresses) + Row(mine[0], theirs, failoverAddresses)
  }

  function Disassociations(ops: seq<NicOps>): seq<NicBatch> {
    seq(|ops|, k requires 0 <= k < |ops| => ops[k].disassociate)
  }

  function Associations(ops: seq<NicOps>): seq<NicBatch> {
    seq(|ops|, k requires 0 <= k < |ops| => ops[k].associate)
  }

  /** What `_generateAddressOperations` resolves with. */
  function AddressOperationsFor(nics: seq<Nic>, localAddresses: seq<string>, failoverAddresses: seq<string>): InterfaceOps {
    var p := ParsedNics(nics, localAddresses, failoverAddresses);
    var ops := PairOps(p.mine, p.theirs, failoverAddresses);
    InterfaceOps(Disassociations(ops), Associations(ops))
  }

  /** A pushed pair of batches is the operation of one paired (mine, theirs)
      combination, and every paired combination is pushed. */
  lemma {:induction false} PairOpsMeaning(mine: seq<Nic>, theirs: seq<Nic>, failoverAddresses: seq<string>)
    ensures forall o :: o in PairOps(mine, theirs, failoverAddresses) <==> PairedMove(mine, theirs, failoverAddresses, o)
  {
    if mine != [] {
      PairOpsMeaning(mine[1..], theirs, failoverAddresses);
      RowMeaning(mine[0], theirs, failoverAddresses);
      forall o ensures o in PairOps(mine, theirs, failoverAddresses) <==> PairedMove(mine, theirs, failoverAddresses, o)
      {
        if o in PairOps(mine[1..], theirs, failoverAddresses) {
          var i, j :| 0 <= i < |mine[1..]| && 0 <= j < |theirs| && Paired(mine[1..][i], theirs[j]) &&
            o == NicOpsFor(mine[1..][i], theirs[j], failoverAddresses);
          assert mine[i + 1] == mine[1..][i];
        }
        if PairedMove(mine, theirs, failoverAddresses, o) {
          var i, j :| 0 <= i < |mine| && 0 <= j < |theirs| && Paired(mine[i], theirs[j]) &&
            o == NicOpsFor(mine[i], theirs[j], failoverAddresses);
          if i > 0 {
            assert mine[1..][i - 1] == mine[i];
            assert PairedMove(mine[1..], theirs, failoverAddresses, o);
          }
        }
      }
    }
  }

  lemma {:induction false} RowMeaning(myNic: Nic, theirs: seq<Nic>, failoverAddresses: seq<string>)
    ensures forall o :: o in Row(myNic, theirs, failoverAddresses) <==>
      exists j :: 0 <= j < |theirs| && Paired(myNic, theirs[j]) && o == NicOpsFor(myNic, theirs[j], failoverAddresses)
  {
    if theirs != [] {
      RowMeaning(myNic, theirs[1..], failoverAddresses);
      forall o ensures o in Row(myNic, theirs, failoverAddresses) <==>
        exists j :: 0 <= j < |theirs| && Paired(myNic, theirs[j]) && o == NicOpsFor(myNic, theirs[j], failoverAddresses)
      {
        if o in Row(myNic, theirs[1..], failoverAddresses) {
          var j :| 0 <= j < |theirs[1..]| && Paired(myNic, theirs[1..][j]) &&
            o == NicOpsFor(myNic, theirs[1..][j], failoverAddresses);
          assert theirs[j + 1] == theirs[1..][j];
        }
        if exists j :: 0 <= j < |theirs| && Paired(myNic, theirs[j]) && o == NicOpsFor(myNic, theirs[j], failoverAddresses) {
          var j :| 0 <= j < |theirs| && Paired(myNic, theirs[j]) && o == NicOpsFor(myNic, theirs[j], failoverAddresses);
          if j > 0 {
            assert theirs[1..][j - 1] == theirs[j];
          }
        }
      }
    }
  }

  /** `_generateAddressOperations` as promised: the two lists have equal
      length; the k-th disassociate and associate move the same addresses
      from their NIC to my NIC of one tag-paired combination; and every such
      combination has its entry. */
  lemma AddressOperationsMeaning(nics: seq<Nic>, localAddresses: seq<string>, failoverAddresses: seq<string>)
    ensures var p := ParsedNics(nics, localAddresses, failoverAddresses);
      var ops := AddressOperationsFor(nics, localAddresses, failoverAddresses);
      && |ops.disassociate| == |ops.associate|
      && (forall k :: 0 <= k < |ops.disassociate| ==>
            && ops.disassociate[k].addresses == ops.associate[k].addresses
            && PairedMove(p.mine, p.theirs, failoverAddresses, NicOps(ops.disassociate[k], ops.associate[k])))
      && (forall i, j :: 0 <= i < |p.mine| && 0 <= j < |p.theirs| && Paired(p.mine[i], p.theirs[j]) ==>
            exists k ::
              0 <= k < |ops.disassociate| &&
              NicOps(ops.disassociate[k], ops.associate[k]) == NicOpsFor(p.mine[i], p.theirs[j], failoverAddresses))
  {
    var p := ParsedNics(nics, localAddresses, failoverAddresses);
    var pairs := PairOps(p.mine, p.theirs, failoverAddresses);
    PairOpsMeaning(p.mine, p.theirs, failoverAddresses);
    var ops := AddressOperationsFor(nics, localAddresses, failoverAddresses);
    forall k | 0 <= k < |ops.disassociate|
      ensures ops.disassociate[k].addresses == ops.associate[k].addresses
      ensures PairedMove(p.mine, p.theirs, failoverAddresses, NicOps(ops.disassociate[k], ops.associate[k]))
    {
      assert NicOps(ops.disassociate[k], ops.associate[k]) == pairs[k];
      assert pairs[k] in pairs;
    }
    forall i, j | 0 <= i < |p.mine| && 0 <= j < |p.theirs| && Paired(p.mine[i], p.theirs[j])
      ensures exists k ::
        0 <= k < |ops.disassociate| &&
        NicOps(ops.disassociate[k], ops.associate[k]) == NicOpsFor(p.mine[i], p.theirs[j], failoverAddresses)
    {
      var o := NicOpsFor(p.mine[i], p.theirs[j], failoverAddresses);
      assert PairedMove(p.mine, p.theirs, failoverAddresses, o);
      assert o in pairs;
      var k :| 0 <= k < |pairs| && pairs[k] == o;
      assert NicOps(ops.disassociate[k], ops.associate[k]) == pairs[k];
    }
  }

  /** The inner reverse loop of `_generateAddressOperations` for one of my NICs. */
  method PushRow(disassociate: seq<NicBatch>, associate: seq<NicBatch>, myNic: Nic, theirs: seq<Nic>,
                 failoverAddresses: seq<string>)
    returns (dis: seq<NicBatch>, assoc: seq<NicBatch>)
    ensures dis == disassociate + Disassociations(Row(myNic, theirs, failoverAddresses))
    ensures assoc == associate + Associations(Row(myNic, theirs, failoverAddresses))
  {
    dis, assoc := disassociate, associate;
    var h := |theirs| - 1;
    while h >= 0
      invariant -1 <= h < |theirs|
      invariant dis == disassociate + Disassociations(Row(myNic, theirs[h + 1..], failoverAddresses))
      invariant assoc == associate + Associations(Row(myNic, theirs[h + 1..], failoverAddresses))
    {
      var theirNic := theirs[h];
      ghost var done := Row(myNic, theirs[h + 1..], failoverAddresses);
      RowStep(myNic, theirs, h, failoverAddresses);
      var theirNicTags := TagValue(theirNic.tags, NIC_TAG);
      var myNicTags := TagValue(myNic.tags, NIC_TAG);
      if Truthy(theirNicTags) && Truthy(myNicTags) && theirNicTags == myNicTags {
        var nicOperations := CheckForNicOperations(myNic, theirNic, failoverAddresses);
        DisassociationsAppend(done, [nicOperations]);
        dis := dis + [nicOperations.disassociate];
        assoc := assoc + [nicOperations.associate];
      } else {
        assert done + [] == done;
      }
      h := h - 1;
    }
    assert theirs[0..] == theirs;
  }

  /** One step of the inner reverse loop: the NIC at `h` is pushed after
      those behind it. */
  lemma RowStep(myNic: Nic, theirs: seq<Nic>, h: nat, failoverAddresses: seq<string>)
    requires h < |theirs|
    ensures Row(myNic, theirs[h..], failoverAddresses) ==
      Row(myNic, theirs[h + 1..], failoverAddresses) +
        (if Paired(myNic, theirs[h]) then [NicOpsFor(myNic, theirs[h], failoverAddresses)] else [])
  {
    assert theirs[h..][1..] == theirs[h + 1..];
  }

  lemma DisassociationsAppend(a: seq<NicOps>, b: seq<NicOps>)
    ensures Disassociations(a + b) == Disassociations(a) + Disassociations(b)
    ensures Associations(a + b) == Associations(a) + Associations(b)
  {
  }

  /** `_generateAddressOperations`: parse the NICs, then for every (mine,
      theirs) combination, both in reverse order, push the NIC operations of
      each tag-paired combination. */
  method GenerateAddressOperations(nics: seq<Nic>, localAddresses: seq<string>, failoverAddresses: seq<string>)
    returns (operations: InterfaceOps)
    ensures operations == AddressOperationsFor(nics, localAddresses, failoverAddresses)
  {
    var parsedNics := ParseNics(nics, localAddresses, failoverAddresses);
    var mine, theirs := parsedNics.mine, parsedNics.theirs;
    var dis: seq<NicBatch> := [];
    var assoc: seq<NicBatch> := [];
    var s := |mine| - 1;
    while s >= 0
      invariant -1 <= s < |mine|
      invariant dis == Disassociations(PairOps(mine[s + 1..], theirs, failoverAddresses))
      invariant assoc == Associations(PairOps(mine[s + 1..], theirs, failoverAddresses))
    {
      assert mine[s..][1..] == mine[s + 1..];
      DisassociationsAppend(PairOps(mine[s + 1..], theirs, failoverAddresses), Row(mine[s], theirs, failoverAddresses));
      dis, assoc := PushRow(dis, assoc, mine[s], theirs, failoverAddresses);
      s := s - 1;
    }
    assert mine[0..] == mine;
    operations := InterfaceOps(dis, assoc);
  }

  /** The plan `_discoverAddressOperations` resolves with, from what EC2
      reports: the elastic IPs, this instance's secondary private addresses
      (address to NIC id) and the NICs. */
  function AddressPlanFor(eips: seq<ElasticIp>, secondary: map<string, string>, nics: seq<Nic>,
                          keys: Option<seq<string>>, localAddresses: seq<string>, failoverAddresses: seq<string>)
    : Result<Plan, string>
  {
    if VipsLookupThrows(eips, keys) then Err(UNDEFINED_VIPS_KEYS_ERROR)
    else Ok(AddressOps(Apply(Writes(eips, secondary, keys.GetOr([]))),
                       AddressOperationsFor(nics, localAddresses, failoverAddresses)))
  }

  /** `_discoverAddressOperations` once the three describe calls have answered. */
  method DiscoverAddressOperations(eips: seq<ElasticIp>, secondary: map<string, string>, nics: seq<Nic>,
                                   keys: Option<seq<string>>, localAddresses: seq<string>,
                                   failoverAddresses: seq<string>)
    returns (r: Result<Plan, string>)
    ensures r == AddressPlanFor(eips, secondary, nics, keys, localAddresses, failoverAddresses)
    ensures r.Ok? ==> r.value.AddressOps?
  {
    var publicAddresses := GeneratePublicAddressOperations(eips, secondary, keys);
    var interfaces := GenerateAddressOperations(nics, localAddresses, failoverAddresses);
    if publicAddresses.Err? {
      return Err(publicAddresses.error);
    }
    return Ok(AddressOps(publicAddresses.value, interfaces));
  }

  // ---------------------------------------------------------------------
  // Routes (`_resolveRouteCidrBlock`, `_discoverRouteOperations`)
  // ---------------------------------------------------------------------

  /** `{ cidrBlock, ipVersion }`. */
  datatype CidrInfo = CidrInfo(cidrBlock: Option<string>, ipVersion: string)

  /** `_resolveRouteCidrBlock`: the IPv6 destination with version "6" when
      the route has a (non-empty) one, else the IPv4 destination with "4". */
  function ResolveRouteCidrBlock(route: Route): (r: CidrInfo)
    ensures r.ipVersion == "6" <==> Truthy(route.destinationIpv6CidrBlock)
    ensures r.ipVersion == "6" || r.ipVersion == "4"
    ensures r.cidrBlock == if r.ipVersion == "6" then route.destinationIpv6CidrBlock else route.destinationCidrBlock
  {
    if Truthy(route.destinationIpv6CidrBlock) then CidrInfo(route.destinationIpv6CidrBlock, "6")
    else CidrInfo(route.destinationCidrBlock, "4")
  }

  /** How JavaScript's `indexOf` reads a possibly undefined argument: as the
      text "undefined". */
  function JsText(s: Option<string>): string {
    if s.Some? then s.value else "undefined"
  }

  /** The helpers of the provider's base class the route decision calls
      (`_matchRouteToAddressRange`, `_discoverNextHopAddress`) and
      `_getNetworkInterfaceId`, whose NIC lookup goes to EC2; `Err` is its
      rejection. */
  datatype RouteContext = RouteContext(
    matchRange: Option<string> -> Option<AddressRange>,
    nextHop: (seq<string>, seq<Tag>, NextHopSpec) -> Option<string>,
    nicOf: string -> Result<string, string>)

  /** A route that matched a configured range and has a next-hop address. */
  datatype RouteCandidate = RouteCandidate(table: RouteTable, route: Route, routeAddresses: string, nextHop: string)

  /** The candidate one route yields, if any. */
  function CandidateOf(ctx: RouteContext, localAddresses: seq<string>, table: RouteTable, route: Route): Option<RouteCandidate> {
    var range := ctx.matchRange(ResolveRouteCidrBlock(route).cidrBlock);
    if range.None? then None
    else
      var hop := ctx.nextHop(localAddresses, table.tags, range.value.routeNextHopAddresses);
      if Truthy(hop) then Some(RouteCandidate(table, route, range.value.routeAddresses, hop.value)) else None
  }

  function TableCandidates(ctx: RouteContext, localAddresses: seq<string>, table: RouteTable, routes: seq<Route>)
    : seq<RouteCandidate>
  {
    if routes == [] then []
    else
      var c := CandidateOf(ctx, localAddresses, table, routes[0]);
      (if c.Some? then [c.value] else []) + TableCandidates(ctx, localAddresses, table, routes[1..])
  }

  /** The routes whose update object is requested, in `forEach` order. */
  function RouteCandidates(ctx: RouteContext, localAddresses: seq<string>, tables: seq<RouteTable>): seq<RouteCandidate> {
    if tables == [] then []
    else TableCandidates(ctx, localAddresses, tables[0], tables[0].routes) + RouteCandidates(ctx, localAddresses, tables[1..])
  }

  /** The decision in `_getUpdateOperationObject`: the route's destination
      occurs in the range text and the route points at another NIC. */
  predicate UpdateRequired(c: RouteCandidate, nicId: string) {
    Contains(c.routeAddresses, JsText(ResolveRouteCidrBlock(c.route).cidrBlock)) && c.route.nicId != Some(nicId)
  }

  /** The update objects with the empty ones filtered out; the first lookup
      that rejects rejects the whole discovery. */
  function RouteUpdates(ctx: RouteContext, cands: seq<RouteCandidate>): Result<seq<RouteOperation>, string> {
    if cands == [] then Ok([])
    else
      var c := cands[0];
      match ctx.nicOf(c.nextHop)
      case Err(e) => Err(e)
      case Ok(nicId) =>
        match RouteUpdates(ctx, cands[1..])
        case Err(e) => Err(e)
        case Ok(rest) =>
          Ok((if UpdateRequired(c, nicId) then [RouteOperation(c.table, nicId, c.routeAddresses)] else []) + rest)
  }

  /** `_discoverRouteOperations` once the route tables have been described. */
  function DiscoverRouteOperations(ctx: RouteContext, localAddresses: Option<seq<string>>, tables: seq<RouteTable>)
    : Result<seq<RouteOperation>, string>
  {
    RouteUpdates(ctx, RouteCandidates(ctx, localAddresses.GetOr([]), tables))
  }

  /** A route of a table is a candidate iff it matches a range and has a
      truthy next hop; candidates come only from the given tables. */
  lemma {:induction false} RouteCandidatesMeaning(ctx: RouteContext, localAddresses: seq<string>, tables: seq<RouteTable>)
    ensures forall c :: c in RouteCandidates(ctx, localAddresses, tables) <==>
      c.table in tables && c.route in c.table.routes && CandidateOf(ctx, localAddresses, c.table, c.route) == Some(c)
  {
    if tables != [] {
      RouteCandidatesMeaning(ctx, localAddresses, tables[1..]);
      TableCandidatesMeaning(ctx, localAddresses, tables[0], tables[0].routes);
      forall c ensures c in RouteCandidates(ctx, localAddresses, tables) <==>
        c.table in tables && c.route in c.table.routes && CandidateOf(ctx, localAddresses, c.table, c.route) == Some(c)
      {
        if c.table in tables && c.table != tables[0] {
          assert c.table in tables[1..];
        }
      }
    }
  }

  lemma {:induction false} TableCandidatesMeaning(ctx: RouteContext, localAddresses: seq<string>, table: RouteTable,
                                                  routes: seq<Route>)
    ensures forall c :: c in TableCandidates(ctx, localAddresses, table, routes) <==>
      c.table == table && c.route in routes && CandidateOf(ctx, localAddresses, table, c.route) == Some(c)
  {
    if routes != [] {
      TableCandidatesMeaning(ctx, localAddresses, table, routes[1..]);
      forall c ensures c in TableCandidates(ctx, localAddresses, table, routes) <==>
        c.table == table && c.route in routes && CandidateOf(ctx, localAddresses, table, c.route) == Some(c)
      {
        if c.route in routes && c.route != routes[0] {
          assert c.route in routes[1..];
        }
      }
    }
  }

  /** Route discovery succeeds iff every candidate's NIC lookup succeeds; an
      operation is returned exactly for the candidates that need an update,
      carrying the looked-up NIC. */
  lemma {:induction false} RouteUpdatesMeaning(ctx: RouteContext, cands: seq<RouteCandidate>)
    ensures RouteUpdates(ctx, cands).Ok? <==> forall k :: 0 <= k < |cands| ==> ctx.nicOf(cands[k].nextHop).Ok?
    ensures RouteUpdates(ctx, cands).Ok? ==> forall op :: op in RouteUpdates(ctx, cands).value <==>
      exists c :: c in cands && ctx.nicOf(c.nextHop) == Ok(op.nicId) && UpdateRequired(c, op.nicId) &&
        op == RouteOperation(c.table, op.nicId, c.routeAddresses)
  {
    if cands != [] {
      RouteUpdatesMeaning(ctx, cands[1..]);
      assert forall k :: 1 <= k < |cands| ==> cands[k] == cands[1..][k - 1];
      if RouteUpdates(ctx, cands).Ok? {
        var c := cands[0];
        forall op ensures op in RouteUpdates(ctx, cands).value <==>
          exists c' :: c' in cands && ctx.nicOf(c'.nextHop) == Ok(op.nicId) && UpdateRequired(c', op.nicId) &&
            op == RouteOperation(c'.table, op.nicId, c'.routeAddresses)
        {
          if exists c' :: c' in cands && ctx.nicOf(c'.nextHop) == Ok(op.nicId) && UpdateRequired(c', op.nicId) &&
                          op == RouteOperation(c'.table, op.nicId, c'.routeAddresses) {
            var c' :| c' in cands && ctx.nicOf(c'.nextHop) == Ok(op.nicId) && UpdateRequired(c', op.nicId) &&
              op == RouteOperation(c'.table, op.nicId, c'.routeAddresses);
            if c' != c {
              assert c' in cands[1..];
            }
          }
        }
      }
    }
  }

  /** The candidate's NIC lookup succeeds and the route needs no update. */
  predicate Settled(ctx: RouteContext, c: RouteCandidate) {
    ctx.nicOf(c.nextHop).Ok? && !UpdateRequired(c, ctx.nicOf(c.nextHop).value)
  }

  /** No operations when every matched route already points at its next
      hop's NIC (or when its destination is outside the range text). */
  lemma {:induction false} ConvergedRoutesNeedNoUpdate(ctx: RouteContext, cands: seq<RouteCandidate>)
    requires forall k :: 0 <= k < |cands| ==> Settled(ctx, cands[k])
    ensures RouteUpdates(ctx, cands).Ok? && RouteUpdates(ctx, cands).value == []
  {
    if cands != [] {
      assert forall k :: 0 <= k < |cands[1..]| ==> cands[1..][k] == cands[k + 1];
      ConvergedRoutesNeedNoUpdate(ctx, cands[1..]);
      assert Settled(ctx, cands[0]);
      var nicId := ctx.nicOf(cands[0].nextHop).value;
      assert ctx.nicOf(cands[0].nextHop) == Ok(nicId);

    }
  }

  /** `_discoverRouteOperations` as promised: an operation is returned for a
      route of one of the tables exactly when the route matches a configured
      range, has a next-hop address, its destination occurs in the range and
      it points at a NIC other than the next hop's; the operation carries the
      route's table, the next hop's NIC and the range. */
  lemma RouteOperationsMeaning(ctx: RouteContext, localAddresses: Option<seq<string>>, tables: seq<RouteTable>,
                               op: RouteOperation)
    ensures var r := DiscoverRouteOperations(ctx, localAddresses, tables);
      r.Ok? ==> (op in r.value <==>
        exists c: RouteCandidate ::
          c.table in tables && c.route in c.table.routes &&
          CandidateOf(ctx, localAddresses.GetOr([]), c.table, c.route) == Some(c) &&
          ctx.nicOf(c.nextHop) == Ok(op.nicId) && UpdateRequired(c, op.nicId) &&
          op == RouteOperation(c.table, op.nicId, c.routeAddresses))
  {
    var cands := RouteCandidates(ctx, localAddresses.GetOr([]), tables);
    RouteCandidatesMeaning(ctx, localAddresses.GetOr([]), tables);
    RouteUpdatesMeaning(ctx, cands);
  }
}
