/** The failover task engine: `FailoverClient.execute` and its helpers, over a
    recorded cloud provider. The provider is a stub whose storage holds the
    state file and whose every call is numbered and logged; a call fails
    exactly when its number is in the stub's fault set. Time is a parameter:
    `now` stamps the records written, and the `k`-th poll of the state file
    happens at `clock(k)`. Sibling calls of a `Promise.all` are all issued, in
    list order, and the first failing one (in that order) decides the error. */
module Orchestrator {
  import opened Base
  import opened Plans
  import opened Config
  import opened TaskState
  import opened Classification

  /** `maxRetries` of `_waitForTask`: the state file is polled at most this often. */
  const MAX_TASK_POLLS := 400

  const RUNNING_MESSAGE := "Failover running"
  const COMPLETE_MESSAGE := "Failover Complete"
  const FAILURE_PREFIX := "Failover failed because "
  const NO_ACTION_MESSAGE := "No action performed"
  const RECOVERY_EMPTY := "Recovery operations are empty, advise reset via the API"
  const RETRY := "retry"
  /** What reading `results[0]` throws when `_getDeviceObjects` swallowed an error. */
  const DEVICE_FACTS_ERROR := "Cannot read property '0' of undefined"
  /** The rejections of the stubbed provider calls. */
  const DOWNLOAD_ERROR := "downloadDataFromStorage failed"
  const UPLOAD_ERROR := "uploadDataToStorage failed"
  const DISCOVERY_ERROR := "discovery failed"
  const UPDATE_ERROR := "update failed"

  /** The six device queries of `_getDeviceObjects`, already answered. */
  datatype DeviceSnapshot = DeviceSnapshot(
    hostname: string,
    trafficGroupStats: seq<TrafficGroupStat>,
    selfAddresses: seq<SelfAddress>,
    virtualAddresses: seq<FloatingSource>,
    snatAddresses: seq<FloatingSource>,
    natAddresses: seq<NatAddress>)

  /** One logged provider call and whether it succeeded. */
  datatype Event =
    | Download(ok: bool)
    | Upload(record: StateRecord, ok: bool)
    | DiscoverAddresses(localAddresses: seq<string>, failoverAddresses: seq<string>, ok: bool)
    | DiscoverRoutes(localAddresses: seq<string>, ok: bool)
    | ApplyAddresses(plan: Plan, ok: bool)
    | ApplyRoutes(plan: Plan, ok: bool)

  datatype Outcome = Done | Failed(error: string)

  /** `n` polls of the state file, the first of them call number `first`. */
  function Polls(first: nat, n: nat, faults: set<nat>): (t: seq<Event>)
    ensures |t| == n
  {
    if n == 0 then [] else Polls(first, n - 1, faults) + [Download(first + n - 1 !in faults)]
  }

  lemma AppendAssoc<T>(a: seq<T>, b: seq<T>, c: seq<T>)
    ensures a + (b + c) == a + b + c
  {
  }

  /** A discovery or update call. */
  predicate IsCall(e: Event) {
    !e.Download? && !e.Upload?
  }

  /** Discovery and update calls only. */
  predicate OnlyCalls(t: seq<Event>) {
    forall i :: 0 <= i < |t| ==> IsCall(t[i])
  }

  /** The discovery calls of `_getFailoverDiscovery`, addresses first, the
      first of them call number `first`. */
  function DiscoveryEvents(local: seq<string>, failover: seq<string>, first: nat, faults: set<nat>,
                           addressesOn: bool, routesOn: bool): (t: seq<Event>)
    ensures OnlyCalls(t)
    ensures |t| == (if addressesOn then 1 else 0) + (if routesOn then 1 else 0)
  {
    (if addressesOn then [DiscoverAddresses(local, failover, first !in faults)] else []) +
    (if routesOn then [DiscoverRoutes(local, first + (if addressesOn then 1 else 0) !in faults)] else [])
  }

  /** The update calls of `execute`, addresses first, the first of them call
      number `first`. */
  function ApplyEvents(addressPlan: Plan, routePlan: Plan, first: nat, faults: set<nat>,
                       addressesOn: bool, routesOn: bool): (t: seq<Event>)
    ensures OnlyCalls(t)
    ensures |t| == (if addressesOn then 1 else 0) + (if routesOn then 1 else 0)
  {
    (if addressesOn then [ApplyAddresses(addressPlan, first !in faults)] else []) +
    (if routesOn then [ApplyRoutes(routePlan, first + (if addressesOn then 1 else 0) !in faults)] else [])
  }

  /** The records a stretch of the trace uploaded, in order, written or not. */
  function Uploads(t: seq<Event>): seq<StateRecord> {
    if t == [] then []
    else Uploads(t[..|t| - 1]) + (if t[|t| - 1].Upload? then [t[|t| - 1].record] else [])
  }

  /** Polls of the state file. */
  function PollCount(t: seq<Event>): nat {
    if t == [] then 0 else PollCount(t[..|t| - 1]) + (if t[|t| - 1].Download? then 1 else 0)
  }

  /** Discovery and update calls. */
  function CallCount(t: seq<Event>): nat {
    if t == [] then 0 else CallCount(t[..|t| - 1]) + (if IsCall(t[|t| - 1]) then 1 else 0)
  }

  /** Uploads that were not written. */
  function FailedWrites(t: seq<Event>): nat {
    if t == [] then 0 else FailedWrites(t[..|t| - 1]) + (if t[|t| - 1].Upload? && !t[|t| - 1].ok then 1 else 0)
  }

  /** Polls that came after an upload. */
  function PollsAfterUpload(t: seq<Event>): nat {
    if t == [] then 0
    else PollsAfterUpload(t[..|t| - 1]) + (if t[|t| - 1].Download? && |Uploads(t[..|t| - 1])| > 0 then 1 else 0)
  }

  /** Discovery and update calls that came before any upload. */
  function CallsBeforeUpload(t: seq<Event>): nat {
    if t == [] then 0
    else CallsBeforeUpload(t[..|t| - 1]) + (if IsCall(t[|t| - 1]) && |Uploads(t[..|t| - 1])| == 0 then 1 else 0)
  }

  /** The order of a run: at most MAX_TASK_POLLS polls, all of them before the
      first upload, and no discovery or update call before it. */
  predicate InOrder(t: seq<Event>) {
    PollCount(t) <= MAX_TASK_POLLS && PollsAfterUpload(t) == 0 && CallsBeforeUpload(t) == 0
  }

  lemma CountsSnoc(t: seq<Event>, e: Event)
    ensures Uploads(t + [e]) == Uploads(t) + (if e.Upload? then [e.record] else [])
    ensures PollCount(t + [e]) == PollCount(t) + (if e.Download? then 1 else 0)
    ensures CallCount(t + [e]) == CallCount(t) + (if IsCall(e) then 1 else 0)
    ensures FailedWrites(t + [e]) == FailedWrites(t) + (if e.Upload? && !e.ok then 1 else 0)
    ensures PollsAfterUpload(t + [e]) == PollsAfterUpload(t) + (if e.Download? && |Uploads(t)| > 0 then 1 else 0)
    ensures CallsBeforeUpload(t + [e]) == CallsBeforeUpload(t) + (if IsCall(e) && |Uploads(t)| == 0 then 1 else 0)
  {
    assert (t + [e])[..|t|] == t;
  }

  /** The counts are compositional: those of `a + b` follow from those of `a`
      and of `b`. Once `a` has uploaded, every poll of `b` comes after an
      upload and no call of `b` comes before one. */
  lemma {:induction false} CountsAppend(a: seq<Event>, b: seq<Event>)
    ensures Uploads(a + b) == Uploads(a) + Uploads(b)
    ensures PollCount(a + b) == PollCount(a) + PollCount(b)
    ensures CallCount(a + b) == CallCount(a) + CallCount(b)
    ensures FailedWrites(a + b) == FailedWrites(a) + FailedWrites(b)
    ensures PollsAfterUpload(a + b) == PollsAfterUpload(a) + (if |Uploads(a)| > 0 then PollCount(b) else PollsAfterUpload(b))
    ensures CallsBeforeUpload(a + b) == CallsBeforeUpload(a) + (if |Uploads(a)| == 0 then CallsBeforeUpload(b) else 0)
  {
    if b == [] {
      assert a + b == a;
      assert Uploads(a) + [] == Uploads(a);
    } else {
      var init := b[..|b| - 1];
      var e := b[|b| - 1];
      assert a + b == (a + init) + [e];
      assert init + [e] == b;
      CountsSnoc(a + init, e);
      CountsSnoc(init, e);
      CountsAppend(a, init);
      AppendAssoc(Uploads(a), Uploads(init), if e.Upload? then [e.record] else []);
    }
  }

  /** `n` polls: `n` polls and nothing else. */
  lemma {:induction false} PollsCounts(first: nat, n: nat, faults: set<nat>)
    ensures var t := Polls(first, n, faults);
      && Uploads(t) == [] && PollCount(t) == n && CallCount(t) == 0 && FailedWrites(t) == 0
      && PollsAfterUpload(t) == 0 && CallsBeforeUpload(t) == 0
  {
    if n > 0 {
      var t := Polls(first, n, faults);
      assert t == Polls(first, n - 1, faults) + [Download(first + n - 1 !in faults)];
      CountsSnoc(Polls(first, n - 1, faults), Download(first + n - 1 !in faults));
      PollsCounts(first, n - 1, faults);
    }
  }

  /** Discovery and update calls: as many calls, no upload, and every call
      before any upload. */
  lemma {:induction false} CallsCounts(t: seq<Event>)
    requires OnlyCalls(t)
    ensures && Uploads(t) == [] && PollCount(t) == 0 && CallCount(t) == |t| && FailedWrites(t) == 0
            && PollsAfterUpload(t) == 0 && CallsBeforeUpload(t) == |t|
  {
    if t != [] {
      var init := t[..|t| - 1];
      var e := t[|t| - 1];
      assert t == init + [e];
      assert OnlyCalls(init) by {
        forall i | 0 <= i < |init| ensures IsCall(init[i]) {
          assert init[i] == t[i];
        }
      }
      CallsCounts(init);
      assert IsCall(e);
      CountsSnoc(init, e);
    }
  }

  /** A checkpoint attempt followed by discovery or update calls: one upload,
      then the calls, none of them before it. */
  lemma CheckpointThenCalls(record: StateRecord, ok: bool, d: seq<Event>)
    requires OnlyCalls(d)
    ensures var t := [Upload(record, ok)] + d;
      && Uploads(t) == [record] && PollCount(t) == 0 && CallCount(t) == |d|
      && FailedWrites(t) == (if ok then 0 else 1) && PollsAfterUpload(t) == 0 && CallsBeforeUpload(t) == 0
  {
    CountsSnoc([], Upload(record, ok));
    assert [] + [Upload(record, ok)] == [Upload(record, ok)];
    CallsCounts(d);
    CountsAppend([Upload(record, ok)], d);
    assert [record] + [] == [record];
  }

  /** The polls, the first checkpoint attempt, then discovery calls: in order,
      with that one upload. */
  lemma PreparedCounts(first: nat, n: nat, faults: set<nat>, polls: seq<Event>, rest: seq<Event>)
    requires n <= MAX_TASK_POLLS && polls == Polls(first, n, faults)
    requires |rest| > 0 && rest[0].Upload? && OnlyCalls(rest[1..])
    ensures var t := polls + rest;
      && InOrder(t) && Uploads(t) == [rest[0].record] && CallCount(t) == |rest| - 1
      && FailedWrites(t) == (if rest[0].ok then 0 else 1)
  {
    assert rest == [Upload(rest[0].record, rest[0].ok)] + rest[1..];
    CountsAppend(polls, rest);
    PollsCounts(first, n, faults);
    CheckpointThenCalls(rest[0].record, rest[0].ok, rest[1..]);
  }

  lemma HeadTail<T>(x: T, u: seq<T>)
    ensures ([x] + u)[0] == x && ([x] + u)[1..] == u
  {
  }

  lemma PrefixExtend<T>(u: seq<T>, v: seq<T>, w: seq<T>)
    requires u <= v
    ensures u <= v + w
  {
    assert (v + w)[..|u|] == v[..|u|];
  }

  lemma PrefixCons<T>(x: T, u: seq<T>, v: seq<T>)
    requires u <= v
    ensures [x] + u <= [x] + v
  {
    assert ([x] + v)[..|u| + 1] == [x] + v[..|u|];
  }

  /** A prepared part that resolved with its one checkpoint written, followed
      by a commit: the chain stays in order, makes no call unless active, and
      its uploads, the first checkpoint followed by the commit's, are a prefix
      of the run's three. */
  lemma ChainOrder(p: seq<Event>, c: seq<Event>, checkpoint: StateRecord, running: StateRecord,
                   succeeded: StateRecord, active: bool)
    requires InOrder(p) && Uploads(p) == [checkpoint] && FailedWrites(p) == 0 && (!active ==> CallCount(p) == 0)
    requires PollCount(c) == 0 && CallsBeforeUpload(c) == 0 && (!active ==> CallCount(c) == 0)
    requires Uploads(c) <= [running, succeeded]
    ensures InOrder(p + c) && (!active ==> CallCount(p + c) == 0) && FailedWrites(p + c) == FailedWrites(c)
    ensures Uploads(p + c) == [checkpoint] + Uploads(c) && Uploads(p + c) <= [checkpoint, running, succeeded]
    ensures EndsSucceeded(c, [running, succeeded], succeeded) ==>
      EndsSucceeded(p + c, [checkpoint, running, succeeded], succeeded)
  {
    CountsAppend(p, c);
    PrefixCons(checkpoint, Uploads(c), [running, succeeded]);
    if |c| > 0 {
      assert (p + c)[|p + c| - 1] == c[|c| - 1];
    }
  }

  /** A rejected chain followed by the FAILED checkpoint attempt: in order,
      and its uploads are a prefix of the run's three followed by FAILED. */
  lemma FailureOrder(t: seq<Event>, prefix: seq<StateRecord>, failed: StateRecord, ok: bool)
    requires InOrder(t) && Uploads(t) <= prefix
    ensures InOrder(t + [Upload(failed, ok)]) && CallCount(t + [Upload(failed, ok)]) == CallCount(t)
    ensures EndsFailed(t + [Upload(failed, ok)], prefix, failed)
  {
    CountsSnoc(t, Upload(failed, ok));
    var u := Uploads(t + [Upload(failed, ok)]);
    assert u[..|u| - 1] == Uploads(t);
  }

  /** The state file is a RUNNING checkpoint whose address plan is `plan`. */
  predicate HoldsAddressPlan(s: Option<StateRecord>, plan: Plan) {
    && s.Some? && s.value.taskState == Some(RUNNING)
    && s.value.failoverOperations.Some? && s.value.failoverOperations.value.addresses == Some(plan)
  }

  /** The state file is a RUNNING checkpoint whose route plan is `plan`. */
  predicate HoldsRoutePlan(s: Option<StateRecord>, plan: Plan) {
    && s.Some? && s.value.taskState == Some(RUNNING)
    && s.value.failoverOperations.Some? && s.value.failoverOperations.value.routes == Some(plan)
  }

  /** A plan was applied once, or not at all. */
  predicate AppliedAtMostOnce(before: seq<Plan>, after: seq<Plan>, plan: Option<Plan>) {
    after == before || (plan.Some? && after == before + [plan.value])
  }

  /** A run's order, with no discovery or update call unless active. */
  predicate Ordered(events: seq<Event>, active: bool) {
    InOrder(events) && (!active ==> CallCount(events) == 0)
  }

  /** A rejected run: the uploads are a prefix of `checkpoints` followed by
      the `failed` checkpoint, which is the last event. */
  predicate EndsFailed(events: seq<Event>, checkpoints: seq<StateRecord>, failed: StateRecord) {
    var u := Uploads(events);
    && |u| > 0 && u[..|u| - 1] <= checkpoints && u[|u| - 1] == failed
    && |events| > 0 && events[|events| - 1].Upload? && events[|events| - 1].record == failed
  }

  /** A completed run: exactly `checkpoints` were uploaded, all written, and
      the last event is the write of `succeeded`. */
  predicate EndsSucceeded(events: seq<Event>, checkpoints: seq<StateRecord>, succeeded: StateRecord) {
    && Uploads(events) == checkpoints && FailedWrites(events) == 0
    && |events| > 0 && events[|events| - 1] == Upload(succeeded, true)
  }

  /** `updates[i] || {}`. */
  function PlanOrEmpty(updates: seq<Option<Plan>>, i: nat): (p: Plan)
    ensures i < |updates| && updates[i].Some? ==> p == updates[i].value
    ensures i >= |updates| || updates[i].None? ==> p == EmptyObject
  {
    if i < |updates| && updates[i].Some? then updates[i].value else EmptyObject
  }

  /** The recovery guard of `_getRecoveryOperations`: no operations object, or
      one with neither addresses nor routes, cannot be recovered; otherwise the
      two stored plans are handed on unchanged, addresses first. */
  function RecoveryPlans(ops: Option<Operations>): (r: Result<seq<Option<Plan>>, string>)
    ensures r.Err? <==> ops.None? || (ops.value.addresses.None? && ops.value.routes.None?)
    ensures r.Err? ==> r.error == RECOVERY_EMPTY
    ensures r.Ok? ==> |r.value| == 2 && r.value[0] == ops.value.addresses && r.value[1] == ops.value.routes
  {
    if ops.None? || (ops.value.addresses.None? && ops.value.routes.None?) then Err(RECOVERY_EMPTY)
    else Ok([ops.value.addresses, ops.value.routes])
  }

  /** A FAILED checkpoint written before any plan was known carries neither
      plan, so replaying it is refused. */
  lemma EarlyFailureIsUnrecoverable(message: string, hostname: string, now: int)
    ensures RecoveryPlans(CheckpointRecord(StateOptions(Some(FAILED), message, Some(Operations(None, None))),
                                          hostname, now).failoverOperations).Err?
  {
  }

  /** The first RUNNING checkpoint of a run is written without operations;
      a crash right after it leaves a record that cannot be recovered. */
  lemma FirstCheckpointIsUnrecoverable(hostname: string, now: int)
    ensures RecoveryPlans(CheckpointRecord(StateOptions(Some(RUNNING), RUNNING_MESSAGE, None),
                                          hostname, now).failoverOperations).Err?
  {
  }

  /** A checkpoint that carries both plans hands them back unchanged. */
  lemma CheckpointedPlansRecover(message: string, a: Plan, b: Plan, hostname: string, now: int)
    ensures RecoveryPlans(CheckpointRecord(StateOptions(Some(FAILED), message, Some(Operations(Some(a), Some(b)))),
                                          hostname, now).failoverOperations) == Ok([Some(a), Some(b)])
  {
  }


  /** The cloud provider as the failover engine sees it: state storage, discovery
      and update, each call numbered and logged. The update calls demand that
      the plan they apply is already in a RUNNING state file (write-ahead). */
  class CloudStub {
    var storage: Option<StateRecord>
    var trace: seq<Event>
    var calls: nat
    /** The plans handed to the two update calls, in order. */
    var appliedAddresses: seq<Plan>
    var appliedRoutes: seq<Plan>
    /** Numbers of the calls that reject. */
    const faults: set<nat>
    /** What discovery returns for addresses and for routes. */
    const addressPlan: Plan
    const routePlan: Plan

    constructor(storage: Option<StateRecord>, faults: set<nat>, addressPlan: Plan, routePlan: Plan)
      ensures this.storage == storage && this.faults == faults
      ensures this.addressPlan == addressPlan && this.routePlan == routePlan
      ensures trace == [] && calls == 0 && appliedAddresses == [] && appliedRoutes == []
    {
      this.storage := storage;
      this.faults := faults;
      this.addressPlan := addressPlan;
      this.routePlan := routePlan;
      trace := [];
      calls := 0;
      appliedAddresses := [];
      appliedRoutes := [];
    }

    /** `downloadDataFromStorage(stateFileName)`. */
    method DownloadDataFromStorage() returns (r: Result<Option<StateRecord>, string>)
      modifies this`trace, this`calls
      ensures calls == old(calls) + 1
      ensures trace == old(trace) + [Download(old(calls) !in faults)]
      ensures r == if old(calls) in faults then Err(DOWNLOAD_ERROR) else Ok(storage)
    {
      r := if calls in faults then Err(DOWNLOAD_ERROR) else Ok(storage);
      trace := trace + [Download(calls !in faults)];
      calls := calls + 1;
    }

    /** `uploadDataToStorage(stateFileName, record)`: on success the record is stored. */
    method UploadDataToStorage(record: StateRecord) returns (ok: bool)
      modifies this`trace, this`calls, this`storage
      ensures calls == old(calls) + 1
      ensures ok <==> old(calls) !in faults
      ensures trace == old(trace) + [Upload(record, ok)]
      ensures storage == if ok then Some(record) else old(storage)
    {
      ok := calls !in faults;
      if ok {
        storage := Some(record);
      }
      trace := trace + [Upload(record, ok)];
      calls := calls + 1;
    }

    /** `updateAddresses({ localAddresses, failoverAddresses, discoverOnly: true })`. */
    method DiscoverAddressOperations(localAddresses: seq<string>, failoverAddresses: seq<string>)
      returns (r: Result<Plan, string>)
      modifies this`trace, this`calls
      ensures calls == old(calls) + 1
      ensures trace == old(trace) + [DiscoverAddresses(localAddresses, failoverAddresses, old(calls) !in faults)]
      ensures r == if old(calls) in faults then Err(DISCOVERY_ERROR) else Ok(addressPlan)
    {
      r := if calls in faults then Err(DISCOVERY_ERROR) else Ok(addressPlan);
      trace := trace + [DiscoverAddresses(localAddresses, failoverAddresses, calls !in faults)];
      calls := calls + 1;
    }

    /** `updateRoutes({ localAddresses, discoverOnly: true })`. */
    method DiscoverRouteOperations(localAddresses: seq<string>) returns (r: Result<Plan, string>)
      modifies this`trace, this`calls
      ensures calls == old(calls) + 1
      ensures trace == old(trace) + [DiscoverRoutes(localAddresses, old(calls) !in faults)]
      ensures r == if old(calls) in faults then Err(DISCOVERY_ERROR) else Ok(routePlan)
    {
      r := if calls in faults then Err(DISCOVERY_ERROR) else Ok(routePlan);
      trace := trace + [DiscoverRoutes(localAddresses, calls !in faults)];
      calls := calls + 1;
    }

    /** `updateAddresses({ updateOperations: plan })`. */
    method UpdateAddresses(plan: Plan) returns (ok: bool)
      requires HoldsAddressPlan(storage, plan)
      modifies this`trace, this`calls, this`appliedAddresses
      ensures calls == old(calls) + 1
      ensures appliedAddresses == old(appliedAddresses) + [plan]
      ensures ok <==> old(calls) !in faults
      ensures trace == old(trace) + [ApplyAddresses(plan, ok)]
    {
      ok := calls !in faults;
      trace := trace + [ApplyAddresses(plan, ok)];
      appliedAddresses := appliedAddresses + [plan];
      calls := calls + 1;
    }

    /** `updateRoutes({ updateOperations: plan })`. */
    method UpdateRoutes(plan: Plan) returns (ok: bool)
      requires HoldsRoutePlan(storage, plan)
      modifies this`trace, this`calls, this`appliedRoutes
      ensures calls == old(calls) + 1
      ensures appliedRoutes == old(appliedRoutes) + [plan]
      ensures ok <==> old(calls) !in faults
      ensures trace == old(trace) + [ApplyRoutes(plan, ok)]
    {
      ok := calls !in faults;
      trace := trace + [ApplyRoutes(plan, ok)];
      appliedRoutes := appliedRoutes + [plan];
      calls := calls + 1;
    }
  }

  /** `FailoverClient`, after `init`: the declaration and the provider are given. */
  class FailoverClient {
    const config: Declaration
    const cloud: CloudStub
    var hostname: Option<string>
    var trafficGroupStats: seq<TrafficGroupStat>
    var selfAddresses: seq<SelfAddress>
    var virtualAddresses: seq<FloatingSource>
    var snatAddresses: seq<FloatingSource>
    var natAddresses: seq<NatAddress>
    /** `null` until a run assigns them; they survive from one run to the next. */
    var addressDiscovery: Option<Plan>
    var routeDiscovery: Option<Plan>
    var recoverPreviousTask: bool
    var recoveryOperations: Option<Operations>
    var hasActiveTrafficGroups: bool
    var isAddressOperationsEnabled: bool
    var isRouteOperationsEnabled: bool
    var localAddresses: seq<string>
    var failoverAddresses: seq<string>

    constructor(config: Declaration, cloud: CloudStub)
      ensures this.config == config && this.cloud == cloud
      ensures hostname.None? && addressDiscovery.None? && routeDiscovery.None?
      ensures !recoverPreviousTask && recoveryOperations.None? && !hasActiveTrafficGroups
    {
      this.config := config;
      this.cloud := cloud;
      hostname := None;
      trafficGroupStats := [];
      selfAddresses := [];
      virtualAddresses := [];
      snatAddresses := [];
      natAddresses := [];
      addressDiscovery := None;
      routeDiscovery := None;
      recoverPreviousTask := false;
      recoveryOperations := None;
      hasActiveTrafficGroups := false;
      isAddressOperationsEnabled := false;
      isRouteOperationsEnabled := false;
      localAddresses := [];
      failoverAddresses := [];
    }

    /** The hostname as `this.hostname || 'none'` sees it. */
    function HostText(): string
      reads this`hostname
    {
      hostname.GetOr("")
    }

    /** The RUNNING checkpoint without operations that opens a run. */
    function FirstCheckpoint(now: int): StateRecord
      reads this`hostname
    {
      CheckpointRecord(StateOptions(Some(RUNNING), RUNNING_MESSAGE, None), HostText(), now)
    }

    /** A checkpoint carrying the current plans. */
    function PlanCheckpoint(state: string, message: string, now: int): StateRecord
      reads this`hostname, this`addressDiscovery, this`routeDiscovery
    {
      CheckpointRecord(StateOptions(Some(state), message, Some(Operations(addressDiscovery, routeDiscovery))), HostText(), now)
    }

    /** The checkpoints of a run that completes, in order: RUNNING without
        operations, RUNNING with the plans, SUCCEEDED with the plans. */
    function RunCheckpoints(now: int): seq<StateRecord>
      reads this`hostname, this`addressDiscovery, this`routeDiscovery
    {
      [FirstCheckpoint(now), PlanCheckpoint(RUNNING, RUNNING_MESSAGE, now), PlanCheckpoint(SUCCEEDED, COMPLETE_MESSAGE, now)]
    }

    /** `_createAndUpdateStateObject`: write the checkpoint; resolve with it. */
    method CreateAndUpdateStateObject(options: StateOptions, now: int) returns (r: Result<StateRecord, string>)
      modifies cloud`trace, cloud`calls, cloud`storage
      ensures cloud.calls == old(cloud.calls) + 1
      ensures cloud.trace == old(cloud.trace) + [Upload(CheckpointRecord(options, HostText(), now), r.Ok?)]
      ensures r.Ok? <==> old(cloud.calls) !in cloud.faults
      ensures r.Ok? ==> r.value == CheckpointRecord(options, HostText(), now) && cloud.storage == Some(r.value)
      ensures r.Err? ==> r.error == UPLOAD_ERROR && cloud.storage == old(cloud.storage)
    {
      var record := CheckpointRecord(options, HostText(), now);
      var ok := cloud.UploadDataToStorage(record);
      r := if ok then Ok(record) else Err(UPLOAD_ERROR);
    }

    /** `getTaskStateFile`: return the stored record, or write the "never
        triggered" record when there is none. Because NEVER_RUN is undefined,
        that record's state defaults to SUCCEEDED. */
    method GetTaskStateFile(now: int) returns (r: Result<StateRecord, string>)
      modifies cloud`trace, cloud`calls, cloud`storage
      ensures old(cloud.calls) in cloud.faults ==>
        r == Err(DOWNLOAD_ERROR) && cloud.trace == old(cloud.trace) + [Download(false)]
      ensures old(cloud.calls) !in cloud.faults && old(cloud.storage).Some? && Truthy(old(cloud.storage).value.taskState) ==>
        r == Ok(old(cloud.storage).value) && cloud.trace == old(cloud.trace) + [Download(true)]
      ensures old(cloud.calls) !in cloud.faults && (old(cloud.storage).None? || !Truthy(old(cloud.storage).value.taskState)) ==>
        var written := CheckpointRecord(StateOptions(NEVER_RUN, NEVER_TRIGGERED_MESSAGE, None), HostText(), now);
        && written.taskState == Some(SUCCEEDED)
        && cloud.trace == old(cloud.trace) + [Download(true), Upload(written, r.Ok?)]
        && (r.Ok? ==> r.value == written && cloud.storage == Some(written))
    {
      var data := cloud.DownloadDataFromStorage();
      if data.Err? {
        return Err(data.error);
      }
      if data.value.None? || !Truthy(data.value.value.taskState) {
        r := CreateAndUpdateStateObject(StateOptions(NEVER_RUN, NEVER_TRIGGERED_MESSAGE, None), now);
        return;
      }
      r := Ok(data.value.value);
    }

    /** `_waitForTask`: poll `_checkTaskState` until it resolves, at most
        MAX_TASK_POLLS times; a failed download and a 'retry' both count as a
        failed poll, and after the last poll its error is surfaced. */
    method WaitForTask(clock: nat -> int) returns (r: Result<TaskCheck, string>)
      modifies cloud`trace, cloud`calls
      ensures old(cloud.calls) < cloud.calls <= old(cloud.calls) + MAX_TASK_POLLS
      ensures cloud.trace == old(cloud.trace) + Polls(old(cloud.calls), cloud.calls - old(cloud.calls), cloud.faults)
      ensures forall k :: 0 <= k < cloud.calls - old(cloud.calls) - 1 ==>
        old(cloud.calls) + k in cloud.faults || CheckTaskState(cloud.storage, clock(k)).Retry?
      ensures r.Ok? ==>
        var k := cloud.calls - old(cloud.calls) - 1;
        old(cloud.calls) + k !in cloud.faults && r.value == CheckTaskState(cloud.storage, clock(k)) && !r.value.Retry?
      ensures r.Err? ==>
        var k := MAX_TASK_POLLS - 1;
        && cloud.calls == old(cloud.calls) + MAX_TASK_POLLS
        && (old(cloud.calls) + k in cloud.faults || CheckTaskState(cloud.storage, clock(k)).Retry?)
        && r.error == (if old(cloud.calls) + k in cloud.faults then DOWNLOAD_ERROR else RETRY)
    {
      var attempt := 0;
      var lastError := RETRY;
      while attempt < MAX_TASK_POLLS
        invariant 0 <= attempt <= MAX_TASK_POLLS
        invariant cloud.calls == old(cloud.calls) + attempt
        invariant cloud.trace == old(cloud.trace) + Polls(old(cloud.calls), attempt, cloud.faults)
        invariant forall k :: 0 <= k < attempt ==>
          old(cloud.calls) + k in cloud.faults || CheckTaskState(cloud.storage, clock(k)).Retry?
        invariant attempt > 0 ==>
          lastError == (if old(cloud.calls) + attempt - 1 in cloud.faults then DOWNLOAD_ERROR else RETRY)
      {
        var data := cloud.DownloadDataFromStorage();
        if data.Ok? {
          var check := CheckTaskState(data.value, clock(attempt));
          if !check.Retry? {
            return Ok(check);
          }
          lastError := RETRY;
        } else {
          lastError := data.error;
        }
        attempt := attempt + 1;
      }
      r := Err(lastError);
    }

    /** `_getRecoveryOperations`: refuse an empty plan, otherwise write RUNNING
        and hand back the stored plans. */
    method GetRecoveryOperations(state: StateRecord, now: int) returns (r: Result<seq<Option<Plan>>, string>)
      modifies this`recoverPreviousTask, this`recoveryOperations, cloud`trace, cloud`calls, cloud`storage
      ensures recoverPreviousTask && recoveryOperations == state.failoverOperations
      ensures RecoveryPlans(state.failoverOperations).Err? ==>
        r == RecoveryPlans(state.failoverOperations) && cloud.trace == old(cloud.trace) && cloud.calls == old(cloud.calls)
      ensures RecoveryPlans(state.failoverOperations).Ok? ==>
        && cloud.trace == old(cloud.trace) +
             [Upload(CheckpointRecord(StateOptions(Some(RUNNING), RUNNING_MESSAGE, None), HostText(), now), r.Ok?)]
        && (r.Ok? ==> r == RecoveryPlans(state.failoverOperations))
        && (r.Err? ==> r.error == UPLOAD_ERROR)
    {
      recoverPreviousTask := true;
      recoveryOperations := state.failoverOperations;
      var plans := RecoveryPlans(recoveryOperations);
      if plans.Err? {
        return plans;
      }
      var w := CreateAndUpdateStateObject(StateOptions(Some(RUNNING), RUNNING_MESSAGE, None), now);
      if w.Err? {
        return Err(w.error);
      }
      r := plans;
    }

    /** The provider half of `_getFailoverDiscovery`: ask for the enabled
        plans, addresses first; the result lists them in that order. */
    method DiscoverPlans(local: seq<string>, failover: seq<string>) returns (r: Result<seq<Option<Plan>>, string>)
      modifies cloud`trace, cloud`calls
      ensures cloud.trace == old(cloud.trace) +
        DiscoveryEvents(local, failover, old(cloud.calls), cloud.faults, isAddressOperationsEnabled, isRouteOperationsEnabled)
      ensures r.Ok? ==> |r.value| == (if isAddressOperationsEnabled then 1 else 0) + (if isRouteOperationsEnabled then 1 else 0)
      ensures r.Ok? && isAddressOperationsEnabled ==> r.value[0] == Some(cloud.addressPlan)
      ensures r.Ok? && isRouteOperationsEnabled ==> r.value[|r.value| - 1] == Some(cloud.routePlan)
      ensures r.Err? <==> exists k :: old(cloud.calls) <= k < cloud.calls && k in cloud.faults
      ensures r.Err? ==> r.error == DISCOVERY_ERROR
    {
      var results: seq<Option<Plan>> := [];
      var firstError: Option<string> := None;
      if isAddressOperationsEnabled {
        var a := cloud.DiscoverAddressOperations(local, failover);
        if a.Ok? {
          results := results + [Some(a.value)];
        } else {
          firstError := Some(a.error);
        }
      }
      if isRouteOperationsEnabled {
        var b := cloud.DiscoverRouteOperations(local);
        if b.Ok? {
          results := results + [Some(b.value)];
        } else if firstError.None? {
          firstError := Some(b.error);
        }
      }
      r := if firstError.Some? then Err(firstError.value) else Ok(results);
    }

    /** `_getFailoverDiscovery`: classify the device's addresses, then ask the
        provider for the enabled plans. */
    method GetFailoverDiscovery(trafficGroups: seq<TrafficGroup>) returns (r: Result<seq<Option<Plan>>, string>)
      modifies this`localAddresses, this`failoverAddresses, cloud`trace, cloud`calls
      ensures AddressSets(localAddresses, failoverAddresses) ==
        ClassifyAddresses(selfAddresses, virtualAddresses, snatAddresses, natAddresses, trafficGroups)
      ensures cloud.trace == old(cloud.trace) + DiscoveryEvents(localAddresses, failoverAddresses, old(cloud.calls),
                                                                cloud.faults, isAddressOperationsEnabled, isRouteOperationsEnabled)
      ensures r.Err? <==> exists k :: old(cloud.calls) <= k < cloud.calls && k in cloud.faults
      ensures r.Ok? ==> |r.value| == (if isAddressOperationsEnabled then 1 else 0) + (if isRouteOperationsEnabled then 1 else 0)
      ensures r.Ok? && isAddressOperationsEnabled ==> r.value[0] == Some(cloud.addressPlan)
      ensures r.Ok? && isRouteOperationsEnabled ==> r.value[|r.value| - 1] == Some(cloud.routePlan)
    {
      var addresses := ClassifyDeviceAddresses(selfAddresses, virtualAddresses, snatAddresses, natAddresses, trafficGroups);
      localAddresses := addresses.localAddresses;
      failoverAddresses := addresses.failoverAddresses;
      ghost var split := AddressSets(localAddresses, failoverAddresses);
      assert split == ClassifyAddresses(selfAddresses, virtualAddresses, snatAddresses, natAddresses, trafficGroups);
      r := DiscoverPlans(localAddresses, failoverAddresses);
      assert AddressSets(localAddresses, failoverAddresses) == split;
    }

    /** The update step of `execute`: issue the enabled updates with the
        checkpointed plans; the first rejection (in order) is the error. */
    method ApplyUpdates() returns (err: Option<string>)
      requires addressDiscovery.Some? && routeDiscovery.Some?
      requires isAddressOperationsEnabled ==> HoldsAddressPlan(cloud.storage, addressDiscovery.value)
      requires isRouteOperationsEnabled ==> HoldsRoutePlan(cloud.storage, routeDiscovery.value)
      modifies cloud`trace, cloud`calls, cloud`appliedAddresses, cloud`appliedRoutes
      ensures cloud.appliedAddresses == old(cloud.appliedAddresses) + (if isAddressOperationsEnabled then [addressDiscovery.value] else [])
      ensures cloud.appliedRoutes == old(cloud.appliedRoutes) + (if isRouteOperationsEnabled then [routeDiscovery.value] else [])
      ensures cloud.trace == old(cloud.trace) + ApplyEvents(addressDiscovery.value, routeDiscovery.value, old(cloud.calls),
                                                            cloud.faults, isAddressOperationsEnabled, isRouteOperationsEnabled)
      ensures err.None? <==> forall k :: old(cloud.calls) <= k < cloud.calls ==> k !in cloud.faults
      ensures err.Some? ==> err.value == UPDATE_ERROR
    {
      err := None;
      if isAddressOperationsEnabled {
        var ok := cloud.UpdateAddresses(addressDiscovery.value);
        if !ok {
          err := Some(UPDATE_ERROR);
        }
      }
      if isRouteOperationsEnabled {
        var ok := cloud.UpdateRoutes(routeDiscovery.value);
        if !ok {
          err := Some(UPDATE_ERROR);
        }
      }
    }

    /** The first part of the `then` chain of `execute`: read the device
        facts, wait for a previous task, write the first RUNNING checkpoint
        (unless recovering), then either recover the stored plans or discover
        new ones. Nothing is applied here. */
    method PrepareUpdates(facts: Option<DeviceSnapshot>, clock: nat -> int, now: int)
      returns (r: Result<seq<Option<Plan>>, string>, ghost events: seq<Event>)
      requires !recoverPreviousTask && !hasActiveTrafficGroups
      modifies this`hostname, this`trafficGroupStats, this`selfAddresses, this`virtualAddresses,
               this`snatAddresses, this`natAddresses, this`recoverPreviousTask, this`recoveryOperations,
               this`hasActiveTrafficGroups, this`localAddresses, this`failoverAddresses,
               cloud`trace, cloud`calls, cloud`storage
      ensures !(recoverPreviousTask && hasActiveTrafficGroups)
      ensures r.Ok? && hasActiveTrafficGroups ==>
        |r.value| == (if isAddressOperationsEnabled then 1 else 0) + (if isRouteOperationsEnabled then 1 else 0)
      ensures cloud.trace == old(cloud.trace) + events
      ensures InOrder(events) && (!hasActiveTrafficGroups ==> CallCount(events) == 0)
      ensures Uploads(events) <= [FirstCheckpoint(now)]
      ensures r.Ok? ==> Uploads(events) == [FirstCheckpoint(now)] && FailedWrites(events) == 0
    {
      if facts.None? {
        return Err(DEVICE_FACTS_ERROR), [];
      }
      var f := facts.value;
      hostname := Some(f.hostname);
      trafficGroupStats := f.trafficGroupStats;
      selfAddresses := f.selfAddresses;
      virtualAddresses := f.virtualAddresses;
      snatAddresses := f.snatAddresses;
      natAddresses := f.natAddresses;
      r, events := WaitThenBegin(f.hostname, clock, now);
    }

    /** With the device facts loaded: wait for a previous task, then recover
        its plans or start afresh. */
    method WaitThenBegin(host: string, clock: nat -> int, now: int)
      returns (r: Result<seq<Option<Plan>>, string>, ghost events: seq<Event>)
      requires !recoverPreviousTask && !hasActiveTrafficGroups
      modifies this`recoverPreviousTask, this`recoveryOperations,
               this`hasActiveTrafficGroups, this`localAddresses, this`failoverAddresses,
               cloud`trace, cloud`calls, cloud`storage
      ensures !(recoverPreviousTask && hasActiveTrafficGroups)
      ensures r.Ok? && hasActiveTrafficGroups ==>
        |r.value| == (if isAddressOperationsEnabled then 1 else 0) + (if isRouteOperationsEnabled then 1 else 0)
      ensures cloud.trace == old(cloud.trace) + events
      ensures InOrder(events) && (!hasActiveTrafficGroups ==> CallCount(events) == 0)
      ensures Uploads(events) <= [FirstCheckpoint(now)]
      ensures r.Ok? ==> Uploads(events) == [FirstCheckpoint(now)] && FailedWrites(events) == 0
    {
      ghost var c0 := cloud.calls;
      var task := WaitForTask(clock);
      ghost var n := cloud.calls - c0;
      ghost var polls := Polls(c0, n, cloud.faults);
      PollsCounts(c0, n, cloud.faults);
      events := polls;
      if task.Err? {
        return Err(task.error), events;
      }
      ghost var begun;
      r, begun := BeginTask(task.value, host, now);
      AppendAssoc(old(cloud.trace), polls, begun);
      events := polls + begun;
      if begun == [] {
        assert events == polls;
      } else {
        PreparedCounts(c0, n, cloud.faults, polls, begun);
      }
    }

    /** After the wait: recover the previous task's plans, or start afresh.
        Either way the only upload is the RUNNING checkpoint without
        operations, and it comes first. */
    method BeginTask(task: TaskCheck, host: string, now: int)
      returns (r: Result<seq<Option<Plan>>, string>, ghost events: seq<Event>)
      requires !recoverPreviousTask && !hasActiveTrafficGroups
      modifies this`recoverPreviousTask, this`recoveryOperations,
               this`hasActiveTrafficGroups, this`localAddresses, this`failoverAddresses,
               cloud`trace, cloud`calls, cloud`storage
      ensures !(recoverPreviousTask && hasActiveTrafficGroups)
      ensures recoverPreviousTask <==> task.Recover?
      ensures r.Ok? && hasActiveTrafficGroups ==>
        |r.value| == (if isAddressOperationsEnabled then 1 else 0) + (if isRouteOperationsEnabled then 1 else 0)
      ensures cloud.trace == old(cloud.trace) + events
      ensures events == [] ==> r.Err?
      ensures events != [] ==>
        && events[0].Upload? && events[0].record == FirstCheckpoint(now) && (r.Ok? ==> events[0].ok)
        && OnlyCalls(events[1..]) && (!hasActiveTrafficGroups ==> |events| == 1)
    {
      if task.Recover? {
        r, events := BeginRecovery(task.record, now);
        if events != [] {
          HeadTail(Upload(FirstCheckpoint(now), r.Ok?), []);
        }
      } else {
        ghost var c1 := cloud.calls;
        r, events := FreshUpdates(host, now);
        HeadTail(Upload(FirstCheckpoint(now), c1 !in cloud.faults),
                 if hasActiveTrafficGroups
                 then DiscoveryEvents(localAddresses, failoverAddresses, c1 + 1, cloud.faults,
                                      isAddressOperationsEnabled, isRouteOperationsEnabled)
                 else []);
      }
    }

    /** The recovery branch: `_getRecoveryOperations`, whose only possible
        upload is the RUNNING checkpoint without operations. */
    method BeginRecovery(record: StateRecord, now: int)
      returns (r: Result<seq<Option<Plan>>, string>, ghost events: seq<Event>)
      requires !hasActiveTrafficGroups
      modifies this`recoverPreviousTask, this`recoveryOperations, cloud`trace, cloud`calls, cloud`storage
      ensures recoverPreviousTask
      ensures cloud.trace == old(cloud.trace) + events
      ensures events == [] ==> r.Err?
      ensures events != [] ==> events == [Upload(FirstCheckpoint(now), r.Ok?)]
    {
      r := GetRecoveryOperations(record, now);
      if RecoveryPlans(record.failoverOperations).Ok? {
        events := [Upload(FirstCheckpoint(now), r.Ok?)];
      } else {
        events := [];
      }
    }

    /** The non-recovering branch: write the first RUNNING checkpoint, then
        discover plans if this device is active for some traffic group, and
        hand on two empty plans if it is not. */
    method FreshUpdates(host: string, now: int) returns (r: Result<seq<Option<Plan>>, string>, ghost events: seq<Event>)
      requires !recoverPreviousTask && !hasActiveTrafficGroups
      modifies this`hasActiveTrafficGroups, this`localAddresses, this`failoverAddresses,
               cloud`trace, cloud`calls, cloud`storage
      ensures r.Ok? && hasActiveTrafficGroups ==>
        |r.value| == (if isAddressOperationsEnabled then 1 else 0) + (if isRouteOperationsEnabled then 1 else 0)
      ensures r.Ok? && !hasActiveTrafficGroups ==> r.value == [Some(EmptyObject), Some(EmptyObject)]
      ensures hasActiveTrafficGroups <==>
        old(cloud.calls) !in cloud.faults && |LocalGroups(trafficGroupStats, host, ACTIVE)| > 0
      ensures r.Ok? ==> old(cloud.calls) !in cloud.faults
      ensures cloud.trace == old(cloud.trace) + events
      ensures events == [Upload(FirstCheckpoint(now), old(cloud.calls) !in cloud.faults)] +
        (if hasActiveTrafficGroups
         then DiscoveryEvents(localAddresses, failoverAddresses, old(cloud.calls) + 1, cloud.faults,
                              isAddressOperationsEnabled, isRouteOperationsEnabled)
         else [])
    {
      var w := CreateAndUpdateStateObject(StateOptions(Some(RUNNING), RUNNING_MESSAGE, None), now);
      if w.Err? {
        assert [Upload(FirstCheckpoint(now), false)] + [] == [Upload(FirstCheckpoint(now), false)];
        return Err(w.error), [Upload(FirstCheckpoint(now), false)];
      }
      var active := GetTrafficGroups(trafficGroupStats, host, ACTIVE);
      if |active| == 0 {
        assert [Upload(FirstCheckpoint(now), true)] + [] == [Upload(FirstCheckpoint(now), true)];
        return Ok([Some(EmptyObject), Some(EmptyObject)]), [Upload(FirstCheckpoint(now), true)];
      }
      ghost var d;
      r, d := DiscoverActive(active);
      events := [Upload(FirstCheckpoint(now), true)] + d;
    }

    /** This device is active for `active`: note it and discover the plans. */
    method DiscoverActive(active: seq<TrafficGroup>) returns (r: Result<seq<Option<Plan>>, string>, ghost events: seq<Event>)
      modifies this`hasActiveTrafficGroups, this`localAddresses, this`failoverAddresses, cloud`trace, cloud`calls
      ensures hasActiveTrafficGroups
      ensures r.Ok? ==>
        |r.value| == (if isAddressOperationsEnabled then 1 else 0) + (if isRouteOperationsEnabled then 1 else 0)
      ensures cloud.trace == old(cloud.trace) + events
      ensures events == DiscoveryEvents(localAddresses, failoverAddresses, old(cloud.calls), cloud.faults,
                                        isAddressOperationsEnabled, isRouteOperationsEnabled)
    {
      hasActiveTrafficGroups := true;
      r := GetFailoverDiscovery(active);
      events := DiscoveryEvents(localAddresses, failoverAddresses, old(cloud.calls), cloud.faults,
                                isAddressOperationsEnabled, isRouteOperationsEnabled);
    }

    /** The `then` chain of `execute`, up to and including the SUCCEEDED
        checkpoint; resolves with `None`, or rejects with the error. */
    method RunChain(facts: Option<DeviceSnapshot>, clock: nat -> int, now: int) returns (err: Option<string>, ghost events: seq<Event>)
      requires !recoverPreviousTask && !hasActiveTrafficGroups
      modifies this`hostname, this`trafficGroupStats, this`selfAddresses, this`virtualAddresses,
               this`snatAddresses, this`natAddresses, this`recoverPreviousTask, this`recoveryOperations,
               this`hasActiveTrafficGroups, this`localAddresses, this`failoverAddresses,
               this`addressDiscovery, this`routeDiscovery, cloud
      ensures !(recoverPreviousTask && hasActiveTrafficGroups)
      ensures !hasActiveTrafficGroups ==>
        cloud.appliedAddresses == old(cloud.appliedAddresses) && cloud.appliedRoutes == old(cloud.appliedRoutes)
      ensures AppliedAtMostOnce(old(cloud.appliedAddresses), cloud.appliedAddresses, addressDiscovery)
      ensures AppliedAtMostOnce(old(cloud.appliedRoutes), cloud.appliedRoutes, routeDiscovery)
      ensures !isAddressOperationsEnabled ==>
        && cloud.appliedAddresses == old(cloud.appliedAddresses)
        && (cloud.appliedRoutes == old(cloud.appliedRoutes) || routeDiscovery == Some(EmptyObject))
      ensures cloud.trace == old(cloud.trace) + events
      ensures Ordered(events, hasActiveTrafficGroups)
      ensures Uploads(events) <= RunCheckpoints(now)
      ensures err.None? ==>
        && addressDiscovery.Some? && routeDiscovery.Some?
        && cloud.storage == Some(PlanCheckpoint(SUCCEEDED, COMPLETE_MESSAGE, now))
        && EndsSucceeded(events, RunCheckpoints(now), PlanCheckpoint(SUCCEEDED, COMPLETE_MESSAGE, now))
    {
      var updates, tp := PrepareUpdates(facts, clock, now);
      if updates.Err? {
        PrefixExtend(Uploads(tp), [FirstCheckpoint(now)],
                     [PlanCheckpoint(RUNNING, RUNNING_MESSAGE, now), PlanCheckpoint(SUCCEEDED, COMPLETE_MESSAGE, now)]);
        return Some(updates.error), tp;
      }
      ghost var tc;
      err, tc := CommitUpdates(updates.value, now);
      ChainOrder(tp, tc, FirstCheckpoint(now), PlanCheckpoint(RUNNING, RUNNING_MESSAGE, now),
                 PlanCheckpoint(SUCCEEDED, COMPLETE_MESSAGE, now), hasActiveTrafficGroups);
      AppendAssoc(old(cloud.trace), tp, tc);
      events := tp + tc;
    }

    /** The rest of the chain: take `updates[0] || {}` and `updates[1] || {}`
        as the plans, checkpoint them as RUNNING, apply them when this device
        is active for some traffic group, and checkpoint SUCCEEDED. */
    method CommitUpdates(updates: seq<Option<Plan>>, now: int) returns (err: Option<string>, ghost events: seq<Event>)
      requires !(recoverPreviousTask && hasActiveTrafficGroups)
      requires hasActiveTrafficGroups ==>
        |updates| == (if isAddressOperationsEnabled then 1 else 0) + (if isRouteOperationsEnabled then 1 else 0)
      modifies this`addressDiscovery, this`routeDiscovery, cloud
      ensures addressDiscovery == Some(PlanOrEmpty(updates, 0)) && routeDiscovery == Some(PlanOrEmpty(updates, 1))
      ensures !hasActiveTrafficGroups ==>
        cloud.appliedAddresses == old(cloud.appliedAddresses) && cloud.appliedRoutes == old(cloud.appliedRoutes)
      ensures AppliedAtMostOnce(old(cloud.appliedAddresses), cloud.appliedAddresses, addressDiscovery)
      ensures AppliedAtMostOnce(old(cloud.appliedRoutes), cloud.appliedRoutes, routeDiscovery)
      ensures !isAddressOperationsEnabled ==>
        && cloud.appliedAddresses == old(cloud.appliedAddresses)
        && (cloud.appliedRoutes == old(cloud.appliedRoutes) || routeDiscovery == Some(EmptyObject))
      ensures cloud.trace == old(cloud.trace) + events
      ensures PollCount(events) == 0 && CallsBeforeUpload(events) == 0
      ensures !hasActiveTrafficGroups ==> CallCount(events) == 0
      ensures Uploads(events) <= [PlanCheckpoint(RUNNING, RUNNING_MESSAGE, now), PlanCheckpoint(SUCCEEDED, COMPLETE_MESSAGE, now)]
      ensures err.None? ==>
        && cloud.storage == Some(PlanCheckpoint(SUCCEEDED, COMPLETE_MESSAGE, now))
        && EndsSucceeded(events, [PlanCheckpoint(RUNNING, RUNNING_MESSAGE, now), PlanCheckpoint(SUCCEEDED, COMPLETE_MESSAGE, now)],
                         PlanCheckpoint(SUCCEEDED, COMPLETE_MESSAGE, now))
    {
      addressDiscovery := Some(PlanOrEmpty(updates, 0));
      routeDiscovery := Some(PlanOrEmpty(updates, 1));
      ghost var running := PlanCheckpoint(RUNNING, RUNNING_MESSAGE, now);
      ghost var succeeded := PlanCheckpoint(SUCCEEDED, COMPLETE_MESSAGE, now);

      var ops := Operations(addressDiscovery, routeDiscovery);
      var w2 := CreateAndUpdateStateObject(StateOptions(Some(RUNNING), RUNNING_MESSAGE, Some(ops)), now);
      if w2.Err? {
        CheckpointThenCalls(running, false, []);
        assert [running, succeeded][..1] == [running];
        assert [Upload(running, false)] + [] == [Upload(running, false)];
        return Some(w2.error), [Upload(running, false)] + [];
      }
      ghost var tf;
      err, tf := FinishCommit(now);
      CheckpointThenCalls(running, true, []);
      assert [Upload(running, true)] + [] == [Upload(running, true)];
      CountsAppend([Upload(running, true)], tf);
      PrefixCons(running, Uploads(tf), [succeeded]);
      AppendAssoc(old(cloud.trace), [Upload(running, true)], tf);
      events := [Upload(running, true)] + tf;
    }

    /** The end of the chain, once the RUNNING checkpoint with the plans is
        stored: apply them when this device is active for some traffic group,
        then checkpoint SUCCEEDED. */
    method FinishCommit(now: int) returns (err: Option<string>, ghost events: seq<Event>)
      requires addressDiscovery.Some? && routeDiscovery.Some?
      requires cloud.storage == Some(PlanCheckpoint(RUNNING, RUNNING_MESSAGE, now))
      modifies cloud
      ensures cloud.appliedAddresses == old(cloud.appliedAddresses) +
        (if hasActiveTrafficGroups && isAddressOperationsEnabled then [addressDiscovery.value] else [])
      ensures cloud.appliedRoutes == old(cloud.appliedRoutes) +
        (if hasActiveTrafficGroups && isRouteOperationsEnabled then [routeDiscovery.value] else [])
      ensures cloud.trace == old(cloud.trace) + events
      ensures PollCount(events) == 0 && (!hasActiveTrafficGroups ==> CallCount(events) == 0)
      ensures Uploads(events) <= [PlanCheckpoint(SUCCEEDED, COMPLETE_MESSAGE, now)]
      ensures err.None? ==>
        && cloud.storage == Some(PlanCheckpoint(SUCCEEDED, COMPLETE_MESSAGE, now))
        && EndsSucceeded(events, [PlanCheckpoint(SUCCEEDED, COMPLETE_MESSAGE, now)], PlanCheckpoint(SUCCEEDED, COMPLETE_MESSAGE, now))
    {
      ghost var succeeded := PlanCheckpoint(SUCCEEDED, COMPLETE_MESSAGE, now);
      var e;
      ghost var a;
      e, a := ApplyIfActive(now);
      CallsCounts(a);
      if e.Some? {
        return e, a;
      }
      var ops := Operations(addressDiscovery, routeDiscovery);
      var w3 := CreateAndUpdateStateObject(StateOptions(Some(SUCCEEDED), COMPLETE_MESSAGE, Some(ops)), now);
      CountsSnoc(a, Upload(succeeded, w3.Ok?));
      events := a + [Upload(succeeded, w3.Ok?)];
      if w3.Err? {
        return Some(w3.error), events;
      }
      err := None;
    }

    /** The update step of `execute`, which runs only when this device is
        active for some traffic group. */
    method ApplyIfActive(now: int) returns (err: Option<string>, ghost events: seq<Event>)
      requires addressDiscovery.Some? && routeDiscovery.Some?
      requires cloud.storage == Some(PlanCheckpoint(RUNNING, RUNNING_MESSAGE, now))
      modifies cloud`trace, cloud`calls, cloud`appliedAddresses, cloud`appliedRoutes
      ensures cloud.appliedAddresses == old(cloud.appliedAddresses) +
        (if hasActiveTrafficGroups && isAddressOperationsEnabled then [addressDiscovery.value] else [])
      ensures cloud.appliedRoutes == old(cloud.appliedRoutes) +
        (if hasActiveTrafficGroups && isRouteOperationsEnabled then [routeDiscovery.value] else [])
      ensures cloud.trace == old(cloud.trace) + events
      ensures OnlyCalls(events) && (!hasActiveTrafficGroups ==> events == [] && err.None?)
    {
      events := [];
      err := None;
      if hasActiveTrafficGroups {
        events := ApplyEvents(addressDiscovery.value, routeDiscovery.value, cloud.calls, cloud.faults,
                              isAddressOperationsEnabled, isRouteOperationsEnabled);
        err := ApplyUpdates();
      }
    }

    /** `execute`: the disabled gate, then the chain with its `.catch`. */
    method Execute(facts: Option<DeviceSnapshot>, clock: nat -> int, now: int) returns (r: Outcome, ghost events: seq<Event>)
      modifies this, cloud
      ensures isAddressOperationsEnabled == AddressOperationsEnabled(config)
      ensures isRouteOperationsEnabled == RouteOperationsEnabled(config)
      ensures !isAddressOperationsEnabled && !isRouteOperationsEnabled ==>
        r == Done && events == [] && cloud.storage == old(cloud.storage)
      ensures recoverPreviousTask ==>
        cloud.appliedAddresses == old(cloud.appliedAddresses) && cloud.appliedRoutes == old(cloud.appliedRoutes)
      ensures AppliedAtMostOnce(old(cloud.appliedAddresses), cloud.appliedAddresses, addressDiscovery)
      ensures AppliedAtMostOnce(old(cloud.appliedRoutes), cloud.appliedRoutes, routeDiscovery)
      ensures !isAddressOperationsEnabled ==>
        && cloud.appliedAddresses == old(cloud.appliedAddresses)
        && (cloud.appliedRoutes == old(cloud.appliedRoutes) || cloud.appliedRoutes == old(cloud.appliedRoutes) + [EmptyObject])
      ensures cloud.trace == old(cloud.trace) + events
      ensures Ordered(events, hasActiveTrafficGroups)
      ensures r.Failed? ==> EndsFailed(events, RunCheckpoints(now), PlanCheckpoint(FAILED, FAILURE_PREFIX + r.error, now))
      ensures r.Done? && (isAddressOperationsEnabled || isRouteOperationsEnabled) ==>
        && addressDiscovery.Some? && routeDiscovery.Some?
        && cloud.storage == Some(PlanCheckpoint(SUCCEEDED, COMPLETE_MESSAGE, now))
        && EndsSucceeded(events, RunCheckpoints(now), PlanCheckpoint(SUCCEEDED, COMPLETE_MESSAGE, now))
    {
      isAddressOperationsEnabled := AddressOperationsEnabled(config);
      isRouteOperationsEnabled := RouteOperationsEnabled(config);
      if !isAddressOperationsEnabled && !isRouteOperationsEnabled {
        return Done, [];
      }
      recoverPreviousTask := false;
      hasActiveTrafficGroups := false;
      r, events := RunWithCatch(facts, clock, now);
    }

    /** The chain of `execute` and its `.catch`: on any rejection, a FAILED
        checkpoint carrying whatever plans are known is attempted, and the
        original error is rejected whether or not that write succeeds. */
    method RunWithCatch(facts: Option<DeviceSnapshot>, clock: nat -> int, now: int) returns (r: Outcome, ghost events: seq<Event>)
      requires !recoverPreviousTask && !hasActiveTrafficGroups
      modifies this`hostname, this`trafficGroupStats, this`selfAddresses, this`virtualAddresses,
               this`snatAddresses, this`natAddresses, this`recoverPreviousTask, this`recoveryOperations,
               this`hasActiveTrafficGroups, this`localAddresses, this`failoverAddresses,
               this`addressDiscovery, this`routeDiscovery, cloud
      ensures recoverPreviousTask ==>
        cloud.appliedAddresses == old(cloud.appliedAddresses) && cloud.appliedRoutes == old(cloud.appliedRoutes)
      ensures AppliedAtMostOnce(old(cloud.appliedAddresses), cloud.appliedAddresses, addressDiscovery)
      ensures AppliedAtMostOnce(old(cloud.appliedRoutes), cloud.appliedRoutes, routeDiscovery)
      ensures !isAddressOperationsEnabled ==>
        && cloud.appliedAddresses == old(cloud.appliedAddresses)
        && (cloud.appliedRoutes == old(cloud.appliedRoutes) || cloud.appliedRoutes == old(cloud.appliedRoutes) + [EmptyObject])
      ensures cloud.trace == old(cloud.trace) + events
      ensures Ordered(events, hasActiveTrafficGroups)
      ensures r.Failed? ==> EndsFailed(events, RunCheckpoints(now), PlanCheckpoint(FAILED, FAILURE_PREFIX + r.error, now))
      ensures r.Done? ==>
        && addressDiscovery.Some? && routeDiscovery.Some?
        && cloud.storage == Some(PlanCheckpoint(SUCCEEDED, COMPLETE_MESSAGE, now))
        && EndsSucceeded(events, RunCheckpoints(now), PlanCheckpoint(SUCCEEDED, COMPLETE_MESSAGE, now))
    {
      var err;
      err, events := RunChain(facts, clock, now);
      if err.None? {
        return Done, events;
      }
      ghost var failed := PlanCheckpoint(FAILED, FAILURE_PREFIX + err.value, now);
      var w := CreateAndUpdateStateObject(
        StateOptions(Some(FAILED), FAILURE_PREFIX + err.value, Some(Operations(addressDiscovery, routeDiscovery))), now);
      FailureOrder(events, RunCheckpoints(now), failed, w.Ok?);
      AppendAssoc(old(cloud.trace), events, [Upload(failed, w.Ok?)]);
      events := events + [Upload(failed, w.Ok?)];
      r := Failed(err.value);
    }

    /** `resetFailoverState`: only `resetStateFile === true` writes, and it
        writes SUCCEEDED with empty operations. A failed write resolves with
        nothing (`None`). */
    method ResetFailoverState(resetStateFile: Option<bool>, now: int) returns (message: Option<string>)
      modifies cloud`trace, cloud`calls, cloud`storage
      ensures resetStateFile != Some(true) ==>
        message == Some(NO_ACTION_MESSAGE) && cloud.trace == old(cloud.trace) && cloud.storage == old(cloud.storage)
      ensures resetStateFile == Some(true) ==>
        var rec := CheckpointRecord(StateOptions(Some(SUCCEEDED), STATE_FILE_RESET_MESSAGE, Some(NO_OPERATIONS)), HostText(), now);
        && cloud.trace == old(cloud.trace) + [Upload(rec, message.Some?)]
        && (message.Some? ==> message.value == STATE_FILE_RESET_MESSAGE && cloud.storage == Some(rec))
        && (message.None? <==> old(cloud.calls) in cloud.faults)
    {
      if resetStateFile == Some(true) {
        var w := CreateAndUpdateStateObject(StateOptions(Some(SUCCEEDED), STATE_FILE_RESET_MESSAGE, Some(NO_OPERATIONS)), now);
        message := if w.Ok? then Some(STATE_FILE_RESET_MESSAGE) else None;
        return;
      }
      message := Some(NO_ACTION_MESSAGE);
    }
  }
}
