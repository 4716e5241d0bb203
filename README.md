# F5 Cloud Failover Extension: failover task engine and AWS provider, in Dafny

This project models two parts of the failover extension.

**The failover task engine (`FailoverClient`, `src/nodejs/failover.js`).**
- It reads the declaration.
- It waits for a previous task by polling the state file in cloud storage.
- It checkpoints the run in that file (RUNNING, then SUCCEEDED or FAILED).
- It works out which addresses must follow this device.
- It asks the cloud provider to discover, and then apply, the address and route plans.
- After a failed run it can recover the stored plans.

**The AWS provider's planner and apply side (`src/nodejs/providers/aws/cloud.js`).**
- It plans elastic-IP moves, secondary private-address moves between paired NICs, and route-table updates.
- It carries a plan out as an ordered list of EC2 requests.

Modules, in dependency order:

- `Base` (`base.dfy`): `Option`, `Result`, JavaScript truthiness of an optional string
- `Strings` (`strings.dfy`): `indexOf(x) !== -1` as a substring test, `split(c)[0]`, `split`/`join`
- `Plans` (`plans.dfy`): tags, address and route plans shared by the engine and the provider
- `Config` (`config.dfy`): `_getOperationEnabledState`, `_nextHopAddressResolver`, `_parseConfig`
- `TaskState` (`task_state.dfy`): the state record, `_createStateObject`, `_checkTaskState`
- `Classification` (`classification.dfy`): traffic groups, self, floating and failover addresses (loops proved against functions)
- `Orchestrator` (`orchestrator.dfy`): `FailoverClient` as a class over a recorded provider stub
- `AwsDiscovery` (`aws_discovery.dfy`): the planner: elastic IPs, NIC parsing and pairing, route decisions
- `AwsApply` (`aws_apply.dfy`): a recorded fake EC2, the ordered apply, and the `updateAddresses` / `updateRoutes` dispatch
- `AwsStorage` (`aws_storage.dfy`): `_addFilterToParams` and S3 bucket selection by tags

The model follows how the cloud sees the run:
- The cloud provider is a class whose calls are numbered and logged. A call fails when its number is in a fault set.
- The EC2 fake logs every mutating request and rejects a fixed set of them.
- Time is a parameter.
- The siblings of a `Promise.all` are all issued, in list order. The first failure in that order decides the error.

### Behaviour of the code as written

Where the design text and the code differ, the model follows the code. Each point below is stated by a lemma or contract.

1. **The staleness check reads a key the writer never sets.**
   - `_createStateObject` stamps `timestamp`, but `_checkTaskState` reads `timeStamp`. `Date.parse(undefined)` is NaN.
   - So a RUNNING checkpoint written by this code is retried for ever and never treated as abandoned (`TaskState.FreshRunningCheckpointNeverRecovers`, `TaskState.WrittenRecordClassification`).
   - A record that does carry `timeStamp` recovers after ten minutes (`TaskState.LegacyStampedRunningRecordRecovers`).
2. **`NEVER_RUN` is not a defined state.**
   - The "never run" branch of `_checkTaskState` compares against `undefined`.
   - `getTaskStateFile` therefore writes a SUCCEEDED record, because `taskState` defaults (`Orchestrator.FailoverClient.GetTaskStateFile`, `TaskState.NeverRunTextIsRetried`).
3. **Discovery results are positional.**
   - `_getFailoverDiscovery` returns only the enabled plans, and `execute` reads them as `updates[0]` (addresses) and `updates[1]` (routes).
   - With only routes enabled, the route plan is stored as the address plan, and `updateRoutes` receives `{}`. That replaces no route (`Orchestrator.FailoverClient.Execute`, `AwsApply.NonRoutePlanReplacesNothing`).
4. **Recovered plans are checkpointed but never applied.**
   - The update step runs only when `hasActiveTrafficGroups` is set, and the recovery path never sets it (`Orchestrator.FailoverClient.Execute`: `recoverPreviousTask ==>` nothing applied).
   - A crash right after the first RUNNING checkpoint leaves a RUNNING record without operations. By item 1 such a record is never recovered: the next run polls it 400 times and fails with 'retry'. Only a FAILED record can reach the recovery guard, and `Orchestrator.FirstCheckpointIsUnrecoverable` shows the guard would refuse this record's operations even then.
5. **The elastic-IP tag keys are undefined.**
   - `_generatePublicAddressOperations` reads `constants.AWS_VIPS_TAGS`, but only `AWS_VIPS_TAG` is defined.
   - So address discovery throws a `TypeError` as soon as any elastic IP has a tag (`AwsDiscovery.GeneratePublicAddressOperations`; `AwsDiscovery.AWS_VIPS_TAGS` is `None`).
   - The planner is stated for any key list, and the provider takes the key list as a parameter (`AwsApply.AwsCloud.vipsTagKeys`).
6. **Route ranges are matched as text.**
   - `routeAddresses` is a string, so `indexOf` is a substring test.
   - A route without a destination is searched for as the text `"undefined"` (`AwsDiscovery.JsText`).

## Model

| member | source | states |
|---|---|---|
| Strings.JoinSplit | src/nodejs/failover.js:567 | joining the pieces of `split` with the separator gives back the string |
| Strings.SplitJoin | src/nodejs/failover.js:567 | splitting a join of separator-free pieces gives back the pieces |
| Strings.BeforeFirst | src/nodejs/failover.js:567 | `split(c)[0]` is the longest prefix without `c` (the next character, if any, is `c`) |
| Plans.TagValue | src/nodejs/providers/aws/cloud.js:913-917 | the normalised tag dictionary has a key iff some tag has that key, and its value is one of that key's tag values |
| Config.OperationEnabledState | src/nodejs/failover.js:394-402 | disabled when the section is absent, enabled when `enabled` is absent, else the flag |
| Config.NextHopAddressResolver | src/nodejs/failover.js:286-300 | the tag is `f5_self_ips`; the range's own discovery type wins and there is always one; a range with its own next-hop settings always yields an item list; without them the defaults' items are used |
| Config.ParseConfig | src/nodejs/failover.js:263-281 | one provider range per declared range, in order, with its resolved next hop; the tag sets are passed through |
| TaskState.CreateStateObject | src/nodejs/failover.js:414-422 | `taskState` defaults to SUCCEEDED; the record is stamped with `now` under `timestamp` and carries no `timeStamp`; the instance is never empty; the operations are passed through |
| TaskState.CheckpointRecord | src/nodejs/failover.js:434-446 | a written checkpoint always has an operations object (default `{}`) and no `timeStamp` |
| TaskState.CheckTaskState | src/nodejs/failover.js:476-507 | proceed iff there is no record, no state or SUCCEEDED; recover iff FAILED, or another state whose `timeStamp` is more than 600000 ms old; otherwise retry |
| TaskState.WrittenRecordClassification | src/nodejs/failover.js:414-446 | a checkpoint this code wrote proceeds if SUCCEEDED, recovers if FAILED, and is retried in every other state |
| TaskState.FreshRunningCheckpointNeverRecovers | src/nodejs/failover.js:497-504 | a RUNNING checkpoint this code wrote is retried at every later time |
| TaskState.LegacyStampedRunningRecordRecovers | src/nodejs/failover.js:497-504 | a RUNNING record with `timeStamp` recovers iff more than ten minutes have passed, else it is retried |
| TaskState.NeverRunTextIsRetried | src/nodejs/failover.js:486-488 | a record whose state is the text "NEVER_RUN" is not treated as never run |
| Classification.GetTrafficGroups | src/nodejs/failover.js:531-546 | the loop returns the groups of the entries that are local for the status, in order |
| Classification.LocalGroupsMembership | src/nodejs/failover.js:531-546 | a group is returned iff some entry's device name contains the hostname and its state is the one asked for |
| Classification.LocalForOneStatusOnly | src/nodejs/failover.js:536-537 | no entry is local for both active and standby |
| Classification.BareAddress | src/nodejs/failover.js:567 | the address cut at the first `/` and then at the first `%` is a prefix free of both |
| Classification.BareAddressPlain | src/nodejs/failover.js:567 | an address without mask or route domain is unchanged |
| Classification.MatchTrafficGroup | src/nodejs/failover.js:559-564 | the inner loop finds a match iff some active group's name contains the self IP's traffic group |
| Classification.GetSelfAddresses | src/nodejs/failover.js:556-573 | one classified record per self address, in order (the bare address and whether its group matches) |
| Classification.ClassifySelves | src/nodejs/failover.js:556-573 | as many records as self addresses, the i-th classifying the i-th |
| Classification.OwnGroupMatches | src/nodejs/failover.js:560-564 | a self IP of an active group always matches |
| Classification.NoGroupsNoMatch | src/nodejs/failover.js:560-564 | with no active group nothing matches |
| Classification.AddAddress | src/nodejs/failover.js:589-600 | `_addAddress` appends the item's address (route domain cut) once per matching group |
| Classification.AddAll | src/nodejs/failover.js:602-610 | one pass appends what each item contributes, in item order |
| Classification.GetFloatingAddresses | src/nodejs/failover.js:585-612 | virtual, then SNAT, then NAT translation addresses, in order |
| Classification.NatSources | src/nodejs/failover.js:608-610 | NAT entries enter through their translation address |
| Classification.FloatingFromAppend | src/nodejs/failover.js:602-609 | the floating list of a concatenation is the concatenation of the lists |
| Classification.PushesForShape | src/nodejs/failover.js:590-600 | an item contributes copies of its bare address, and some iff its group matches |
| Classification.FloatingFromMembership | src/nodejs/failover.js:585-612 | every floating address comes from an item whose group matches, and every such item contributes |
| Classification.GetFailoverAddresses | src/nodejs/failover.js:622-643 | non-matching self addresses are local; matching ones, then every floating address, fail over |
| Classification.SelfPartition | src/nodejs/failover.js:627-633 | the two lists split the self addresses: the sizes add up and the multisets add up |
| Classification.LocalIsUnmatched | src/nodejs/failover.js:627-633 | a local address is the address of some self IP whose traffic group does not match |
| Classification.UnmatchedIsLocal | src/nodejs/failover.js:627-633 | the address of a self IP whose traffic group does not match is local |
| Classification.FailoverIsMatched | src/nodejs/failover.js:627-633 | a failover address is the address of some self IP whose traffic group matches |
| Classification.MatchedFailsOver | src/nodejs/failover.js:627-633 | the address of a self IP whose traffic group matches fails over |
| Classification.SelfPlacement | src/nodejs/failover.js:627-633 | an address is local iff some non-matching self IP has it, and fails over iff some matching one does |
| Classification.FailoverAddressCount | src/nodejs/failover.js:622-643 | the sizes of the local and failover lists add up to the self addresses plus the floating addresses |
| Classification.ClassifyDeviceAddresses | src/nodejs/failover.js:328-333 | the composition of the three steps |
| Orchestrator.RecoveryPlans | src/nodejs/failover.js:369-384 | refused iff there is no operations object or it has neither plan; otherwise both plans, addresses first, unchanged |
| Orchestrator.EarlyFailureIsUnrecoverable | src/nodejs/failover.js:181-190 | a FAILED checkpoint written before any plan was known cannot be recovered |
| Orchestrator.FirstCheckpointIsUnrecoverable | src/nodejs/failover.js:116-119 | the first RUNNING checkpoint has no operations, so a crash right after it is unrecoverable |
| Orchestrator.CheckpointedPlansRecover | src/nodejs/failover.js:365-385 | a checkpoint carrying both plans hands them back unchanged |
| Orchestrator.CloudStub.DownloadDataFromStorage | src/nodejs/failover.js:477 | one logged call; the stored record, or the call's rejection |
| Orchestrator.CloudStub.UploadDataToStorage | src/nodejs/failover.js:440 | one logged call; on success the record is what storage holds |
| Orchestrator.CloudStub.DiscoverAddressOperations | src/nodejs/failover.js:341-345 | one logged call with the local and failover addresses; the provider's address plan, or the call's rejection |
| Orchestrator.CloudStub.DiscoverRouteOperations | src/nodejs/failover.js:348-351 | one logged call with the local addresses; the provider's route plan, or the call's rejection |
| Orchestrator.CloudStub.UpdateAddresses | src/nodejs/failover.js:160-163 | applying an address plan requires that a RUNNING checkpoint already holds it (write-ahead) |
| Orchestrator.CloudStub.UpdateRoutes | src/nodejs/failover.js:164-167 | applying a route plan requires that a RUNNING checkpoint already holds it (write-ahead) |
| Orchestrator.FailoverClient.CreateAndUpdateStateObject | src/nodejs/failover.js:434-446 | one upload of the checkpoint record; resolves with it iff the upload succeeds |
| Orchestrator.FailoverClient.GetTaskStateFile | src/nodejs/failover.js:453-469 | the stored record when it has a state; otherwise it writes the "never triggered" record, whose state is SUCCEEDED |
| Orchestrator.FailoverClient.WaitForTask | src/nodejs/failover.js:514-520 | one to 400 polls of the state file and nothing else; every poll but the last failed or said retry; a result is the last poll's non-retry classification; a rejection comes after exactly 400 polls and carries the last poll's error (the download's, or 'retry') |
| Orchestrator.FailoverClient.GetRecoveryOperations | src/nodejs/failover.js:365-385 | sets the recovery flags; refuses empty plans with no write; otherwise writes RUNNING and returns the stored plans |
| Orchestrator.FailoverClient.DiscoverPlans | src/nodejs/failover.js:339-355 | asks for the enabled plans, addresses first; on success one result per enabled kind; fails iff one of the calls failed |
| Orchestrator.FailoverClient.GetFailoverDiscovery | src/nodejs/failover.js:325-356 | stores the classified addresses; issues exactly the enabled discovery calls with them, addresses first; fails iff one of them failed; otherwise one plan per enabled kind, addresses first |
| Orchestrator.FailoverClient.ApplyUpdates | src/nodejs/failover.js:158-168 | applies exactly the enabled plans; succeeds iff none of its calls failed |
| Orchestrator.FailoverClient.PrepareUpdates | src/nodejs/failover.js:100-135 | recovery and active traffic groups never hold together; at most 400 polls, all before the first upload; the only upload is the RUNNING checkpoint without operations, and no discovery call precedes it; a result means it was written; when active, one plan per enabled kind |
| Orchestrator.FailoverClient.WaitThenBegin | src/nodejs/failover.js:110-134 | at most 400 polls, all before the first upload; the only upload is the RUNNING checkpoint without operations, with no discovery call before it; a result means it was written |
| Orchestrator.FailoverClient.BeginTask | src/nodejs/failover.js:112-134 | recovers iff the wait said recover; the RUNNING checkpoint without operations is the first event of either branch, followed only by discovery calls, and none unless active |
| Orchestrator.FailoverClient.BeginRecovery | src/nodejs/failover.js:112-115 | the recovery branch skips the first checkpoint; its only upload is the RUNNING checkpoint of `_getRecoveryOperations`, and none when the plans are refused |
| Orchestrator.FailoverClient.DiscoverActive | src/nodejs/failover.js:132-133 | marks the device active; exactly the enabled discovery calls, with one plan per enabled kind on success |
| Orchestrator.FailoverClient.FreshUpdates | src/nodejs/failover.js:116-134 | first the RUNNING checkpoint without operations; active iff it was written and some traffic group is active here; then the discovery calls only when active, else `[{}, {}]`; when active, one plan per enabled kind |
| Orchestrator.FailoverClient.CommitUpdates | src/nodejs/failover.js:136-177 | stores `updates[0] \|\| {}` and `updates[1] \|\| {}` (so with only routes enabled the route plan lands in the address slot); uploads RUNNING with those plans, then SUCCEEDED with them, with the update calls only in between and only when active; no poll; success means both were written |
| Orchestrator.FailoverClient.FinishCommit | src/nodejs/failover.js:149-177 | with the plans checkpointed: exactly the enabled plans are applied when active and none otherwise; then the SUCCEEDED upload, which on success is stored and the last event |
| Orchestrator.FailoverClient.ApplyIfActive | src/nodejs/failover.js:149-168 | only update calls; when active, exactly the enabled plans are applied; when inactive, nothing is called and the step resolves |
| Orchestrator.FailoverClient.RunChain | src/nodejs/failover.js:100-177 | each plan is applied at most once, and only when active; polls only before the first upload; the uploads are a prefix of RUNNING, RUNNING with the plans, SUCCEEDED, and exactly these on success |
| Orchestrator.FailoverClient.RunWithCatch | src/nodejs/failover.js:100-193 | on a rejection, the uploads are a prefix of the three checkpoints followed by the FAILED checkpoint with the known plans, and the original error is returned whether or not that upload was written |
| Orchestrator.FailoverClient.Execute | src/nodejs/failover.js:86-194 | nothing is written when both kinds are disabled; recovery applies nothing; each plan is applied at most once; with addresses disabled only `{}` can reach `updateRoutes`; at most 400 polls, all before the first upload, and no discovery or update call before it; success uploads exactly RUNNING, RUNNING with the plans and SUCCEEDED, in that order (also when inactive or recovering), and stores SUCCEEDED; a failure's uploads are a prefix of those three followed by the FAILED checkpoint whose message is the failure prefix and the error, with the known plans |
| Orchestrator.FailoverClient.ResetFailoverState | src/nodejs/failover.js:201-217 | only `resetStateFile === true` writes (SUCCEEDED, empty operations) and returns the reset message; otherwise "No action performed" with no write |
| AwsDiscovery.FindVipsTag | src/nodejs/providers/aws/cloud.js:776 | the tag found is the first of the elastic IP's tags with a listed key; none iff no tag has a listed key |
| AwsDiscovery.UpsertMeaning | src/nodejs/providers/aws/cloud.js:785-795 | assigning into `updatedState` sets that key and leaves the others; keys stay distinct |
| AwsDiscovery.ApplyMeaning | src/nodejs/providers/aws/cloud.js:778-798 | the map after all assignments has distinct keys, and each key holds its last write |
| AwsDiscovery.LastWriteMeaning | src/nodejs/providers/aws/cloud.js:784-793 | a key has a last write iff some write had that key, and that write is among the writes |
| AwsDiscovery.EipWritesMeaning | src/nodejs/providers/aws/cloud.js:777-797 | an elastic IP writes an entry for exactly those target addresses that are secondary addresses and not its current one |
| AwsDiscovery.WrittenIsMove | src/nodejs/providers/aws/cloud.js:778-798 | every write is the move of a target address of some elastic IP |
| AwsDiscovery.MoveIsWritten | src/nodejs/providers/aws/cloud.js:778-798 | the move of any target address of an elastic IP is among the writes |
| AwsDiscovery.WritesMeaning | src/nodejs/providers/aws/cloud.js:778-798 | an entry is written iff it is the move of a target address of some elastic IP (`MoveOfEip`) |
| AwsDiscovery.PublicOperationsMeaning | src/nodejs/providers/aws/cloud.js:773-801 | a public IP gets an operation iff one of its target addresses is a secondary address other than its current one; the operation targets that address's NIC |
| AwsDiscovery.WriteMoves | src/nodejs/providers/aws/cloud.js:778-797 | the inner loop performs exactly this elastic IP's writes on the map |
| AwsDiscovery.GeneratePublicAddressOperations | src/nodejs/providers/aws/cloud.js:773-801 | rejects (with the `TypeError`) iff the key list is undefined and some elastic IP has tags; otherwise the map of all writes |
| AwsDiscovery.CollectMeaning | src/nodejs/providers/aws/cloud.js:821-834 | the collected NICs have distinct ids, are input NICs holding a listed address, and every such NIC is collected |
| AwsDiscovery.WithoutMeaning | src/nodejs/providers/aws/cloud.js:837-844 | removing ids keeps exactly the NICs with other ids |
| AwsDiscovery.SplicedIsWithout | src/nodejs/providers/aws/cloud.js:837-844 | the reverse splice loops remove from `theirs` exactly the ids in `mine` |
| AwsDiscovery.ParsedNicsMeaning | src/nodejs/providers/aws/cloud.js:814-846 | neither list repeats an id; no id is in both lists; `mine` is the NICs holding a local address; `theirs` is the NICs holding a failover address and not in `mine` |
| AwsDiscovery.PickNic | src/nodejs/providers/aws/cloud.js:823-833 | the inner loop adds the NIC once iff it holds a listed address and is not yet present |
| AwsDiscovery.SpliceOut | src/nodejs/providers/aws/cloud.js:838-843 | the reverse scan removes the last NIC with the id, returning at the first match |
| AwsDiscovery.SpliceShared | src/nodejs/providers/aws/cloud.js:837-844 | the nested reverse loops compute the splice |
| AwsDiscovery.ParseNics | src/nodejs/providers/aws/cloud.js:814-846 | the method computes `ParsedNics` |
| AwsDiscovery.CountPositive | src/nodejs/providers/aws/cloud.js:861-873 | an address is counted at least once iff it is listed |
| AwsDiscovery.TakesMeaning | src/nodejs/providers/aws/cloud.js:861-873 | an address is moved iff it is a non-primary address of their NIC that is a failover address |
| AwsDiscovery.NicOpsMeaning | src/nodejs/providers/aws/cloud.js:857-885 | disassociate from their NIC and associate to mine, with the same address list |
| AwsDiscovery.PushCopies | src/nodejs/providers/aws/cloud.js:862-871 | the inner loop appends one moved copy of their address per occurrence among the failover addresses, and none when it is their primary address |
| AwsDiscovery.CheckForNicOperations | src/nodejs/providers/aws/cloud.js:857-885 | the nested reverse loops compute `NicOpsFor` |
| AwsDiscovery.PairOpsMeaning | src/nodejs/providers/aws/cloud.js:909-926 | an operation pair is produced iff it is the move between a tag-paired (mine, theirs) combination |
| AwsDiscovery.RowMeaning | src/nodejs/providers/aws/cloud.js:911-925 | one of my NICs produces exactly the moves from the NICs of theirs paired with it |
| AwsDiscovery.AddressOperationsMeaning | src/nodejs/providers/aws/cloud.js:896-929 | both lists have equal length; the k-th pair moves the same addresses between paired NICs; every paired combination produces a pair |
| AwsDiscovery.PushRow | src/nodejs/providers/aws/cloud.js:911-925 | the inner loop pushes disassociate and associate together for each paired NIC |
| AwsDiscovery.GenerateAddressOperations | src/nodejs/providers/aws/cloud.js:896-929 | the method computes `AddressOperationsFor` |
| AwsDiscovery.DiscoverAddressOperations | src/nodejs/providers/aws/cloud.js:279-303 | the plan of both planners, or the rejection of the elastic-IP planner; a result is always an address plan |
| AwsDiscovery.ResolveRouteCidrBlock | src/nodejs/providers/aws/cloud.js:336-348 | version "6" with the IPv6 destination iff that destination is truthy, else version "4" with the IPv4 destination |
| AwsDiscovery.RouteCandidatesMeaning | src/nodejs/providers/aws/cloud.js:380-401 | a route is a candidate iff it is a route of one of the tables, matches a range and has a truthy next hop |
| AwsDiscovery.TableCandidatesMeaning | src/nodejs/providers/aws/cloud.js:383-399 | the same, for the routes of one table |
| AwsDiscovery.RouteUpdatesMeaning | src/nodejs/providers/aws/cloud.js:360-378 | succeeds iff every NIC lookup succeeds; an operation is returned exactly for the candidates needing an update, with the looked-up NIC |
| AwsDiscovery.ConvergedRoutesNeedNoUpdate | src/nodejs/providers/aws/cloud.js:368-374 | when every candidate already points at its next hop's NIC, no operation is returned |
| AwsDiscovery.RouteOperationsMeaning | src/nodejs/providers/aws/cloud.js:357-406 | an operation is returned iff a route of a table matches a range, has a next hop, has its destination in the range and points at another NIC |
| AwsApply.Ec2Fake.Send | src/nodejs/providers/aws/cloud.js:553-559 | every request is logged, in order; it resolves iff EC2 does not reject it |
| AwsApply.AcceptedAppend | src/nodejs/providers/aws/cloud.js:319-326 | a concatenation of call batches resolves iff both batches resolve |
| AwsApply.DisassociateCallsMeaning | src/nodejs/providers/aws/cloud.js:575-581 | exactly one disassociation per currently associated entry |
| AwsApply.AssociateCallsMeaning | src/nodejs/providers/aws/cloud.js:588-600 | exactly one association per entry with allocation id, NIC and private address |
| AwsApply.PublicReassociationOrder | src/nodejs/providers/aws/cloud.js:570-611 | every disassociation comes before any association; associations follow only when all disassociations resolved, each with allocation id, NIC, private address and reassociation allowed |
| AwsApply.UnassignCallsMeaning | src/nodejs/providers/aws/cloud.js:694-697 | one unassign request per disassociate batch, in order, carrying its addresses |
| AwsApply.AssignCallsShape | src/nodejs/providers/aws/cloud.js:700-706 | the assign phase issues no unassign and assigns every associate batch |
| AwsApply.FollowCallsShape | src/nodejs/providers/aws/cloud.js:753-760 | moving the public addresses along issues only disassociations and associations to the NIC the addresses were assigned to |
| AwsApply.ReassociationReleasesFirst | src/nodejs/providers/aws/cloud.js:688-712 | the requests open with the unassigns, in batch order; no later request is an unassign; later requests only after all unassigns resolved |
| AwsApply.ReassociationClaims | src/nodejs/providers/aws/cloud.js:699-707 | once all unassigns resolved, every associate batch gets its assign request |
| AwsApply.ReplaceRouteNamesRoute | src/nodejs/providers/aws/cloud.js:536-560 | the replace request names the route by exactly one key (IPv6 iff the route has an IPv6 destination) with the route's own value, for the given table and NIC |
| AwsApply.RouteTableCallsMeaning | src/nodejs/providers/aws/cloud.js:446-463 | a table's requests replace exactly the routes whose destination occurs in the range |
| AwsApply.RouteCallsMeaning | src/nodejs/providers/aws/cloud.js:416-435 | each request re-points a route in range of an operation's table to that operation's NIC, and every such route is re-pointed |
| AwsApply.NonRoutePlanReplacesNothing | src/nodejs/providers/aws/cloud.js:417-420 | an absent, empty or non-array route plan issues no request |
| AwsApply.ModeOf | src/nodejs/providers/aws/cloud.js:132-150 | discover only iff `discoverOnly === true`; otherwise apply the given plan iff one is given; otherwise discover and apply |
| AwsApply.AwsCloud.ReassociatePublicAddresses | src/nodejs/providers/aws/cloud.js:570-611 | issues exactly the public reassociation requests; resolves iff all resolve |
| AwsApply.AwsCloud.DisassociateAll | src/nodejs/providers/aws/cloud.js:575-584 | issues one disassociation per entry whose current association id is set, in order; resolves iff all are accepted |
| AwsApply.AwsCloud.AssociateAll | src/nodejs/providers/aws/cloud.js:588-601 | issues one association per entry with allocation id, NIC and private address; resolves iff all resolve |
| AwsApply.AwsCloud.ReassociatePublicAddressToNic | src/nodejs/providers/aws/cloud.js:663-679 | disassociates the looked-up elastic IP when it is associated, then (if that resolved) associates it |
| AwsApply.AwsCloud.AssociateAddressToNic | src/nodejs/providers/aws/cloud.js:742-763 | assigns the addresses, then (if that resolved) moves their public addresses along |
| AwsApply.AwsCloud.ReassociateAddresses | src/nodejs/providers/aws/cloud.js:688-712 | issues all unassigns, then (if all resolved) the assign phase |
| AwsApply.AwsCloud.UnassignAll | src/nodejs/providers/aws/cloud.js:694-701 | issues the unassign request of every disassociate batch, in order; resolves iff all are accepted |
| AwsApply.AwsCloud.AssignAll | src/nodejs/providers/aws/cloud.js:702-706 | issues the assign request of every associate batch, each followed (when it resolved) by its public-address moves; resolves iff all resolve |
| AwsApply.AwsCloud.ApplyAddressPlan | src/nodejs/providers/aws/cloud.js:312-327 | nothing for no plan or `{}`; an address plan runs both reassociations; resolves iff every request resolves |
| AwsApply.AwsCloud.ReplaceIfInRange | src/nodejs/providers/aws/cloud.js:449-459 | one route: a replace request (to the NIC, in the table, for the destination) is issued iff the destination occurs in the range; resolves iff it is accepted |
| AwsApply.AwsCloud.UpdateRouteTable | src/nodejs/providers/aws/cloud.js:446-463 | one replace request per route whose destination occurs in the range |
| AwsApply.AwsCloud.ApplyRoutePlan | src/nodejs/providers/aws/cloud.js:416-435 | nothing unless the plan is a non-empty operation list; otherwise every table's requests |
| AwsApply.AwsCloud.UpdateRouteTables | src/nodejs/providers/aws/cloud.js:422-430 | issues the requests of every route operation, in order; resolves iff all resolve |
| AwsApply.AwsCloud.UpdateAddresses | src/nodejs/providers/aws/cloud.js:128-151 | discover only issues no EC2 request and returns the plan; otherwise the given or discovered plan is applied and the result says whether every request resolved |
| AwsApply.AwsCloud.UpdateRoutes | src/nodejs/providers/aws/cloud.js:165-187 | the same dispatch for routes |
| AwsStorage.FilterParams.AddFilterToParams | src/nodejs/providers/aws/cloud.js:225-234 | appends one filter with the single value |
| AwsStorage.TagFiltersMeaning | src/nodejs/providers/aws/cloud.js:504-509 | one `tag:<key>` filter per scoping tag, in order |
| AwsStorage.BuildRouteTableParams | src/nodejs/providers/aws/cloud.js:497-512 | the scoping-tag filters, then the instance filter when an instance id is given |
| AwsStorage.CountMatchedTags | src/nodejs/providers/aws/cloud.js:1099-1106 | the counting loop computes how many wanted tags the bucket carries |
| AwsStorage.MatchedTagsMeaning | src/nodejs/providers/aws/cloud.js:1098-1107 | every wanted tag is matched iff the bucket carries every wanted key with the wanted value |
| AwsStorage.S3BucketByTags | src/nodejs/providers/aws/cloud.js:1111-1116 | a rejection is always "No valid S3 Buckets found!" |
| AwsStorage.S3BucketByTagsMeaning | src/nodejs/providers/aws/cloud.js:1083-1118 | none is found iff no answered bucket carries every wanted tag; otherwise the earliest one that does |

## Left out

- I/O: the AWS SDK, the instance metadata, and the BIG-IP device queries (`_getDeviceObjects`) are not modelled. Their answers are inputs: the fake EC2's describe results, `DeviceSnapshot`, and an `Option` for a failed device query.
- `_getPrivateSecondaryIPs`, `_listNics`, `_getElasticIPs`, `_getRouteTables`, `_getAllS3Buckets`, `_getTags`: describe and list calls. Their results are the fake's fixed answers, and the answer for a bucket whose tags could not be read is `None`. These calls are not logged and do not fail.
- `_matchRouteToAddressRange`, `_discoverNextHopAddress`, `_getNetworkInterfaceId`: these live in the provider's base class, which is not part of this model, or depend on EC2 and the ip-address library. They are parameters (`AwsDiscovery.RouteContext`).
- `_normalizeTags` is also a base-class helper. It is modelled as `Plans.TagValue`, where the last tag with a key wins.
- `_retrier` for EC2 and S3 calls: every request is issued once, and a rejection is final. The retry timing and the 3-second interval of `_waitForTask` are not modelled; only its 400-poll budget is.
- Concurrency is not modelled. Sibling calls of a `Promise.all` run in list order. In `_updateAddresses` the elastic-IP chain runs before the private-address chain, although the real calls may interleave.
- Logging, `util.stringify` and JSON are not modelled. The failure message is `"Failover failed because "` followed by the error text.
- Error texts are constants: the rejections of the stubbed provider calls, and `AwsApply.EC2_REJECTED` for a rejected EC2 request.
- The failover engine and the AWS provider are proved separately. `Orchestrator.CloudStub` stands for any provider, and is not connected to `AwsApply.AwsCloud`.
- `init`, `getFailoverStatusAndObjects` and `getAssociatedAddressAndRouteInfo` are not modelled. The recovery-plan content beyond the two stored plans (`loadBalancerAddresses`) is not modelled either.
- Orchestrator.FailoverClient.PrepareUpdates: the polls, the first checkpoint and the discovery calls are stated as counts and uploads (`InOrder`, `Uploads`), not as the exact event list; `WaitForTask` and `FreshUpdates` give the exact lists.
- AwsApply.AwsCloud.UpdateAddresses: a rejected request's own SDK error is replaced by one constant.
