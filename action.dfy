/**
 * One run of the action: parse the configured mappings, collect their
 * distinct groups, resolve every group's display name (a group that does not
 * exist ends the run), output the mappings, assign the app role to the groups
 * that lack it and, when any was assigned, run the provisioning job and fail
 * the run if it ends in quarantine.
 */
module Action {
  import opened Wrappers
  import opened Mappings
  import opened Outputs
  import opened Graph
  import opened Reconcile
  import opened Sync

  /** The action's inputs: one group list per permission level and the target app role. */
  datatype Inputs = Inputs(
    adminGroups: string,
    maintainGroups: string,
    writeGroups: string,
    triageGroups: string,
    readGroups: string,
    appRoleId: string)

  /** The configuration object of permission level to group list, in its key order. */
  function Groups(inputs: Inputs): (groups: seq<(string, string)>)
    ensures |groups| == |DefaultLevels|
    ensures forall i :: 0 <= i < |groups| ==> groups[i].0 in DefaultLevels
    ensures forall i, j :: 0 <= i < j < |groups| ==> groups[i].0 != groups[j].0
    ensures groups[0] == ("admin", inputs.adminGroups) && groups[1] == ("maintain", inputs.maintainGroups)
    ensures groups[2] == ("write", inputs.writeGroups) && groups[3] == ("triage", inputs.triageGroups)
    ensures groups[4] == ("read", inputs.readGroups)
  {
    [("admin", inputs.adminGroups), ("maintain", inputs.maintainGroups), ("write", inputs.writeGroups),
     ("triage", inputs.triageGroups), ("read", inputs.readGroups)]
  }

  /** Why a run stopped with an uncaught error. */
  datatype Crash = GroupNotFound(groupId: string) | NoSyncJob

  /** How a run ends. */
  datatype Verdict =
    | Unchanged                   // nothing was assigned, so no sync was run
    | Synced(status: string)      // assignments were added and the job did not end in quarantine
    | Quarantined                 // the run is marked failed
    | Crashed(crash: Crash)

  /** The outputs a run set, in order, and how it ended. */
  datatype RunResult = RunResult(outputs: seq<Output>, verdict: Verdict)

  /** The status code that fails a run. */
  const QuarantineStatus: string := "Quarantine"

  /** How a run that assigned at least one group ends, given the sync job's final status. */
  function SyncVerdict(status: string): (v: Verdict)
    ensures v == Quarantined <==> status == QuarantineStatus
    ensures v != Quarantined ==> v == Synced(status)
  {
    if status == QuarantineStatus then Quarantined else Synced(status)
  }

  /** How many leading ids are known groups; the lookups stop at the first unknown one. */
  function KnownPrefix(ids: seq<string>, directory: map<string, string>): (n: nat)
    ensures n <= |ids|
    ensures forall j :: 0 <= j < n ==> ids[j] in directory
    ensures n < |ids| ==> ids[n] !in directory
  {
    if ids == [] then 0
    else if ids[0] in directory then 1 + KnownPrefix(ids[1..], directory)
    else 0
  }

  /** The group lookups for `ids`, in order. */
  function Lookups(ids: seq<string>): (gets: seq<Event>)
    ensures |gets| == |ids|
  {
    seq(|ids|, i requires 0 <= i < |ids| => GetGroup(ids[i]))
  }

  /**
   * Looks up each group's display name and records it on every mapping of
   * that group; stops at the first group that does not exist and returns it.
   */
  method AttachNames(client: GraphClient, groupsArray: array<GroupMapping>, addGroups: seq<string>)
    returns (unknown: Option<string>)
    modifies client`trace, groupsArray
    ensures var n := KnownPrefix(addGroups, client.directory);
      && unknown == (if n == |addGroups| then None else Some(addGroups[n]))
      && client.trace == old(client.trace) + Lookups(addGroups[..if n == |addGroups| then n else n + 1])
    ensures unknown.None? ==>
      forall i :: 0 <= i < groupsArray.Length ==>
        groupsArray[i] == WithName(old(groupsArray[i]), addGroups, client.directory)
    ensures unknown.Some? ==>
      forall i :: 0 <= i < groupsArray.Length ==>
        groupsArray[i] == WithName(old(groupsArray[i]), addGroups[..KnownPrefix(addGroups, client.directory)], client.directory)
  {
    ghost var n := KnownPrefix(addGroups, client.directory);
    for k := 0 to |addGroups|
      invariant k <= n
      invariant client.trace == old(client.trace) + Lookups(addGroups[..k])
      invariant forall i :: 0 <= i < groupsArray.Length ==>
        groupsArray[i] == WithName(old(groupsArray[i]), addGroups[..k], client.directory)
    {
      var groupName := client.GetIdpGroupName(addGroups[k]);
      assert Lookups(addGroups[..k + 1]) == Lookups(addGroups[..k]) + [GetGroup(addGroups[k])];
      if groupName.None? {
        assert k == n;
        return Some(addGroups[k]);
      }
      SetGroupName(groupsArray, addGroups[k], groupName.value);
      assert addGroups[..k + 1] == addGroups[..k] + [addGroups[k]];
    }
    assert addGroups[..|addGroups|] == addGroups;
    unknown := None;
  }

  /** The trace of the sync phase, after the POSTs, for a run that assigned something. */
  function SyncTrace(syncJobs: seq<string>): seq<Event>
  {
    [ListSyncJobs] +
    (if syncJobs == [] then []
     else [Event.StartSyncJob(syncJobs[0])] + Sleeps(12) + [GetSyncJobStatus(syncJobs[0])])
  }

  /** The verdict of a run that resolved every group, given what the reconciler found missing. */
  function Conclusion(missing: seq<string>, syncJobs: seq<string>, syncStatus: string): (v: Verdict)
    ensures v == Unchanged <==> missing == []
    ensures v == Crashed(NoSyncJob) <==> missing != [] && syncJobs == []
    ensures v == Quarantined <==> missing != [] && syncJobs != [] && syncStatus == QuarantineStatus
    ensures v.Crashed? ==> v.crash == NoSyncJob
  {
    if missing == [] then Unchanged
    else if syncJobs == [] then Crashed(NoSyncJob)
    else SyncVerdict(syncStatus)
  }

  /**
   * The reconciliation half of a run: assign the app role to every group in
   * `addGroups` that lacks it and, when any was assigned, run the
   * provisioning job and judge its final status.
   */
  method ReconcileAndSync(client: GraphClient, appRoleId: string, addGroups: seq<string>) returns (verdict: Verdict)
    modifies client`trace, client`assignments
    ensures var missing := Missing(addGroups, WithRole(old(client.assignments), appRoleId));
      && verdict == Conclusion(missing, client.syncJobs, client.syncStatus)
      && client.assignments == old(client.assignments) + NewAssignments(missing, appRoleId)
      && client.trace == old(client.trace) + [ListAssignments] + Posts(missing, appRoleId) +
           (if missing == [] then [] else SyncTrace(client.syncJobs))
  {
    var appGroups := GetAppGroupAssignments(client, appRoleId);
    var added := AddGroupsToApp(client, appRoleId, addGroups, appGroups);
    if !added {
      return Unchanged;
    }
    ghost var posted := client.trace;
    var syncJob := client.GetSyncJobId();
    if syncJob.None? {
      return Crashed(NoSyncJob);
    }
    var syncStatus := RunSync(client, syncJob.value);
    assert client.trace == posted + SyncTrace(client.syncJobs);
    if syncStatus == QuarantineStatus {
      return Quarantined;
    }
    return Synced(syncStatus);
  }

  /**
   * The first half of a run: parse the configured mappings, collect their
   * distinct groups, resolve every group's display name and build the
   * outputs; stops at the first group that does not exist and returns it.
   */
  method ResolveGroups(client: GraphClient, groups: seq<(string, string)>)
    returns (addGroups: seq<string>, unknown: Option<string>, outputs: seq<Output>)
    modifies client`trace
    ensures addGroups == UniqueIds(ParseAll(groups))
    ensures var n := KnownPrefix(addGroups, client.directory);
      && unknown == (if n == |addGroups| then None else Some(addGroups[n]))
      && client.trace == old(client.trace) + Lookups(addGroups[..if n == |addGroups| then n else n + 1])
    ensures unknown.None? ==> outputs == OutputsFor(NameAll(ParseAll(groups), addGroups, client.directory))
    ensures unknown.Some? ==> outputs == []
  {
    var groupsArray := GroupsToArray(groups);
    addGroups := GetUniqueGroups(groupsArray);
    var mappings := new GroupMapping[|groupsArray|](i requires 0 <= i < |groupsArray| => groupsArray[i]);
    unknown := AttachNames(client, mappings, addGroups);
    if unknown.Some? {
      return addGroups, unknown, [];
    }
    assert mappings[..] == NameAll(groupsArray, addGroups, client.directory);
    outputs := OutputGroups(mappings[..]);
  }

  /** One run of the action against the client's directory and application. */
  method Run(client: GraphClient, inputs: Inputs) returns (result: RunResult)
    modifies client`trace, client`assignments
    ensures var ms := ParseAll(Groups(inputs));
      var ids := UniqueIds(ms);
      var n := KnownPrefix(ids, client.directory);
      n < |ids| ==>
        && result == RunResult([], Crashed(GroupNotFound(ids[n])))
        && client.assignments == old(client.assignments)
        && client.trace == old(client.trace) + Lookups(ids[..n + 1])
    ensures var ms := ParseAll(Groups(inputs));
      var ids := UniqueIds(ms);
      var missing := Missing(ids, WithRole(old(client.assignments), inputs.appRoleId));
      KnownPrefix(ids, client.directory) == |ids| ==>
        && result.outputs == OutputsFor(NameAll(ms, ids, client.directory))
        && result.verdict == Conclusion(missing, client.syncJobs, client.syncStatus)
        && client.assignments == old(client.assignments) + NewAssignments(missing, inputs.appRoleId)
        && client.trace == old(client.trace) + Lookups(ids) + [ListAssignments] + Posts(missing, inputs.appRoleId) +
             (if missing == [] then [] else SyncTrace(client.syncJobs))
  {
    var addGroups, unknown, outputs := ResolveGroups(client, Groups(inputs));
    if unknown.Some? {
      return RunResult([], Crashed(GroupNotFound(unknown.value)));
    }
    ghost var looked := client.trace;
    assert looked == old(client.trace) + Lookups(addGroups) by {
      assert addGroups[..|addGroups|] == addGroups;
    }
    // the list of groups is always truthy, so reconciliation always runs
    var verdict := ReconcileAndSync(client, inputs.appRoleId, addGroups);
    return RunResult(outputs, verdict);
  }

  /**
   * A run that resolves every group assigns the role to each configured group
   * that lacked it, once, and afterwards every configured group holds it.
   */
  lemma CompletedRunGrantsEveryGroup(ms: seq<GroupMapping>, assignments: seq<Assignment>, appRoleId: string)
    ensures var ids := UniqueIds(ms);
      var missing := Missing(ids, WithRole(assignments, appRoleId));
      && "" !in missing
      && (forall i, j :: 0 <= i < j < |missing| ==> missing[i] != missing[j])
      && (forall g :: g in missing <==> g in ids && !InGroup(WithRole(assignments, appRoleId), g))
      && (forall g :: g in ids ==>
            InGroup(WithRole(assignments + NewAssignments(missing, appRoleId), appRoleId), g))
  {
    var ids := UniqueIds(ms);
    UniqueIdsDistinct(ms);
    MissingExactly(ids, WithRole(assignments, appRoleId));
    MissingDistinct(ids, WithRole(assignments, appRoleId));
    EveryGroupHoldsRole(ids, assignments, appRoleId);
  }

  /**
   * Running again with the same configuration against the assignments a
   * completed run left changes nothing and starts no sync.
   */
  lemma RerunIsUnchanged(ms: seq<GroupMapping>, assignments: seq<Assignment>, appRoleId: string,
                         syncJobs: seq<string>, syncStatus: string)
    ensures var ids := UniqueIds(ms);
      var after := assignments + NewAssignments(Missing(ids, WithRole(assignments, appRoleId)), appRoleId);
      Conclusion(Missing(ids, WithRole(after, appRoleId)), syncJobs, syncStatus) == Unchanged
  {
    SecondPassAddsNothing(UniqueIds(ms), assignments, appRoleId);
  }
}
