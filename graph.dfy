/**
 * The directory service and the enterprise application as the action sees
 * them through its Graph client: the groups' display names, the
 * application's app-role assignments and its provisioning job. Every call the
 * action makes, and every timed wait, is appended to a ghost trace, so the
 * order of the action's effects can be stated.
 */
module Graph {
  import opened Wrappers

  /** One app-role assignment on the enterprise application (the two fields the action reads). */
  datatype Assignment = Assignment(principalId: string, appRoleId: string)

  /** One observable step of a run. */
  datatype Event =
    | GetGroup(groupId: string)
    | ListAssignments
    | PostAssignment(principalId: string, appRoleId: string)
    | ListSyncJobs
    | StartSyncJob(jobId: string)
    | Sleep(ms: int)
    | GetSyncJobStatus(jobId: string)

  /**
   * A Graph client bound to one enterprise application (the service principal
   * named by the configured object id). Only POSTing an assignment changes the
   * remote state; every call is recorded in `trace`.
   */
  class GraphClient {
    /** Group id to display name, for the groups that exist in the directory. */
    const directory: map<string, string>
    /** The application's app-role assignments, in the order the service lists them. */
    var assignments: seq<Assignment>
    /** The ids of the application's synchronization jobs. */
    const syncJobs: seq<string>
    /** The status code the synchronization job reports when it is asked. */
    const syncStatus: string
    ghost var trace: seq<Event>

    constructor(directory: map<string, string>, assignments: seq<Assignment>, syncJobs: seq<string>, syncStatus: string)
      ensures this.directory == directory && this.assignments == assignments
      ensures this.syncJobs == syncJobs && this.syncStatus == syncStatus
      ensures trace == []
    {
      this.directory := directory;
      this.assignments := assignments;
      this.syncJobs := syncJobs;
      this.syncStatus := syncStatus;
      trace := [];
    }

    /** `GET /groups/{id}?select=displayName`; `None` when the group does not exist (the request fails). */
    method GetIdpGroupName(groupId: string) returns (name: Option<string>)
      modifies this`trace
      ensures trace == old(trace) + [GetGroup(groupId)]
      ensures name == if groupId in directory then Some(directory[groupId]) else None
    {
      trace := trace + [GetGroup(groupId)];
      name := if groupId in directory then Some(directory[groupId]) else None;
    }

    /** `GET /servicePrincipals/{id}/appRoleAssignedTo`: every assignment, whatever its role. */
    method ListAppRoleAssignedTo() returns (all: seq<Assignment>)
      modifies this`trace
      ensures trace == old(trace) + [ListAssignments]
      ensures all == assignments
    {
      trace := trace + [ListAssignments];
      all := assignments;
    }

    /** `POST /servicePrincipals/{id}/appRoleAssignedTo`: assigns the role to the group. */
    method AddGroupToApp(appRoleId: string, groupId: string)
      modifies this`trace, this`assignments
      ensures trace == old(trace) + [PostAssignment(groupId, appRoleId)]
      ensures assignments == old(assignments) + [Assignment(groupId, appRoleId)]
    {
      trace := trace + [PostAssignment(groupId, appRoleId)];
      assignments := assignments + [Assignment(groupId, appRoleId)];
    }

    /** The first synchronization job's id; `None` when there is none (reading `value[0].id` fails). */
    method GetSyncJobId() returns (jobId: Option<string>)
      modifies this`trace
      ensures trace == old(trace) + [ListSyncJobs]
      ensures jobId == if syncJobs == [] then None else Some(syncJobs[0])
    {
      trace := trace + [ListSyncJobs];
      jobId := if syncJobs == [] then None else Some(syncJobs[0]);
    }

    /** `POST .../synchronization/jobs/{id}/start`. */
    method StartSyncJob(jobId: string)
      modifies this`trace
      ensures trace == old(trace) + [Event.StartSyncJob(jobId)]
    {
      trace := trace + [Event.StartSyncJob(jobId)];
    }

    /** `GET .../synchronization/jobs/{id}/?select=status`: the job's status code. */
    method GetSyncJobStatusCode(jobId: string) returns (code: string)
      modifies this`trace
      ensures trace == old(trace) + [GetSyncJobStatus(jobId)]
      ensures code == syncStatus
    {
      trace := trace + [GetSyncJobStatus(jobId)];
      code := syncStatus;
    }

    /** A timed wait of `ms` milliseconds. */
    method Sleep(ms: int)
      modifies this`trace
      ensures trace == old(trace) + [Event.Sleep(ms)]
    {
      trace := trace + [Event.Sleep(ms)];
    }
  }
}
