# entra-id-app-sync-action, modelled in Dafny

The action keeps an Entra ID enterprise application in line with a set of
GitHub-team-to-IdP-group mappings. It reads one comma-separated list of
`team[:groupId]` entries for each permission level. Per run it then:

- parses those lists into group mappings;
- collects the distinct group ids;
- looks up each group's display name in the directory (a group that does not exist ends the run);
- sets one `<level>_idp_mappings` output per permission level;
- assigns the configured app role to every group that lacks it;
- when it assigned anything, starts the application's provisioning (synchronization) job;
- waits a fixed 60 seconds in 5-second sleeps, reads the job's status once, and fails the run when the status is `Quarantine`.

The model is split into one module per part of `index.js`:

- `Strings`: JavaScript's `split` and `join` on a single separator character. This includes the fact that `split` always returns at least one piece.
- `Mappings`: the parser (`groupToArray`, `groupsToArray`), the deduplicator (`getUniqueGroups`) and the display-name attachment done in `main`.
- `Outputs`: how `outputGroups` builds the output names and comma-joined values. The five default levels come first, in the object's key order, and any other level follows in first-seen order.
- `Graph`: a `GraphClient` class.
  - Its fields hold the remote state: the directory of group names, the application's role assignments, its synchronization jobs and their status.
  - It keeps a ghost trace of every request and sleep the action makes.
  - Each request method records its event, and `AddGroupToApp` also appends the new assignment.
- `Reconcile`: `inGroup`, the `appRoleId` filter and `addGroupsToApp`.
- `Sync`: the bounded wait of `runSync`.
- `Action`: `main`. It composes the parts above, and the verdict records how the run ended: nothing to do, synced, quarantined, or crashed on a missing group or a missing sync job.

Each loop of the source is a method proved equal to a function over sequences. The properties are stated as lemmas about those functions:

- splitting and joining are inverses;
- the collected ids are distinct, complete and in first-seen order;
- every output is set once, and a level with at least one entry, none containing a comma, splits back into its entries;
- the role is POSTed exactly for the groups that lack it, and at most once per group;
- afterwards every configured group holds the role, so a second run changes nothing.

## Model

| member | source | states |
|---|---|---|
| Strings.Split | index.js:74-76 | splitting on one character yields at least one piece, and no piece contains the separator |
| Strings.Join | index.js:80 | the join of pieces (also the array `toString` of line 66) starts with the first piece and, for two or more pieces, contains the separator |
| Strings.JoinSplit | index.js:76-80 | joining the pieces of a split with the same separator gives back the original string |
| Strings.SplitSingle | index.js:76-77 | a string splits into more than one piece exactly when it contains the separator |
| Strings.SplitAppendPiece | index.js:76-77 | appending the separator and a separator-free piece appends exactly that piece to the split |
| Strings.SplitJoin | index.js:74-80 | splitting the join of non-empty, separator-free pieces gives back the pieces |
| Mappings.LastIndex | index.js:77 | locates the last colon: the index is in range, holds the colon, and no colon follows it; -1 when there is none |
| Mappings.ParseEntry | index.js:76-81 | an entry with a colon yields team and group id such that team + ":" + id is the entry and the id has no colon; otherwise the whole entry is the team and the id is empty |
| Mappings.ParseEntrySplitPopJoin | index.js:76-80 | the parse equals splitting on ':', popping the last piece as the group id when there is more than one piece, and joining the rest as the team |
| Mappings.ParseEntriesAt | index.js:74-83 | parsing a list keeps its length and parses entry i into mapping i, all at the given level |
| Mappings.GroupToArray | index.js:72-86 | the loop yields one mapping per comma-separated entry, in order |
| Mappings.GroupsToArray | index.js:88-101 | the loop concatenates the parsed lists of every level with a non-empty string, in key order |
| Mappings.ParseAllAppend | index.js:93-98 | parsing a configuration is the concatenation of parsing its parts |
| Mappings.ParseAllSingle | index.js:95-97 | an empty level string contributes nothing; a non-empty one contributes the parse of its comma-separated entries |
| Mappings.ParseAllOrigin | index.js:88-101 | every parsed mapping has no name yet, and its level is a configured level whose string is non-empty |
| Mappings.GetUniqueGroups | index.js:103-112 | the loop yields the non-empty group ids in first-seen order, each once |
| Mappings.UniqueIdsDistinct | index.js:105-110 | the collected ids never include the empty id and contain no duplicates |
| Mappings.UniqueIdsComplete | index.js:105-110 | an id is collected exactly when it is non-empty and some mapping carries it |
| Mappings.UniqueIdsFirstSeen | index.js:105-110 | ids are collected in the order of their first occurrence among the mappings |
| Mappings.WithName | index.js:215-217 | naming a mapping changes only its display name: a mapping whose group was looked up and exists gets that group's name, any other mapping is unchanged |
| Mappings.NamesAttached | index.js:212-218 | once every collected id is in the directory, a mapping without a group id is unchanged, and every other mapping gets its group's display name |
| Mappings.SetGroupName | index.js:215-217 | every array element of the given group gets the name, and every other element is unchanged |
| Outputs.Format | index.js:54-57 | an entry starts with the team; it is the team alone exactly when no non-empty name was recorded, and otherwise the team followed by `:` and the name |
| Outputs.OutputName | index.js:64 | an output name is the level followed by `_idp_mappings` |
| Outputs.OutputNameInjective | index.js:64 | different levels give different output names |
| Outputs.OutputNamesDistinct | index.js:62-69 | the output names are pairwise distinct, so no output is set twice |
| Outputs.UnseenLevelEmpty | index.js:49-52 | a level that is not an output key has no values |
| Outputs.CollectValues | index.js:49-60 | the first loop gives the default levels then each new level in first-seen order, and under every level exactly its entries in input order |
| Outputs.OutputGroups | index.js:37-70 | the two loops emit, per key in key order, the output `<level>_idp_mappings` with the comma-joined `team[:name]` values of that level in input order |
| Outputs.DefaultsFirst | index.js:38-45 | the keys start with admin, maintain, triage, write, read, so every default level is output even when empty |
| Outputs.KeysDistinctAndComplete | index.js:49-52 | the output keys are distinct and include every mapping's level |
| Outputs.LevelValuesOrigin | index.js:53-59 | every value of a level is the formatted team (and name) of a mapping at that level |
| Outputs.OutputValueSplits | index.js:66 | when a level has at least one value and none contains a comma, splitting its output on commas gives back its values |
| Outputs.EmptyLevelIndistinct | index.js:66 | a level with no entries and a level whose only entry is empty both output the empty string |
| Graph.GraphClient.constructor | index.js:8-19 | the client starts with the given directory, assignments, jobs and status, and an empty trace |
| Graph.GraphClient.GetIdpGroupName | index.js:114-117 | a lookup logs one group request and returns the display name, or nothing for an unknown group |
| Graph.GraphClient.ListAppRoleAssignedTo | index.js:121-125 | a listing logs one request and returns all current assignments |
| Graph.GraphClient.AddGroupToApp | index.js:130-138 | a POST logs one request and appends exactly one assignment of the role to the group |
| Graph.GraphClient.GetSyncJobId | index.js:158-161 | a job query logs one request and returns the first job's id, or nothing when there is no job |
| Graph.GraphClient.StartSyncJob | index.js:169-171 | starting a job logs one request |
| Graph.GraphClient.GetSyncJobStatusCode | index.js:163-167 | a status query logs one request and returns the job's status code |
| Graph.GraphClient.Sleep | index.js:181 | a sleep is logged with its duration |
| Reconcile.InGroup | index.js:141-143 | true exactly when some assignment's principal is the item |
| Reconcile.WithRole | index.js:126 | keeps exactly the assignments of the given role |
| Reconcile.WithRoleAppend | index.js:126 | the role filter keeps order: filtering a concatenation concatenates the filtered parts |
| Reconcile.GetAppGroupAssignments | index.js:120-127 | logs one listing and returns the current assignments of the role |
| Reconcile.AddGroupsToApp | index.js:145-156 | POSTs the missing groups in order, adds exactly their assignments, and reports true exactly when some group was missing |
| Reconcile.MissingExactly | index.js:148-154 | a group is POSTed exactly when it is desired and no assignment of the role holds it; never more POSTs than desired groups |
| Reconcile.MissingAppend | index.js:148-154 | the missing groups of a concatenation are the concatenation of the missing groups |
| Reconcile.AllAssignedIffNothingMissing | index.js:145-156 | nothing is added exactly when every desired group already holds the role |
| Reconcile.HoldersAfterAppend | index.js:132-136 | appending assignments keeps every holder of the role and adds each appended holder |
| Reconcile.EveryGroupHoldsRole | index.js:145-156 | after a pass, every desired group holds the role |
| Reconcile.SecondPassAddsNothing | index.js:145-156 | a second pass against the assignments the first pass left adds nothing |
| Reconcile.MissingDistinct | index.js:148-153 | distinct desired groups give distinct POSTs |
| Reconcile.OneOfThreeMissing | index.js:148-154 | with three desired groups of which only the last lacks the role, exactly that group is POSTed |
| Sync.RunSync | index.js:173-198 | starts the job, sleeps twelve times for 5000 ms (the 60000 ms budget), then reads the status once and returns it |
| Action.Groups | index.js:25-31 | the configuration has the five default levels, each once, in the order admin, maintain, write, triage, read, each paired with its input |
| Action.SyncVerdict | index.js:241-245 | the run fails exactly when the final status is `Quarantine`, and succeeds with that status otherwise |
| Action.KnownPrefix | index.js:212-213 | counts how many groups are looked up successfully: all of them are in the directory, and the next one is not |
| Action.AttachNames | index.js:212-218 | looks groups up in order and stops at the first unknown one, which it reports; each mapping then carries the name of its group if that group was looked up before the stop (every group, when none is unknown), and is unchanged otherwise |
| Action.Conclusion | index.js:232-248 | a run is unchanged exactly when nothing was missing; it crashes exactly when something was added but there is no job; it is quarantined exactly when something was added and the job's status is `Quarantine` |
| Action.ReconcileAndSync | index.js:223-248 | lists, POSTs the missing groups and, only when one was added, runs the sync; states the verdict, the new assignments and the full request trace |
| Action.ResolveGroups | index.js:207-220 | parses, collects the distinct groups, looks them up (stopping at an unknown one) and builds the outputs from the named mappings; on an unknown group it builds no outputs |
| Action.Run | index.js:200-252 | an unknown group ends the run with no outputs and no assignment; otherwise the outputs, the added assignments, the verdict and the whole request trace are those of the model |
| Action.CompletedRunGrantsEveryGroup | index.js:223-233 | a run that resolves every group POSTs no empty id, no id twice, exactly the groups lacking the role, and afterwards every configured group holds it |
| Action.RerunIsUnchanged | index.js:232-248 | running again against the assignments a completed run left is unchanged and starts no sync |

## Left out

- Authentication and client construction (`getClient`) are not modelled. The client's remote state is given to the constructor instead.
- Reading the action's inputs (`getInputs`) is not modelled. `Action.Inputs` carries the five level strings and the app role id. Missing inputs default to the empty string.
- The enterprise application object id is dropped. The model has a single service principal, and every request addresses it.
- `core.setOutput` is not modelled. The outputs are returned as a sequence of name/value pairs, in the order they are set.
- Logging is left out.
- `core.setFailed` and `process.exit` are left out. The verdict `Quarantined` stands for both.
- Timers and asynchrony are not modelled. Each `await sleep` is a logged `Sleep` event, and requests run one at a time in program order.
- The Graph API's paging of assignment and job lists is left out. A listing returns every item.
- Graph errors other than an unknown group and an empty job list are not modelled, such as network failures or throttling. Those two crashes are modelled as the `Crashed` verdict.
- The `principalType` and `principalDisplayName` fields that the listing selects are never read by the source and are not modelled.
- Action.Run: when a lookup fails part-way, the run's result does not expose the partly named mappings. `Action.AttachNames` states their contents; the run ends without using them.
- Outputs.OutputGroups: JavaScript orders integer-like object keys (a level named "1", say) before the others. That ordering is not modelled; the keys keep insertion order.
- Outputs.OutputGroups: a level named after an `Object.prototype` property (such as `constructor`) is not modelled. In JavaScript the `in` test would find such a name.
- Outputs.OutputGroups: display names are appended without escaping, so a name that contains a comma makes the output ambiguous. Such an output cannot be split back into its entries. `Outputs.OutputValueSplits` therefore requires comma-free values.
- Outputs.OutputGroups: a level with no entries and a level whose only entry is empty (for example a bare `:groupId` whose group has an empty name) both output `""`. The two cannot be told apart (`Outputs.EmptyLevelIndistinct`).
- Graph.GraphClient.AddGroupToApp: the model's service stores the POSTed principal id exactly as given, and looks groups up by the exact string. The real service accepts a group id in any letter case and lists assignments with the id in its own canonical form. The source's `inGroup` compares ids case-sensitively. So an id configured in a non-canonical case is POSTed again on the next run, the service rejects the duplicate, and that run crashes. Id normalisation is not modelled.
- Reconcile.SecondPassAddsNothing: holds only under the verbatim-id service of `Graph.GraphClient.AddGroupToApp` above.
- Action.RerunIsUnchanged: holds only under the verbatim-id service of `Graph.GraphClient.AddGroupToApp` above.
