# Verified model of the workflow platform's core

The platform lets organizations draw workflows, publish them as numbered versions, and work on them under accounts with
rotating sessions. This project models the four parts of it that hold real algorithms or protocols, and proves what they
promise over every input, every interleaving or every run.

1. **The graph validator.** A recursive depth-first search with a shared visited set and an in-stack set that is left stale
   after the first report, and five more checks that append to one list. `CycleSearch` is the search itself; `Validator` the
   whole function; `WellFormedness` says what an empty list and each entry of a non-empty one mean; `Execution` what an
   accepted graph guarantees to whoever follows its edges. `Walks` is the graph theory beneath, `Graphs` the dictionaries and
   the typed schema, `Issues` the messages, `Registry` the node types.
2. **Workflow versions.** `WorkflowService` is the service over its four tables; `WorkflowStore` says what each operation does
   to them. Publishing is split where it waits: loading and validating, reading the highest number, and inserting the next one.
   Any number of publishers may interleave; the unique key aborts the later one, and only attributes that differ from what was
   loaded are written back. `WorkflowHistory` and `WorkflowRuns` hold the invariant and whole runs, `Tenancy` non-interference.
3. **Sessions, tokens and the browser.** `Sessions` is refresh rotation in small steps (take the key, sign, store) under any
   interleaving with logins and logouts, and `Scans` is the deletion of all of a user's sessions, key by key, among them.
   `ApiClient` is the browser's shared refresh, `ClientRuns` the client with anything around it, `ClientAndServer` client and
   server together. `AuthService` is the authentication service, specified by `Accounts`; `AccountRuns` holds its runs.
4. **Smaller machines with exact bounds.** `RateLimit` is the sliding window. `OrganizationService`, specified by
   `Organizations`, is membership, ownership and invitations behind their guards; `OrganizationRuns` holds its runs and says
   who owns an organization, `Memberships` where memberships come from. `Registration` is where accounts and organizations
   meet, and `RegistrationRuns` says which addresses a verified account has proven. `Slug` is the slug pipeline and a single
   pass it is equal to. `Outcomes` and `Basics` are shared.

`WorkflowLaws`, `AccountLaws` and `OrganizationLaws` say of each operation when it does what it is asked and what the tables
hold afterwards, in terms of rows and fields and not of the functions the services are proved against.

Services and clients that update their state are classes; each method is proved equal to a function of the old state, and the
promises are proved about those functions, over runs. Pure code is functions and lemmas.

## Results that are conditional

These promises do not hold of the code as it stands on every input. Each has a concrete input that breaks it and the exact
condition under which it holds.

- Edges may name ids that no node declares. Cycles among such ids are not found and a node fed only from them cannot be
  triggered (`Execution.UndeclaredEndpointsEscape`). Every cycle among a set of ids is found exactly when all of them are declared
  (`Execution.CyclesAreFoundIff`). All declared nodes can be triggered exactly when each is fed from within
  (`Execution.AllTriggeredIff`), which declared endpoints guarantee.
- Equal timestamps are one member of the limiter's set (`RateLimit.SameInstantSlipsThrough`). The limiter counts attempts
  exactly when the attempts in the window have different timestamps (`RateLimit.CountsAttemptsIff`).
- Deleting a user's sessions is a scan with other requests in between. It misses a request that stands between taking or
  signing and storing (`Scans.OldRequestSurvives`), and also a refresh that begins and ends inside the scan, with nothing under
  way before or after (`Scans.RefreshInsideSurvives`). In any run it is safe at every instant exactly when at no instant a
  request under way holds a chain from before the scan (`Scans.ScanIff`); whatever else may run, only a user without sessions
  is safe (`Scans.AlwaysEndsAllIff`). Taken as one instant, it ends every chain exactly when nothing is under way
  (`Sessions.InvalidationIff`).
- Registering with an invitation verifies the account without comparing addresses, so a verified address may be one that
  no token was ever made out to (`RegistrationRuns.UnprovenAddress`). A verified account has presented what was made out to its own
  address exactly if it was not registered with an open invitation to another one (`RegistrationRuns.AddressProvenIff`).
- An organization can lose its only owner for good: `update_member` does not exempt the owner as a target
  (`OrganizationRuns.OwnerCanBeLost`, an owner who makes himself a viewer), although docs/SRS.md:475 says that an owner cannot
  do so. There is exactly one owner exactly when no such call was let through (`OrganizationRuns.ExactlyOneOwnerIff`).
- A slug that was cut to 100 characters at a dash keeps that dash (`Slug.CutAtDashHappens`); its own slug is shorter. All other
  slugs are their own slug (`Slug.SlugOfSlugIff`).

## Where the documents and the code disagree

The model follows the code. docs/database/DatabaseDesign.md:1908 calls the stored session value a bcrypt hash; the code stores
SHA-256. docs/DevelopmentPlan.md:604 has rotation use `SELECT FOR UPDATE`; the code uses an atomic GETDEL. docs/SRS.md:336
limits failed attempts; the code counts every attempt, refused ones included. docs/SRS.md:139 and :474 promise an e-mail with the
invitation; backend/app/modules/organizations/router.py:193 drops the plaintext token and nothing sends it, so an invitation that
is "sent" here is one that is made out to an address. The other two mails are log entries
(backend/app/modules/auth/service.py:58-63), counted here as mailed.

## Assumptions

- Generated ids and tokens are new when they are handed out; hashes are injective; only tokens that were signed decode.
- Ids are strings or natural numbers; times are integers, in seconds, or reals in the limiter. E-mail addresses are
  lower-cased letter by letter over ASCII. Lower-casing in a slug is any function from characters to strings; only the
  statement about slugs of slugs asks that it leave slug characters alone.
- A Redis scan returns every key that is there from its beginning to its end; of other keys nothing is assumed.
- The unique keys of the database hold: on (workflow, version number), on lower-cased e-mail, on token hashes, on
  (organization, user) and on slugs. The lemmas over runs show that every call keeps them.

## Model

| member | source | states |
|---|---|---|
| Walks.ReverseIsTopological | backend/app/modules/workflows/validator.py:71-89 | a finishing order in which every id follows its successors is a topological order when read backwards |
| Walks.NoCycleInOrder | backend/app/modules/workflows/validator.py:71-85 | no id of a successors-first order lies on a cycle |
| Walks.OrderClosed | backend/app/modules/workflows/validator.py:71-85 | whatever an id of such an order reaches is in the order |
| Walks.AcyclicWalkIsDistinct | backend/app/modules/workflows/validator.py:62-89 | where the roots reach no cycle, no walk from them visits an id twice |
| CycleSearch.BackArcClosesCycle | backend/app/modules/workflows/validator.py:79-83 | an edge back into the stack of explored ids puts the reported id on a real cycle |
| CycleSearch.FinishedGrows | backend/app/modules/workflows/validator.py:84 | finishing an id whose successors are finished keeps the finishing order |
| CycleSearch.FinishedIsReached | backend/app/modules/workflows/validator.py:87-89 | once all roots are finished, all they reach is finished and they reach no cycle |
| CycleSearch.Search.Dfs | backend/app/modules/workflows/validator.py:71-85 | the recursion terminates on the unvisited ids and keeps the invariant; before a report it restores the stack and finishes its id; after the first report nothing more is reported, whatever stale ids the in-stack set holds |
| CycleSearch.Search.Explore | backend/app/modules/workflows/validator.py:87-89 | a cycle is reported if and only if the declared ids reach one; otherwise the finishing order is successors-first and lists exactly what they reach |
| Validator.Adjacency | backend/app/modules/workflows/validator.py:63-65 | the adjacency lists hold exactly the edges' arcs, duplicates and undeclared sources included |
| Validator.OutgoingHandles | backend/app/modules/workflows/validator.py:39-43 | a handle is listed for an id exactly if some edge leaves the id by it, "output" standing for a missing one |
| Validator.CheckTypes | backend/app/modules/workflows/validator.py:48-52 | appends one report per node of an unregistered type, in node order, and nothing else |
| Validator.CheckTriggers | backend/app/modules/workflows/validator.py:45-60 | reports a missing trigger exactly when no node is of a registered trigger type, and an empty graph |
| Validator.CheckCycles | backend/app/modules/workflows/validator.py:62-89 | appends one cycle report, on a reached cycle, exactly when there is one; otherwise the reversed finishing order is topological over exactly what is reached |
| Validator.CheckOrphans | backend/app/modules/workflows/validator.py:91-98 | appends one report per non-trigger node without an incoming edge |
| Validator.CheckBranches | backend/app/modules/workflows/validator.py:100-108 | appends, for each condition node, a report per branch no edge leaves by |
| Validator.ValidateGraph | backend/app/modules/workflows/validator.py:15-110 | fails on the first missing key, and otherwise returns the sections of all six checks in order, only the id a cycle report names being left open |
| WellFormedness.ReportContents | backend/app/modules/workflows/validator.py:48-110 | every offending node is listed exactly once per fault whatever else is wrong; there is one cycle report if and only if declared ids reach a cycle, and it names an id on such a cycle |
| WellFormedness.BranchReports | backend/app/modules/workflows/validator.py:39-43 | in terms of the source handles as they are given: each branch is reported missing once per condition node of the id if no edge leaves the id by it, and otherwise not at all |
| WellFormedness.Readings | backend/app/modules/workflows/validator.py:39-54 | what the validator reads as type, trigger, incoming edge and branch is what the fields of nodes and edges say, a missing type being the empty one and a missing handle neither branch |
| WellFormedness.EmptyReportIffWellFormed | backend/app/modules/workflows/validator.py:19-21 | the list is empty if and only if the graph meets the declarative definition of well-formedness |
| WellFormedness.GrowthKeepsWellFormed | backend/app/modules/workflows/validator.py:45-52 | a graph accepted under one registry stays accepted under every larger one |
| WellFormedness.CollectCounts | backend/app/modules/workflows/validator.py:48-108 | a check that speaks once per offending node is heard once per offending node over all nodes, repeated ids included |
| Issues.MessageShape | backend/app/modules/workflows/validator.py:52-108 | length and first letter tell the kinds of message apart |
| Issues.ReportsAreDistinguishable | backend/app/modules/workflows/validator.py:52-108 | reports with the same node id and the same text are the same report |
| Graphs.ParseDump | backend/app/modules/workflows/schemas.py:14-37 | a graph that was dumped parses back to itself |
| Graphs.DumpFields | backend/app/modules/workflows/service.py:33-34 | a dumped graph has every field of every node and edge under its own name |
| Graphs.ParseFields | backend/app/modules/workflows/schemas.py:14-37 | a dictionary parses if and only if the fields without a default are there, and every field is taken over, defaults included |
| Registry.NodeRegistry.Register | backend/app/modules/workflows/nodes/registry.py:12-23 | a taken name is refused and names its holder, a new one is added with its class, and no entry is ever changed or removed |
| Registry.NodeRegistry.GetNodeClass | backend/app/modules/workflows/nodes/registry.py:26-28 | answers exactly for the registered names, with the class registered under them |
| Execution.CyclesAreFoundIff | backend/app/modules/workflows/validator.py:87-89 | the search finds every cycle, whatever edges are drawn between permitted ids, if and only if all permitted ids are declared |
| Execution.EveryCycleIsFound | backend/app/modules/workflows/validator.py:62-89 | with declared endpoints the search finds a cycle if and only if the edges contain one anywhere |
| Execution.AllTriggeredIff | backend/app/modules/workflows/validator.py:91-98 | in an accepted graph every declared node is reachable from a trigger if and only if each non-trigger is fed by an edge from something declared ids lead to |
| Execution.AcceptedGraphIsTriggered | backend/app/modules/workflows/validator.py:36-98 | in an accepted graph with declared endpoints every declared node is reachable from a trigger |
| Execution.BackToTrigger | backend/app/modules/workflows/validator.py:62-98 | walking backwards cannot repeat an id nor stop anywhere but at a trigger |
| Execution.UndeclaredEndpointsEscape | backend/app/modules/workflows/validator.py:87-98 | a concrete graph is accepted although its edges contain a cycle and one of its nodes cannot be triggered |
| Execution.Execute | backend/app/modules/workflows/nodes/actions/condition.py:15-29 | the branch is "true" exactly when the value found equals the expected one, and otherwise "false" |
| Execution.WalksAreShort | backend/app/modules/workflows/validator.py:62-89 | in an accepted graph with declared endpoints a walk visits no id twice and is at most as long as there are declared ids |
| Execution.ConditionNeverStuck | backend/app/modules/workflows/validator.py:100-108 | an accepted graph has an edge for whichever branch a condition node takes |
| Execution.ExecutionCompletes | backend/app/modules/workflows/validator.py:62-108 | following branches from any point can be continued to an id that no edge leaves, within the number of declared ids |
| WorkflowStore.Maximum | backend/app/modules/workflows/service.py:46-50 | MAX over a non-empty set is a member of it that no member exceeds |
| WorkflowStore.FindVersion | backend/app/modules/workflows/service.py:202-208 | finds a version with that number if and only if there is one |
| WorkflowService.Service.CreateWorkflow | backend/app/modules/workflows/service.py:83-96 | adds one draft row without versions, and nothing else changes |
| WorkflowService.Service.GetWorkflow | backend/app/modules/workflows/service.py:37-42 | another organization's workflow is indistinguishable from a missing one |
| WorkflowService.Service.UpdateWorkflow | backend/app/modules/workflows/service.py:112-124 | the whole new state: only given fields change, a definition goes to the draft |
| WorkflowService.Service.DeleteWorkflow | backend/app/modules/workflows/service.py:127-132 | the row goes with its versions and their rows, other workflows' stay |
| WorkflowService.Service.NextVersionNumber | backend/app/modules/workflows/service.py:45-52 | one more than the highest number of this workflow, 1 if it has none |
| WorkflowService.Service.PersistGraphRows | backend/app/modules/workflows/service.py:55-78 | the version's rows are the graph's nodes and edges in order, positions truncated towards zero |
| WorkflowService.Service.Validate | backend/app/modules/workflows/service.py:155-158 | no errors if and only if the graph is well-formed |
| WorkflowService.Service.OpenPublication | backend/app/modules/workflows/service.py:145-158 | what the first part of publishing holds or refuses, in the order of the checks, with the validator's report on a refused graph; nothing is written |
| WorkflowService.Service.InsertVersion | backend/app/modules/workflows/service.py:162-181 | the whole new state after the last part, however the tables changed in between: a violated key leaves everything as it was; otherwise the version, its rows and the written attributes are all in place |
| WorkflowService.Service.PublishWorkflow | backend/app/modules/workflows/service.py:137-181 | the whole new state and answer in the order of the checks; a refused graph's errors are the validator's report on the chosen graph |
| WorkflowService.Service.RevertWorkflow | backend/app/modules/workflows/service.py:214-233 | the whole new state and answer: the stored graph is parsed and published again, validation included |
| WorkflowService.Service.GetVersionByNumber | backend/app/modules/workflows/service.py:198-211 | the one version with that number, or not found, also for another organization's workflow |
| WorkflowService.Service.DuplicateWorkflow | backend/app/modules/workflows/service.py:238-253 | a new draft with the source's description and draft but none of its versions |
| WorkflowService.Service.ArchiveWorkflow | backend/app/modules/workflows/service.py:258-267 | only the status changes; archiving twice is refused |
| WorkflowHistory.MaxOfContiguous | backend/app/modules/workflows/service.py:45-52 | with contiguous numbers MAX is the number the workflow row records |
| WorkflowHistory.NextIsFree | backend/app/modules/workflows/models.py:44 | a publisher that the unique key lets through holds the next number |
| WorkflowHistory.OneOfTwoPublishers | backend/app/modules/workflows/models.py:44 | of two publishers that read the same number exactly the one that inserts first gets through, and the other changes nothing |
| WorkflowHistory.FinishKeeps | backend/app/modules/workflows/service.py:162-181 | a publisher's last part, however late, keeps the tables in order |
| WorkflowHistory.OpenedIsOk | backend/app/modules/workflows/service.py:145-158 | what a publisher holds after loading and validating is consistent with the tables |
| WorkflowHistory.NumberedIsOk | backend/app/modules/workflows/service.py:160 | the number it reads later, from tables that have changed, is consistent with them and new to the row it loaded |
| WorkflowHistory.DeleteKeeps | backend/app/modules/workflows/service.py:127-132 | deleting one workflow leaves every other one's history in order |
| WorkflowRuns.ExecKeeps | backend/app/modules/workflows/service.py:83-267 | every operation by any organization keeps the invariant of the tables |
| WorkflowRuns.PublisherStands | backend/app/modules/workflows/service.py:145-181 | what others do meanwhile does not invalidate what a waiting publisher relies on |
| WorkflowRuns.StepKeeps | backend/app/modules/workflows/service.py:83-267 | every step of the interleaved system, parts of publications and registrations included, keeps the invariant |
| WorkflowRuns.EveryStateInOrder | backend/app/modules/workflows/service.py:45-52 | in every state of every interleaving the numbers are 1..n, the row records n and points at version n, draft only at n = 0, published only at n >= 1, every stored definition is valid and its rows are that graph's |
| WorkflowRuns.HistoryIsAppendOnly | backend/app/modules/workflows/service.py:162-170 | a version once stored is there unchanged as long as its workflow exists |
| WorkflowRuns.NumberIsTakenForGood | backend/app/modules/workflows/models.py:44 | over a whole run, a publisher that comes with a number that was ever published is turned away and changes nothing |
| WorkflowRuns.RegisterKeeps | backend/app/modules/workflows/nodes/registry.py:15-21 | the tables stay in order under a larger registry |
| WorkflowRuns.PublishSucceeds | backend/app/modules/workflows/service.py:137-181 | a valid graph is always published, as version n + 1, and becomes the active one |
| WorkflowRuns.RevertSucceeds | backend/app/modules/workflows/service.py:214-233 | reverting to any number 1..n is never refused and adds version n + 1 with the same definition |
| WorkflowRuns.EveryVersionCanBeRestored | backend/app/modules/workflows/service.py:214-233 | over a whole run: a version once stored can be restored at any later point its workflow exists, with the same definition, whatever happened in between |
| WorkflowLaws.CreateTakesEffect | backend/app/modules/workflows/service.py:83-96 | the new row, field by field, and nothing else |
| WorkflowLaws.GetAnswers | backend/app/modules/workflows/service.py:106-109 | the row to its owner and not found to everybody else |
| WorkflowLaws.ListAnswers | backend/app/modules/workflows/service.py:99-103 | exactly the organization's own workflows |
| WorkflowLaws.ListVersionsAnswers | backend/app/modules/workflows/service.py:186-195 | exactly the workflow's own versions, to its owner only |
| WorkflowLaws.GetVersionAnswers | backend/app/modules/workflows/service.py:198-211 | the version with that number, to its owner only |
| WorkflowLaws.UpdateTakesEffect | backend/app/modules/workflows/service.py:112-124 | given fields change, a definition becomes the draft, every other field and row stays |
| WorkflowLaws.ArchiveTakesEffect | backend/app/modules/workflows/service.py:258-267 | an archived row is archived and otherwise unchanged, and a second time is refused |
| WorkflowLaws.DuplicateTakesEffect | backend/app/modules/workflows/service.py:238-253 | a duplicate carries the source's description and draft and starts without versions |
| WorkflowLaws.DeleteTakesEffect | backend/app/modules/workflows/service.py:127-132 | a deleted workflow answers not found to everybody, its versions and rows are gone, and all others stay |
| WorkflowLaws.PublishDraftAnswers | backend/app/modules/workflows/service.py:137-181 | publishing without a graph: not found, no definition if and only if there is no draft, invalid, or published as the next version with the draft as its definition |
| WorkflowLaws.PublishGraphAnswers | backend/app/modules/workflows/service.py:137-181 | publishing a graph: not found, invalid, or published as the next version |
| WorkflowLaws.SaveThenPublish | backend/app/modules/workflows/service.py:112-181 | round trip: a graph saved as a draft is what a later publication without a graph publishes, clearing the draft, or refuses as invalid |
| WorkflowLaws.RevertAnswers | backend/app/modules/workflows/service.py:214-233 | reverting is refused if and only if the workflow is not the caller's or has no such number |
| WorkflowLaws.PublishInParts | backend/app/modules/workflows/service.py:137-181 | the three parts of a publication with nothing in between have the answer and the effect of the publication |
| WorkflowLaws.LateInsertWrites | backend/app/modules/workflows/service.py:174-178 | what a late insert writes, field by field, over a row that has changed since it was loaded |
| WorkflowLaws.TruncatesTowardsZero | backend/app/modules/workflows/service.py:65-66 | the integer is the one next to the position on the side of zero |
| WorkflowLaws.RowsMirrorDefinition | backend/app/modules/workflows/service.py:55-78 | in every state, the rows of a stored version say, field by field and in order, what its definition says |
| Tenancy.ExecLocal | backend/app/modules/workflows/service.py:37-42 | an operation's answer, and its effect on the caller's part of the tables, are those it would have on that part alone |
| Tenancy.ExecAgrees | backend/app/modules/workflows/service.py:83-267 | stores that agree on an organization's part give it the same answer and agree on its part afterwards |
| Tenancy.ExecLeavesOthers | backend/app/modules/workflows/service.py:37-42 | an operation changes nothing in another organization's part |
| Tenancy.StepAgrees | backend/app/modules/workflows/service.py:83-267 | a step on an organization's behalf, a publisher's parts included, has the same answer and effect in worlds that look the same to it |
| Tenancy.StepLeavesOthers | backend/app/modules/workflows/service.py:37-42 | a step on another's behalf changes nothing an organization can see |
| Tenancy.Noninterference | backend/app/modules/workflows/service.py:83-267 | over any interleaving, publishers between their parts included, dropping all other organizations' steps leaves a possible schedule and changes neither an answer an organization gets nor what it can see at the end |
| Sessions.StepKeeps | backend/app/modules/auth/service.py:260-315 | every step of every request keeps the session invariant |
| Sessions.HonouredOnce | backend/app/modules/auth/service.py:271-274 | in every interleaving a refresh token that was honoured is never accepted again, and none was honoured twice |
| Sessions.OneLiveKeyPerChain | backend/app/modules/auth/service.py:289-307 | in every interleaving each login's chain has at most one live session key |
| Sessions.MismatchUnreachable | backend/app/modules/auth/service.py:276-278 | the hash stored under a key is that of the one token ever issued for it, so a genuine token never meets the mismatch |
| Sessions.RotationHandsOver | backend/app/modules/auth/service.py:260-309 | an uninterrupted refresh kills the old token, makes the new one acceptable, stays in the chain, and touches no other key |
| Sessions.DeadIff | backend/app/modules/auth/service.py:271-307 | chains of a user are dead for good if and only if no stored key and no request under way holds one of them |
| Sessions.InvalidationIff | backend/app/modules/auth/service.py:445-447 | if all of a user's keys are deleted in one instant, all chains are dead for good if and only if none of the user's requests is under way |
| Sessions.EarlierTokensDead | backend/app/modules/auth/service.py:445-447 | in that case, with nothing under way, no token issued before is accepted after |
| Scans.ScanIff | backend/app/modules/auth/service.py:445-447 | in any run of the scan among other requests, it is safe at every instant (all old chains dead when it ends, unless a further refresh begins) if and only if at no instant a request under way holds a chain from before it |
| Scans.UndisturbedScanEndsAll | backend/app/modules/auth/service.py:445-447 | a scan during which no such request was under way ends all chains from before it for good, whatever else ran |
| Scans.OldRequestSurvives | backend/app/modules/auth/service.py:271-307 | from any instant with such a request under way the scan can end with an old chain alive |
| Scans.RefreshInsideSurvives | backend/app/modules/auth/service.py:445-447 | for any live key: a refresh wholly inside the scan leaves a token of the same chain that is accepted afterwards, although the scan is complete |
| Scans.AlwaysEndsAllIff | backend/app/modules/auth/service.py:445-447 | the scan ends all chains whatever runs beside it if and only if the user has neither a stored key nor a request under way |
| Scans.UndisturbedScan | backend/app/modules/auth/service.py:445-447 | with nothing in between, the scan deletes exactly the user's keys, as if in one instant |
| ApiClient.Interceptor.HandleResponse | frontend/src/lib/api/client.ts:43-62 | the whole new state: only a first 401 from a non-auth address waits, and it starts a refresh only if none is under way |
| ApiClient.Interceptor.HandleRefreshed | frontend/src/lib/api/client.ts:34-40 | the whole new state: token and cookie replaced or the access token dropped, and the shared promise cleared |
| ApiClient.Interceptor.HandleResume | frontend/src/lib/api/client.ts:64-71 | the whole new state: sent once more after a granted refresh, rejected otherwise |
| ClientAndServer.LoginStartsInStep | backend/app/modules/auth/router.py:81-98 | every login leaves client and server in step |
| ClientAndServer.EventKeeps | frontend/src/lib/api/client.ts:25-73 | every event of client, server and other users keeps the two in step |
| ClientAndServer.RefreshCarriesLatest | frontend/src/lib/api/client.ts:57-62 | every refresh on its way carries the most recently signed token, and the server accepts it |
| ClientAndServer.OneRefreshInFlight | frontend/src/lib/api/client.ts:57-64 | for any number of concurrent 401s at most one refresh is in flight, and none is ever denied |
| ClientRuns.SentAtMostTwice | frontend/src/lib/api/client.ts:48-68 | whatever surrounds the client (refreshes denied, other tabs, logouts, lost responses), every request is sent at most twice, and twice only if an earlier event of the run answered it with 401 |
| ClientRuns.ResponseAnswers | frontend/src/lib/api/client.ts:43-64 | a response ends a request by its status, unless it is a first 401 for a resource, which waits for the one refresh |
| ClientRuns.RefreshAnswers | frontend/src/lib/api/client.ts:27-41 | a grant replaces cookie and access token, a denial drops the access token, and either frees the next refresh |
| ClientRuns.ResumedIffGranted | frontend/src/lib/api/client.ts:64-71 | over every run: a resumed request is on the wire a second time if and only if the refresh it awaited was granted, and is rejected unsent otherwise |
| ClientRuns.RetryRoundTrip | frontend/src/lib/api/client.ts:43-73 | round trip: 401, granted, sent again, 200 leaves the request resolved after exactly two sends, with the new token |
| ClientAndServer.ResumedIsSentAgain | frontend/src/lib/api/client.ts:64-68 | over every run of client and server: whenever a waiting request goes on, it goes out a second time |
| ClientAndServer.RejectedByAnswer | frontend/src/lib/api/client.ts:48-71 | over every run of client and server: a request is rejected only by an answer of its own, never for want of a refresh nor by a first 401 |
| Accounts.GrantedIff | backend/app/modules/auth/service.py:186-218 | a login is granted exactly to the right password of an active, verified account that names one of its organizations or has at most one, and for that organization |
| AuthService.Service.GetUserByEmail | backend/app/modules/auth/service.py:68-72 | the user with that address in any case of letters, if there is one |
| AuthService.Service.FindToken | backend/app/modules/auth/service.py:347-354 | the unused row with that token's hash, if there is one |
| AuthService.Service.RegisterUser | backend/app/modules/auth/service.py:145-178 | the whole new state of accounts and organizations: taken address, verified because the invitation was accepted, or a new verification token |
| AuthService.Service.LoginUser | backend/app/modules/auth/service.py:183-255 | the whole new state and answer; a session is started exactly when the decision grants one |
| AuthService.Service.Refresh | backend/app/modules/auth/service.py:260-309 | the whole new state and answer; the key is gone even when the account turns out disabled |
| AuthService.Service.LogoutSession | backend/app/modules/auth/service.py:314-315 | exactly this session's key is deleted |
| AuthService.Service.Verify | backend/app/modules/auth/service.py:346-363 | the whole new state and answer for missing, expired and good tokens |
| AuthService.Service.RetireUnused | backend/app/modules/auth/service.py:377-382 | every unused token of the user, and no other row, becomes used |
| AuthService.Service.Resend | backend/app/modules/auth/service.py:368-392 | the whole new state: nothing for unknown or verified addresses, otherwise old tokens retired and one new |
| AuthService.Service.Forgot | backend/app/modules/auth/service.py:397-421 | the whole new state: nothing for unknown or disabled accounts, otherwise old tokens retired and one new |
| AuthService.Service.ForgetSessions | backend/app/modules/auth/service.py:445-447 | with nothing in between, the scan deletes every session key of the user and no other |
| AuthService.Service.Reset | backend/app/modules/auth/service.py:426-447 | the whole new state and answer: password changed, token used up, sessions gone |
| AccountRuns.EveryStateInOrder | backend/app/modules/auth/service.py:346-447 | in every state each user has at most one unused reset and one unused verification token, all hashes and addresses differ, and the sessions are in order |
| AccountRuns.VerifiedForGood | backend/app/modules/auth/service.py:361 | over every run, a verified user stays verified |
| AccountRuns.VerificationTokenWorksOnce | backend/app/modules/auth/service.py:346-363 | a verification token that worked is answered with not found ever after |
| AccountRuns.ResetTokenWorksOnce | backend/app/modules/auth/service.py:426-443 | a reset token that worked is answered with not found ever after |
| AccountRuns.ResetEndsEarlierSessions | backend/app/modules/auth/service.py:426-447 | with service calls one at a time, after a reset no refresh token issued to that user before is ever accepted |
| AccountRuns.VerifiedBecause | backend/app/modules/auth/service.py:145-178 | over every run: a verified account was registered with an accepted invitation, or presented a token that an earlier call had mailed to its address at most 24 hours before |
| AccountRuns.PasswordChangedBecause | backend/app/modules/auth/service.py:397-443 | over every run: a password that is not what it was is the one given, in between, with a token that an earlier call had mailed to the account's address at most an hour before |
| Registration.ExecParts | backend/app/modules/auth/service.py:145-178 | a registration does to the accounts and to the organizations what its two parts do to each |
| Registration.LoginIff | backend/app/modules/auth/service.py:75-218 | over both tables: who may log in gets a token if and only if the organization asked for is active and has the user as a member, or none is asked for and there is at most one such organization; with several, and none asked for, the user has to pick |
| RegistrationRuns.BornVerifiedIff | backend/app/modules/auth/service.py:160-165 | an account is born verified if and only if the same call made it a member with the invited role; otherwise nothing changes for organizations |
| RegistrationRuns.AddressProvenIff | backend/app/modules/auth/service.py:99-165 | over every run: a verified account has presented, in time, a token made out to its own address if and only if it was not registered with an open invitation to another address |
| RegistrationRuns.UnprovenAddress | backend/app/modules/auth/service.py:113-127 | a concrete run of seven calls, every caller of an organization signed in, ends with a verified address to which no call of the run made out a token |
| AccountRuns.ResendThenVerify | backend/app/modules/auth/service.py:346-392 | round trip: a resent token verifies its account for exactly 24 hours, and every earlier token of the account is dead |
| AccountRuns.ForgotThenReset | backend/app/modules/auth/service.py:397-447 | round trip: a reset token sets the password for exactly one hour, and every earlier reset token of the account is dead |
| AccountLaws.RegisterAnswers | backend/app/modules/auth/service.py:145-178 | refused exactly for an address that an account has in any case of letters; otherwise one more account and, if it is not verified, one token |
| AccountLaws.VerifyAnswers | backend/app/modules/auth/service.py:346-363 | not found, expired or verified, by whether there is an unused row and its time; only that user and that row change |
| AccountLaws.ResetAnswers | backend/app/modules/auth/service.py:426-447 | likewise, with the password set, the user's keys gone and nobody else's |
| AccountLaws.ResendAnswers | backend/app/modules/auth/service.py:368-392 | a new token for an unverified account with the address, and otherwise nothing |
| AccountLaws.ForgotAnswers | backend/app/modules/auth/service.py:397-421 | a new token for an active account with the address, and otherwise nothing |
| AccountLaws.LoginAnswers | backend/app/modules/auth/service.py:183-255 | a granted login returns a new token of that user, accepted from then on, and touches no other key; any other changes nothing |
| AccountLaws.LoginRefusals | backend/app/modules/auth/service.py:191-198 | which wrong or missing piece is answered how, and that right credentials of one organization at most are let in |
| AccountLaws.RefreshAnswers | backend/app/modules/auth/service.py:260-309 | reused exactly if the token is not accepted, disabled exactly if it is but the account is not active, and otherwise a new token that is accepted; without one nothing is issued and keys only go |
| AccountLaws.IssuedToActive | backend/app/modules/auth/service.py:206-309 | over every run: every refresh token was the answer to a login or refresh of an account active at that moment |
| AccountLaws.NothingWhileDisabled | backend/app/modules/auth/service.py:280-284 | over every run: an account gets no token while it is disabled |
| AccountLaws.LogoutAnswers | backend/app/modules/auth/service.py:314-315 | exactly that session ends |
| AccountLaws.RegisterVerifyLogin | backend/app/modules/auth/service.py:145-255 | round trip: a login is refused until the address is verified, and afterwards let in with the chosen password and no other |
| Basics.LowerIff | backend/app/modules/auth/service.py:68-72 | two addresses are the same in lower case if and only if they differ at most in their capitals |
| AccountRuns.CallKeepsSessions | backend/app/modules/auth/service.py:183-315 | the session effect of every service call is a run of the session protocol that leaves nothing under way |
| RateLimit.RateLimiter.CheckRateLimit | backend/app/core/rate_limit.py:9-41 | disabled, it admits and changes nothing; enabled, it leaves every other key's window alone and changes this one by trim, insert, count and expiry |
| RateLimit.ScoresAreRecent | backend/app/core/rate_limit.py:31-35 | after any sequence of attempts the set holds exactly the timestamps still in the last attempt's window |
| RateLimit.AdmittedIff | backend/app/core/rate_limit.py:38-41 | an attempt is admitted if and only if its window holds at most `limit` distinct timestamps |
| RateLimit.ExpiryIsInvisible | backend/app/core/rate_limit.py:35 | the limiter with key expiry and the one without hold the same set after every sequence |
| RateLimit.WindowBound | backend/app/core/rate_limit.py:31-41 | for any times that do not decrease: admitted attempts lying less than a window apart have at most `limit` different timestamps |
| RateLimit.InstantBound | backend/app/core/rate_limit.py:31-41 | for any times that do not decrease: in any half-open interval of one window's length attempts are admitted at `limit` instants at most |
| RateLimit.IntervalBound | backend/app/core/rate_limit.py:31-41 | with increasing times at most `limit` attempts are admitted in it |
| RateLimit.CountsAttemptsIff | backend/app/core/rate_limit.py:33 | the limiter counts attempts, for all limits, if and only if the timestamps in the window differ |
| RateLimit.AdmittedIffFewAttempts | backend/app/core/rate_limit.py:27-41 | with increasing times an attempt is admitted if and only if at most `limit` attempts, refused ones included, lie in the window |
| RateLimit.SameInstantSlipsThrough | backend/app/core/rate_limit.py:33 | two attempts at one instant both pass a limit of one |
| RateLimit.SilenceIsRewarded | backend/app/core/rate_limit.py:39-41 | after a silence of the advertised length an attempt is admitted if and only if the limit is at least one |
| OrganizationService.Service.SelectMember | backend/app/modules/organizations/service.py:148-154 | the membership of that user in that organization, if there is one |
| OrganizationService.Service.SelectOpenInvitation | backend/app/modules/organizations/service.py:326-333 | the unaccepted, unexpired invitation with that token's hash, if there is one |
| OrganizationService.Service.RequireOrgRole | backend/app/modules/organizations/dependencies.py:23-72 | the caller's own row in the token's organization if that is active and the rank suffices, otherwise the first failing check |
| OrganizationService.Service.CreateOrganization | backend/app/modules/organizations/service.py:59-81 | the whole new state: a taken slug changes nothing, otherwise the creator owns the new organization |
| OrganizationService.Service.DeleteOrganization | backend/app/modules/organizations/service.py:117-130 | the whole new state: members and invitations go with the organization, only on the right confirmation |
| OrganizationService.Service.ChangeRole | backend/app/modules/organizations/service.py:160-189 | the whole new state: only the target's role changes, only to a rank below the caller's |
| OrganizationService.Service.Remove | backend/app/modules/organizations/service.py:192-209 | the whole new state: exactly the target's row goes, never an owner's |
| OrganizationService.Service.Transfer | backend/app/modules/organizations/service.py:212-240 | the whole new state, also when both roles meet in one row |
| OrganizationService.Service.InviteTo | backend/app/modules/organizations/service.py:260-293 | the whole new state: refused while an invitation of that address is pending, otherwise one new row for 48 hours |
| OrganizationService.Service.RevokeInvitation | backend/app/modules/organizations/service.py:296-313 | the whole new state: only an invitation of the organization is deleted |
| OrganizationService.Service.AcceptInvitation | backend/app/modules/organizations/service.py:316-358 | the whole new state and answer, in the order of the checks |
| OrganizationService.Service.AcceptWhileRegistering | backend/app/modules/auth/service.py:99-129 | the whole new state and answer: no address check, and every obstacle is "not accepted" |
| OrganizationService.Service.Handle | backend/app/modules/organizations/router.py:48-229 | every endpoint: guard, then schema, then path, then service, with the whole new state |
| OrganizationRuns.ExecKeeps | backend/app/modules/organizations/service.py:59-358 | every guarded call keeps the invariant |
| OrganizationRuns.EveryStateInOrder | backend/app/modules/organizations/service.py:59-358 | in every state at most one membership per organization and user, one owner per organization, one pending invitation per organization and address |
| OrganizationRuns.OwnershipComesFrom | backend/app/modules/organizations/service.py:212-240 | a row becomes an owner's only in a new organization or by the owner's own transfer |
| OrganizationRuns.OwnerLostIff | backend/app/modules/organizations/service.py:160-189 | a call costs a standing organization its one owner if and only if it is a role change aimed at the owner that the guards let through |
| OrganizationRuns.ExactlyOneOwnerIff | backend/app/modules/organizations/service.py:160-240 | in every state of every run a standing organization has exactly one owner if and only if no such call has been let through since |
| OrganizationRuns.OwnerlessForGood | backend/app/modules/organizations/service.py:160-240 | an organization without an owner never gets one again |
| OrganizationRuns.OwnerCanBeLost | backend/app/modules/organizations/service.py:178-184 | a concrete run of two calls ends in a standing organization without an owner |
| OrganizationRuns.TransferHandsOver | backend/app/modules/organizations/service.py:212-240 | a transfer makes the new owner owner and the caller admin and changes no other row; to oneself it changes nothing |
| OrganizationLaws.BelowIff | backend/app/modules/organizations/models.py:12-19 | the ranks order the roles as owner, admin, manager, analyst, employee, viewer |
| OrganizationLaws.GuardIff | backend/app/modules/organizations/dependencies.py:23-72 | a guard admits exactly the members of the active organization with one of the roles from its minimum upwards |
| OrganizationLaws.RefusedChangesNothing | backend/app/modules/organizations/service.py:59-358 | whoever is refused changes nothing |
| OrganizationLaws.UpdateMemberIff | backend/app/modules/organizations/service.py:160-189 | done if and only if the caller is admitted, the target is a member and the role asked for is not the owner's and below the caller's; then the target has exactly that role and nothing else changes |
| OrganizationLaws.RemoveMemberIff | backend/app/modules/organizations/service.py:192-209 | done if and only if the caller is admitted and the target is a member but not the owner; then the target is no member any more and nothing else changes |
| OrganizationLaws.TransferIff | backend/app/modules/organizations/service.py:212-240 | done if and only if the caller is the owner and the new owner a member, with the role of every row afterwards |
| OrganizationLaws.CreateIff | backend/app/modules/organizations/service.py:59-81 | done if and only if the slug is free; then the creator owns the new organization |
| OrganizationLaws.SetActiveIff | backend/app/modules/organizations/service.py:94-114 | done if and only if the caller is admitted; then only that flag changes |
| OrganizationLaws.DeleteIff | backend/app/modules/organizations/service.py:117-130 | done if and only if the owner gives the right confirmation; then its members and invitations are gone and all others stay |
| OrganizationLaws.InviteIff | backend/app/modules/organizations/service.py:260-293 | done if and only if the caller is admitted, the role is not the owner's and no invitation to that address is waiting; then there is exactly the invitation asked for |
| OrganizationLaws.RevokeIff | backend/app/modules/organizations/service.py:296-313 | done if and only if the caller is admitted and the invitation is one of the organization; then exactly it is gone |
| OrganizationLaws.AcceptIff | backend/app/modules/organizations/service.py:316-358 | on both paths: done if and only if the invitation is presented in time by somebody who is not a member yet, under its address if he is signed in; then exactly the invited membership is there |
| Memberships.ChangedBecause | backend/app/modules/organizations/service.py:160-240 | over every run: a membership that is not what it was was first changed from within its own organization, by a manager or above to a role below his own or by removal of a non-owner, or by the owner transferring or deleting; and the row then became what that call asked for |
| Memberships.InviteThenAccept | backend/app/modules/organizations/service.py:260-358 | round trip: the recipient's answer, in the order of the checks, and the membership with exactly the invited role, for exactly 48 hours |
| Memberships.SentBy | backend/app/modules/organizations/service.py:282-291 | every invitation is as some earlier call of the run sent it |
| Memberships.AcceptedAsSent | backend/app/modules/organizations/service.py:350-355 | a successful acceptance, by either path, adds one membership in the organization and with the role of the call that sent the token, within 48 hours of it |
| Memberships.InvitationWorksOnce | backend/app/modules/organizations/service.py:326-335 | an accepted token is refused ever after, whichever of the two paths it is presented on |
| Memberships.RevokedForGood | backend/app/modules/organizations/service.py:296-313 | a revoked invitation's token is refused ever after |
| Memberships.JoinedOncePerInvitation | backend/app/modules/auth/service.py:123-127 | over a run no invitation gives rise to two memberships |
| Memberships.MembershipBecause | backend/app/modules/organizations/service.py:77-78 | over every run: every member created the organization, or accepted, in time and with the invited role, an invitation to it that an earlier call had sent |
| Slug.WholeIsOnePass | backend/app/modules/organizations/service.py:50-53 | the chain of replacements is equal to one pass that keeps letters and digits and joins them by one dash where a space or dash stood between |
| Slug.SlugIsOnePass | backend/app/modules/organizations/service.py:50-54 | a slug is the first hundred characters of the single pass, or "org" if it has none |
| Slug.SlugShape | backend/app/modules/organizations/service.py:50-54 | a slug has 1 to 100 characters of [a-z0-9-], no dash in front and no two in a row |
| Slug.SlugOfSlugIff | backend/app/modules/organizations/service.py:50-54 | a slug is its own slug if and only if the cut at 100 did not leave a dash at the end |
| Slug.CutAtDashHappens | backend/app/modules/organizations/service.py:54 | a concrete name whose slug is not its own slug |
| Slug.SchemaAcceptsIff | backend/app/modules/organizations/schemas.py:35-43 | a slug made from a name meets the schema for given slugs if and only if it has three characters and was not cut at a dash |

## Left out

- Routing, request parsing beyond the role validators, middleware, logging, error envelopes, e-mail delivery: plumbing.
- Database sessions, commit and rollback: every service call is one atomic step, except publishing (load, read the maximum,
  insert), refresh and login (take, sign, store), and the scan that deletes sessions. Neither the workflow router nor the
  authentication router commits, so durability is not stated: the runs are of service calls whose caller commits.
- Order of listed rows, timestamps such as `created_at`, department assignments, plan and settings of organizations.
- A node without an `id`, or an edge without `source` or `target`, makes the validator raise KeyError; here these keys are
  always present, as the API's schema ensures.
- Which organization a refreshed access token is for: the list of memberships has no order, and access tokens are not modelled.
- Key expiry of sessions is a step that may happen at any time; signed tokens' own expiry and clock are not modelled.
- In the browser, a lost response, a second tab and a reload are part of `ClientRuns` only: what is said of client and server
  together is said of one tab whose responses arrive.
- Accounts whose rows are deleted, and OAuth accounts.
- JSONPath lookup in a condition node: the value found is arbitrary. Configurations of nodes are opaque JSON.
- Departments, API keys, profile updates, list endpoints of organizations: single-branch table reads and writes.
- The recursion limit of the search, VARCHAR lengths, floating-point rounding other than truncating positions.
- The execution engine, scheduler, analytics, files, notifications and the user interface: stubs or presentation.
