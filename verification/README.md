# Verification of the PartnerOS foundation layer

A Dafny model of the parts of PartnerOS that everything else stands on, with proofs of what they
promise. `dafny verify dfyconfig.toml` checks the whole project.

## What is modelled

**The mutation gate** (`GateSpec`, `GateProtocol`, `GateTheorems`, `GateLimit`, `Asks`,
`MutationGate`). Any number of
`runMutation` calls are in flight; each check, insert, read, handler run and commit is one step, and
a call may abort at any of them, or lose the acknowledgement of a commit that took effect. Committed
rows are shared; a transaction's own writes are not. What `ON CONFLICT DO NOTHING` does when it meets
another transaction's uncommitted row is a parameter:
`Waiting` waits for that transaction to end, `Eager` reports a conflict at once. Everything about
safety is proved for both. The retention sweep may delete completed ledger rows at any time. The
reference is a sequential gate given as a history of events; every run refines it. `GateLimit` adds
the shared limiter and its clock to the concurrent gate. The class `Gate` is the same call
uninterrupted, over mutable tables and the rate limiter object.

**The form** (`MutationForm`, `FormBound`, `FormAge`). The browser component that keeps its idempotency token
until it has seen a success, on a network that may lose, delay, duplicate or never deliver anything,
in front of the concurrent gate shared with everybody else. Its effect also runs again when only the
success message changes. All of it is about the submits of one session in one workspace: the ledger
is keyed by tenant and token, so a token retried after a switch of workspace is another form's there,
and the bounds hold of each workspace by itself. `FormAge` adds the clock.

**Tenant isolation** (`RowSecurity`, `TenantIsolation`, `References`, `HomeReferences`,
`HomeRuns`).
Transactions of many tenants interleave on reused connections; role and settings are local to a
transaction and read back empty afterwards; every statement goes through the row-level security
predicate. Primary and foreign keys do not: they are checked over the rows of all tenants, and a
delete cascades, sets references to null or is refused across tenants. Statements wait for the rows
and referenced rows that other open transactions hold. A callback chooses each statement from what
it was given back so far.

**Rate limiting** (`RateLimit`) and the loop that lives with it (`GenerateAll`).

**The fetch pool and the listing** (`PartnerCentral`). Four cooperative workers over one cursor and
one map, under every order in which responses can arrive.

**Identity provisioning** (`Provision`, `ProvisionTheorems`). The OIDC, SAML and agency transactions
over users, invitations and workspaces, one after another, with the rest of the system's writes to
those tables as environment steps.

**Racing logins**, statement by statement: `FirstLogin` for first development logins, `LoginRace` for
OIDC and SAML logins of any identities in production, `Rivals` for what racing identities can take
from each other, `OneIdentity` for many logins of one identity, `LoneLogin` for one that nobody disturbs.

**Migrations** (`Migrate`), **dates** (`Dates`), **list shaping** (`ListView`) and **list links**
(`Links`, over the UTF-16 strings of `Utf16`), with `Sorting` and `Strings` for the orders they use.

## What the proofs found

- The gate's "Request already in progress" answer is unreachable, whichever way the insert treats an
  uncommitted conflict: every committed ledger row is complete
  (`GateTheorems.InProgressUnreachable`). An insert that did not wait would turn callers away with
  the "not ours" answer although nothing was deleted (`GateTheorems.EagerLoserMayBeTurnedAway`); with
  one that waits nobody is turned away so unless the sweep deleted a row of its key
  (`GateTheorems.NotOursMeansPruned`).
- A browser that saw n successes may face more than n + 1 executions. The plain bound holds from any
  reachable state on exactly when no ledger row of the form's tokens was deleted so far and no token
  that went out was replaced because the success message changed (`FormBound.BoundHoldsExactly`); one
  deletion suffices to break it (`FormBound.OneDeletionSuffices`, and a run from the start in
  `FormBound.DeletionBreaksBound`), and so does one changed message after a success
  (`FormBound.OneMessageSuffices`). Executions are always the deleted rows and the kept ones together
  (`MutationForm.SuccessesMatchExecutions`). Until a form is older than the retention period the sweep
  cannot touch its rows, and the plain bound holds (`FormAge.YoungFormKeepsBound`).
- A failure reported to a caller may hide an execution only when the acknowledgement of the commit was
  lost (`GateTheorems.RefusalLeavesNoTrace`, `GateTheorems.OwnersAreTheExecuted`). All theorems about
  runs cover that action and keep their form; a retry then replays (`MutationGate.SecondCallReplays`).
- Row-level security hides neither ids nor references. An insert is refused when an unseen row has its
  id, a reference is accepted when an unseen row is there to be named, and a delete reaches the rows of
  other tenants that refer to it (`RowSecurity.WritesOwnExactly`). The presence of other tenants goes
  unnoticed exactly while no step meets them: by an id taken, or a referenced row present, with or
  without them only; by a delete that depends on their rows; by a wait needed only without them; or by
  a commit of theirs that changed a row through a reference (`TenantIsolation.NoninterferenceExactly`).
- Most operations look a row up in the tenant before they refer to it (src/domain/ace/operations.ts:46-56
  is one such check). Where all references are of that kind, only an inserted id can tell
  (`HomeRuns.HomeReferencesTellNothing`). The opportunity of a logged interaction is not looked up
  (src/domain/ace/operations.ts:330-346, src/domain/ace/actions.ts:281-300): naming another tenant's
  opportunity succeeds, and fails without that tenant, though no id is ever taken
  (`References.ReferenceTells`).
- In every interleaving, references name rows that are there (`References.ReferencesHold`).
- A limiter configured with a maximum below one still admits the first call of every window; the
  rate bound holds exactly from a maximum of one on (`RateLimit.RateBoundHoldsFromOne`).
- Going n months forward and n back returns the date exactly when its day exists in the month it
  passes through (`Dates.MonthsReturnIffDayFits`).
- No index keeps an identity provider's subject to one user over all workspaces. Logins run one
  after another keep it so (`ProvisionTheorems.UniqueInEveryRun`); concurrent logins of one identity
  do exactly when its first two offers, placeholders by age and then invitations by age, cannot both be
  taken up in two workspaces (`OneIdentity.OneUserExactly`).
- Binding a placeholder does not ask whether it still is one. Racing logins overwrite a committed
  binding only when two of them name one placeholder under different subjects
  (`Rivals.NoRivalsNoOverwrite`), and, where each racer's query may at the start return every placeholder
  it names, exactly then (`Rivals.BindingsStayExactly`). Accepting an invitation does not ask whether it
  is still pending: it is accepted twice only when two racers can join by it under different subjects and
  textually different addresses (`Rivals.NoRivalsAcceptOnce`), and, where no racer has a placeholder and
  each one's query may return every invitation it can join by, exactly then
  (`Rivals.AcceptancesStayExactly`).
- Different subjects share a development workspace exactly when their workspace names are equal
  (`ProvisionTheorems.SharedExactly`), and different subjects can have equal names
  (`ProvisionTheorems.SlugsCollide`).
- A string survives a link exactly when it has no unpaired surrogate (`Links.UnitsSurviveExactly`).
- `ensureAgencyServiceUser` returns the agency's user whatever its status or role
  (`ProvisionTheorems.ServiceUserIsStable`); the two login paths reject a disabled user.
- In `GenerateAllResponses` a control counts as done when its response was drafted; the write-back of
  the draft is best effort in the action, so "done" is about drafting.

## Model

| member | source | states |
|---|---|---|
| GateSpec.LedgerIsFirstSuccess | src/gate/mutation-gate.ts:111-157 | the ledger of a legal history maps each (tenant, key) to the hash and response of the first success since the key was last deleted |
| GateSpec.CommittedRowsAreComplete | src/gate/mutation-gate.ts:182-195 | every committed ledger row carries a completed 200 response |
| GateSpec.EffectsAreExecutions | src/gate/mutation-gate.ts:159-160 | the committed handler effects of a key are its executions in the history |
| GateSpec.EffectsHaveEvents | src/gate/mutation-gate.ts:159-180 | each committed effect is that of one executing call, in order, which was permitted and within its size limit |
| GateSpec.ExactlyOnce | src/gate/mutation-gate.ts:111-160 | executions of a key equal its deletions, plus one while it is in the ledger |
| GateSpec.AuditMirrorsEffects | src/gate/mutation-gate.ts:162-180 | audit rows are the images of the committed effects, one each and in order, acting-as stamp included |
| GateSpec.AuditFields | src/gate/mutation-gate.ts:162-180 | each committed audit row names workspace, actor, action, resource and resource id of the effect beside it, with the request's metadata under the two keys of an agency operator |
| GateSpec.ReplayIsTheWinner | src/gate/mutation-gate.ts:142-154 | a replay returns the stored status and body of the key's winner at that moment, whose body hash was the same |
| GateProtocol.NextKeepsInv | src/gate/mutation-gate.ts:87-197 | every step of every call, a lost acknowledgement included, keeps the protocol invariant: the store is the fold of the history, no two open transactions hold a key, buffers match phases, finished calls are accounted for |
| GateProtocol.CommitKeepsInv | src/gate/mutation-gate.ts:111-197 | acknowledged or not, publishing a transaction's buffer is one execution of the sequential gate |
| GateProtocol.ConflictAnswer | src/gate/mutation-gate.ts:125-157 | the conflict read meets no row or a completed one, and answers as the sequential gate does |
| GateProtocol.PruneKeepsInv | src/domain/retention/operations.ts:35-41 | deleting completed ledger rows keeps the invariant |
| GateTheorems.EveryRunIsSequential | src/gate/mutation-gate.ts:83-197 | refinement: in commit order each concurrent run is a run of the sequential gate, and each success a caller got is its own, only event there |
| GateTheorems.ExactlyOnceInEveryRun | src/gate/mutation-gate.ts:111-197 | in every interleaving with aborts, effects of a key are its deletions plus one while it is in the ledger, and audit rows match effects one to one |
| GateTheorems.EffectsMatchLedger | src/gate/mutation-gate.ts:111-197 | while nothing is deleted, no two effects share a key and the keys with an effect are exactly the ledger's |
| GateTheorems.ReplayReturnsStoredResponse | src/gate/mutation-gate.ts:147-154 | a replayed reply is the stored reply of an earlier execution of the same key and body by another call |
| GateTheorems.ChecksGuardEffects | src/gate/mutation-gate.ts:87-97 | in every reachable state each committed effect is of a permitted call within its size limit, which was given the effect's result or lost its acknowledgement |
| GateTheorems.RefusalsMeanWhatTheySay | src/gate/mutation-gate.ts:90-97 | in every reachable state a call was refused for permission exactly when it had none and for size exactly when its body was over its limit or a million bytes, failures apart |
| GateLimit.ExecutionsAreLimited | src/gate/mutation-gate.ts:99-105 | under any interleaving at most twice the maximum of the calls one user in one workspace made in any interval of a window's length execute, however late |
| GateLimit.LimitedExactly | src/gate/mutation-gate.ts:99-105 | a call is answered "too many requests" exactly when the limiter refused it, with the seconds reckoned from the end of its window, and then never executes |
| GateTheorems.OwnersAreTheExecuted | src/gate/mutation-gate.ts:83-197 | in every reachable state the calls that own effects are exactly those that succeeded afresh or lost the acknowledgement, and no call owns two |
| GateTheorems.InProgressUnreachable | src/gate/mutation-gate.ts:155-156 | the "already in progress" answer is never given |
| GateTheorems.WaitingLoserIsAnswered | src/gate/mutation-gate.ts:125-154 | with a waiting insert a loser finds the winner's row unless retention deleted it; it is replayed exactly when its body is the winner's and refused otherwise |
| GateTheorems.NotOursMeansPruned | src/gate/mutation-gate.ts:138-141 | with a waiting insert, in every reachable state a call that was answered "not ours" had a row of its key deleted by the sweep, so without deletions there is none |
| GateTheorems.EagerLoserMayBeTurnedAway | src/gate/mutation-gate.ts:138-141 | with a non-waiting insert a run without deletions ends in the "not ours" answer |
| GateTheorems.RefusalLeavesNoTrace | src/gate/mutation-gate.ts:87-105 | in every reachable state a call that was refused, turned away or failed owns no effect and no audit row, never executed and holds nothing; a lost acknowledgement is the one exception |
| GateTheorems.RetryCanSucceed | src/gate/mutation-gate.ts:111-197 | from any state where the key is in neither the ledger nor an open transaction, a retry executes and commits |
| GateTheorems.AbortedKeyCanBeRetried | src/gate/mutation-gate.ts:198-211 | aborting the transaction that holds a key lets the next call execute it |
| GateTheorems.WaitersAreNotDeadlocked | src/gate/mutation-gate.ts:113-123 | a call that cannot claim waits for a transaction that can go on to commit |
| GateTheorems.CallsAreBounded | src/gate/mutation-gate.ts:83-197 | no call takes more than eight steps after it arrives |
| MutationGate.Gate.RunMutation | src/gate/mutation-gate.ts:83-212 | forbidden exactly without permission, too large exactly over the limit, limited exactly when the caller's open window is full and then for the least seconds until it ends, all without effect; otherwise the stored answer of a used token, or handler, audit row and ledger row together or not at all |
| MutationGate.Gate.Transaction | src/gate/mutation-gate.ts:111-197 | the transaction body: claim, conflict read, handler, audit row, stored response, in that order |
| MutationGate.AloneMeans | src/gate/mutation-gate.ts:83-197 | the sequential meaning spelled out: each check's refusal, the limiter's, the stored answer of a used token, and what a fresh execution adds to the tables |
| MutationGate.Serve | src/gate/mutation-gate.ts:99-105 | of the calls one user in one workspace makes in any half-open interval of a window's length, one after another, at most twice the maximum execute |
| MutationGate.AloneIsSequential | src/gate/mutation-gate.ts:83-197 | an uninterrupted call either appends the one legal event that explains its store and outcome, or changes nothing |
| MutationGate.SecondCallReplays | src/gate/mutation-gate.ts:147-154 | repeating a call that executed, acknowledged or not, returns the first execution's body as a replay and leaves the store alone |
| MutationForm.Component.Submit | src/components/ui/MutationForm.tsx:82-98 | sends the fields with the current token, and nothing while a request is pending |
| MutationForm.Component.StateChanged | src/components/ui/MutationForm.tsx:48-58 | a success rotates the token; any other answer keeps it |
| MutationForm.Component.MessageChanged | src/components/ui/MutationForm.tsx:48-58 | the same effect run for a changed message rotates the token exactly when the latest action state was a success |
| MutationForm.MoveKeepsInv | src/components/ui/MutationForm.tsx:45-58 | every move of form, network and gate keeps: every replaced token was executed or is among the lost, and no later token has left the browser |
| MutationForm.SuccessMeansExecuted | src/gate/mutation-gate.ts:147-197 | a success shown to anyone means its key has been executed |
| MutationForm.ExecutedTokensWereDrawn | src/components/ui/MutationForm.tsx:46-50 | executions with this form's tokens used one it had already drawn |
| MutationForm.SuccessesMatchExecutions | src/components/ui/MutationForm.tsx:45-58 | end to end, successes seen <= committed executions == deleted rows + kept rows of the form's tokens, and executions <= successes + 1 exactly when deletions fit the tokens neither kept nor lost |
| FormBound.BoundHoldsExactly | src/components/ui/MutationForm.tsx:45-58 | from any reachable state the plain bound holds in all continuations without a disturbing move exactly when no row of the form was deleted and no lost token is on an admissible request that went out |
| FormBound.UndisturbedRunKeepsBound | src/components/ui/MutationForm.tsx:45-58 | a run in which no row of the form is deleted and no message changes after a success keeps successes <= executions <= successes + 1 |
| FormBound.OneDeletionSuffices | src/domain/retention/operations.ts:35-41 | wherever a row of the form's tokens can be deleted, deleting it leads on to a world beyond the bound |
| FormBound.DeletionBreaksBound | src/domain/retention/operations.ts:35-41 | submit, execute, give up, delete the row, submit again, execute: two executions and no success seen, under either reading of the insert |
| FormBound.OneMessageSuffices | src/components/ui/MutationForm.tsx:45-58 | after any success shown, a submit and then a changed message lead on to a world beyond the bound, with nothing deleted |
| FormBound.SuccessIsShown | src/components/ui/MutationForm.tsx:45-58 | submit, execute, deliver: one success seen, the token replaced, none lost |
| FormAge.YoungFormKeepsBound | src/domain/retention/operations.ts:23-41 | whatever happened before, a form that has sent nothing yet keeps successes <= executions <= successes + 1 for the seven days of the retention, unless its message changes after a success |
| TenantIsolation.Connection.WithTenant | src/db/client.ts:56-77 | the wrapper runs the callback as the restricted role with the identity's settings, each statement doing and answering what it means for the tenant; a throw, a failed statement, caught or not, or a failed commit leaves the table alone, and the connection ends neutral |
| TenantIsolation.ScriptIsMeant | src/db/client.ts:56-77 | from statement to statement of a callback the rows its transaction sees change, and its results are, as each chosen statement means, and nothing runs after a failure |
| RowSecurity.StatementIsMeant | README.md:34-40 | as the restricted role a select gives exactly the tenant's rows that meet its condition; an insert adds its row or is denied, duplicate or missing a reference; an update changes exactly the tenant's matching rows to their images; a delete takes exactly these and the least that cascades from them |
| References.RunIsMeant | src/db/client.ts:56-77 | in any reachable pool a running statement does to what its transaction sees, and logs, what it means for its tenant |
| TenantIsolation.Callback | src/db/client.ts:75-75 | the callback's statements, each chosen from the results before it, have the results and writes of the script |
| RowSecurity.WritesOwnExactly | README.md:34-40 | a statement as the restricted role leaves every other tenant's rows alone, except for a delete that goes through, which changes one exactly when another tenant's row refers to a row that goes |
| RowSecurity.StatementTells | drizzle/0019_ace_rep_intelligence.sql:16-37 | on two views that agree on a group's rows, a statement of the group has the same result and leaves them agreeing exactly when no id, reference or delete of it depends on rows outside the group |
| RowSecurity.SettledAlike | drizzle/0019_ace_rep_intelligence.sql:18-20 | what cascades and nulled references leave of two such tables is alike exactly when no watched row left refers to a row outside the group that is left in one only |
| TenantIsolation.CallbackStaysHome | README.md:34-40 | however a callback chooses its statements, unless one of them tells, it has the same results and leaves the group's rows the same whatever rows the other tenants have |
| TenantIsolation.RemovedStep | src/db/client.ts:56-77 | a step left out of the second run goes unnoticed by the group exactly when it does not commit a change to a row of the group |
| TenantIsolation.KeptStep | src/db/client.ts:56-77 | a step of the group is possible in the second run, with the same result, rows and views, exactly when it does not meet the tenants left out |
| TenantIsolation.Noninterference | src/db/client.ts:56-77 | while no step meets them, taking the transactions of all other tenants, or of one, out of any schedule leaves a schedule that runs, with the same committed rows, open views and query results for the rest |
| TenantIsolation.NoninterferenceExactly | src/db/client.ts:56-77 | over any schedule, the group finds no difference after any step exactly when no step meets the tenants left out |
| References.ReferencesHold | drizzle/0019_ace_rep_intelligence.sql:18-23 | from rows whose references all name rows, no schedule of any tenants leaves a reference to no row, committed or in the eyes of an open transaction |
| References.ReferenceTells | src/domain/ace/operations.ts:330-346 | a run in which a tenant's insert refers to another tenant's new row and counts, and is refused for its reference once that tenant is left out, with no id ever taken |
| HomeReferences.StatementStaysHome | src/domain/ace/operations.ts:46-56 | where references name rows of the same tenant and a statement keeps its new ones so, it writes its own tenant's rows only and they all stay so, deletes included |
| HomeReferences.OnlyIdsTell | src/domain/ace/operations.ts:46-56 | on two such views nothing but the id of an insert can tell |
| HomeRuns.HomeReferencesTellNothing | src/domain/ace/operations.ts:46-56 | over any schedule whose references stay at home, the group finds no difference after any step exactly when no insert uses an id taken in one run only |
| TenantIsolation.NoSettingSurvives | src/db/client.ts:61-76 | after any run, idle connections have no role and no effective setting |
| TenantIsolation.NoTenantSeesNothing | README.md:37-39 | with no tenant set, or one reverted to empty, a query sees zero rows and nothing is written |
| TenantIsolation.NoForgedRows | README.md:36-40 | a row cannot be written for another tenant, by inserting it or by moving one there |
| RateLimit.InMemoryRateLimiter.Limit | src/redis/ratelimit.ts:31-47 | the map and the verdict after a call, window replacement and counting included |
| RateLimit.Replay | src/redis/ratelimit.ts:24-48 | a trace driven through the object gives the verdicts and the map of the specification |
| RateLimit.CountersAreOwnLogs | src/redis/ratelimit.ts:31-47 | the shared map holds, per identifier, the fold of that identifier's own calls |
| RateLimit.VerdictDependsOnOwnLog | src/redis/ratelimit.ts:31-47 | other identifiers never change an outcome |
| RateLimit.CounterIsWindow | src/redis/ratelimit.ts:31-47 | refinement to the plain call log: the counter is the size and the end of the last window of the log |
| RateLimit.WindowAdmissions | src/redis/ratelimit.ts:34-42 | a window admits its first max calls and nothing else |
| RateLimit.RefusedOnlyWhenFull | src/redis/ratelimit.ts:39-46 | a call is refused exactly when its window had already admitted all it may |
| RateLimit.VerdictReportsWindow | src/redis/ratelimit.ts:35-46 | a verdict reports the maximum, what its window may still admit, and when that window ends |
| RateLimit.IntervalBound | src/redis/ratelimit.ts:31-47 | what an interval of one window's length admits, by where it lies relative to the open window |
| RateLimit.RateBoundHoldsFromOne | src/redis/ratelimit.ts:31-47 | any half-open interval of one window's length admits at most 2*max, exactly when max >= 1 (empty intervals aside) |
| RateLimit.TraceRateBound | src/redis/ratelimit.ts:24-48 | the same bound per identifier over whole traces of interleaved identifiers |
| RateLimit.RefusedUntilReset | src/redis/ratelimit.ts:33-46 | after a refusal a silent identifier is admitted exactly from the reported reset on |
| RateLimit.RetryAfterSuffices | src/gate/mutation-gate.ts:99-105 | an actor silent for the reported seconds is admitted on its next call |
| RateLimit.RetryAfterIsTight | src/gate/mutation-gate.ts:103-103 | beyond the one-second minimum, a second less would be too short |
| GenerateAll.GenerateAllResponses.Run | src/components/ui/GenerateAllResponses.tsx:26-50 | the loop drafts a prefix of the controls and stops at the first it cannot draft, against the limiter object |
| GenerateAll.GenerateAllResponses.CallAction | src/domain/applications/generate-actions.ts:51-55 | one call of the action: the limiter's verdict, its seconds, or the draft |
| GenerateAll.RetriesSuffice | src/components/ui/GenerateAllResponses.tsx:35-42 | a refusal is over after at most k back-offs when the window ends within 31 (k - 1) + 30 seconds |
| GenerateAll.ControlOutlastsWindow | src/components/ui/GenerateAllResponses.tsx:33-42 | a lone caller's control is never given up to the limiter while that many retries outlast the window |
| GenerateAll.ControlMakes | src/components/ui/GenerateAllResponses.tsx:33-42 | a control makes at most five calls, each further one after a refusal and a sleep of a second more than told, at most thirty-one, and is given up only when the fifth is refused |
| GenerateAll.LoneCallerIsNeverStarved | src/components/ui/GenerateAllResponses.tsx:30-48 | on windows up to 61 s no control needs more than two retries; the run ends complete or at the first draft that failed |
| PartnerCentral.DistinctInFirstOrder | src/aws/partner-central.ts:67-67 | duplicates are dropped and ids keep the order in which each first occurs |
| PartnerCentral.IdsAreDistinct | src/aws/partner-central.ts:67-67 | the ids fetched are distinct, non-empty, at most 200, and all of them up to that ceiling |
| PartnerCentral.IdsAreFirst | src/aws/partner-central.ts:67-67 | the ids fetched are the first two hundred distinct non-empty ones, each where it first occurs, and no other is left out |
| PartnerCentral.ResumeKeepsInv | src/aws/partner-central.ts:75-87 | resuming any worker keeps the pool invariant: no index twice, settled ids and only those in the map |
| PartnerCentral.EverySchedule | src/aws/partner-central.ts:74-91 | under every schedule fetches start in order without repeats or gaps, four are in flight or all that are left, and the pool is finished exactly when all have settled, with a result independent of the schedule |
| PartnerCentral.ResumeProgresses | src/aws/partner-central.ts:75-87 | each resumption settles one fetch, so the pool terminates |
| PartnerCentral.Pool.constructor | src/aws/partner-central.ts:74-90 | the workers run up to their first fetch in creation order |
| PartnerCentral.Pool.ResponseArrives | src/aws/partner-central.ts:76-86 | a response is stored under its id, a failure is skipped, and the worker goes round its loop |
| PartnerCentral.GetAwsOpportunityTeams | src/aws/partner-central.ts:63-92 | the whole call returns exactly the successful ids with their responses, whatever order responses arrive in |
| PartnerCentral.ListPartnerCentralOpportunities | src/aws/partner-central.ts:32-53 | the listing is the first ten pages in order, whatever the service answers to each request, cut short by a page without a token and failed by a page that fails |
| PartnerCentral.ListedReads | src/aws/partner-central.ts:39-52 | the listing is the summaries, in order, of pages each asked for with the token of the one before, up to one without a token or the tenth, or the failure of the next |
| PartnerCentral.CeilingNeverCuts | src/aws/partner-central.ts:27-29 | with pages of at most 20, the ids of one listing are all fetched: the ceiling of 200 cuts none off |
| Provision.Database.ProvisionWithinTx | src/auth/provision.ts:56-176 | the OIDC path over the tables: returning user, oldest placeholder, oldest invitation, refusal or development workspace, with rollback when an index refuses |
| Provision.Database.ProvisionSamlWithinTx | src/auth/provision.ts:187-251 | the SAML path, every query within the asserted workspace |
| Provision.Database.EnsureAgencyServiceUser | src/auth/agency.ts:64-99 | the link is checked first; the existing service user is returned or one is created |
| Provision.Database.AcceptInvite | src/auth/provision.ts:107-122 | the user joins with the invited role and the invitation is marked accepted by that user, or neither happens |
| ProvisionTheorems.NextKeepsInv | src/auth/provision.ts:56-251 | every step, whole logins and the system's other writes alike, keeps the directory's uniqueness |
| ProvisionTheorems.UniqueInEveryRun | src/db/schema.ts:104-105 | after any run from nothing (tenant, subject) and (tenant, email) are unique, and so is an OIDC subject over all workspaces |
| ProvisionTheorems.LoginIsMeant | src/auth/provision.ts:39-251 | every OIDC and SAML login, from what the directory holds: its user's session or the disabled refusal, else the oldest placeholder for its address bound, else the oldest invitation taken up with its workspace and role, else refused, or in development the owner of its workspace; the session says what that row says |
| ProvisionTheorems.SubjectKeepsItsUser | src/auth/provision.ts:62-73 | a bound subject stays with its user and workspace through any run of one login after another, until that user is erased |
| ProvisionTheorems.LoginBinds | src/auth/provision.ts:90-97 | a successful login leaves its subject bound to the active user its session names, whose workspace, address, role and epoch the session carries |
| ProvisionTheorems.ReturningUser | src/auth/provision.ts:62-73 | a bound subject is answered with a session of that user's workspace, address, role and epoch, or as disabled, and nothing is written |
| ProvisionTheorems.LoginsAgree | src/auth/provision.ts:56-73 | two logins of one subject, with any run of one login after another between them, get the same user and workspace, or a disabled refusal |
| ProvisionTheorems.AcceptedByOwnUser | src/auth/provision.ts:107-122 | an invitation is accepted only by a new user of its own workspace, role and address, and no other row changes |
| ProvisionTheorems.AcceptedForGood | src/auth/provision.ts:117-120 | with one login after another an accepted invitation never changes again |
| ProvisionTheorems.SamlTouchesOwnWorkspace | src/auth/provision.ts:178-191 | a SAML login returns its own workspace and leaves every other workspace's rows alone |
| ProvisionTheorems.SamlReadsOwnWorkspace | src/auth/provision.ts:178-251 | two directories that agree on a workspace give its SAML logins the same outcome and still agree on it |
| ProvisionTheorems.BrokenExactly | src/auth/provision.ts:108-116 | a login fails on an index exactly when it would create a user where that very address is taken |
| ProvisionTheorems.ServiceUserIsStable | src/auth/agency.ts:82-98 | while the link holds an agency always acts as the same user of a workspace |
| ProvisionTheorems.ServiceIsMeant | src/auth/agency.ts:64-99 | forbidden without the link, the agency's user of the workspace if there is one, else a new active administrator under the agency's own address, refused when that is taken |
| ProvisionTheorems.SlugLetters | src/auth/provision.ts:131-134 | a development workspace's name is the first forty characters of the lowered subject after "dev-", everything but letters, digits and hyphens replaced |
| ProvisionTheorems.SharedExactly | src/auth/provision.ts:131-154 | two first development logins, any run between them, share a workspace exactly when their names are equal |
| ProvisionTheorems.SlugsCollide | src/auth/provision.ts:131-134 | two different subjects log in one after the other and end as owners of one workspace |
| FirstLogin.NextKeepsInv | src/auth/provision.ts:131-175 | every statement of every racing login keeps the race invariant, under either reading of the insert |
| FirstLogin.FirstCommit | src/auth/provision.ts:140-164 | the first commit of a user row leaves what that login would have left had it run alone |
| FirstLogin.CommittedRows | src/auth/provision.ts:140-175 | after one login there is exactly one user with the subject and one workspace with the name |
| FirstLogin.RaceIsOneLogin | src/auth/provision.ts:136-175 | in every interleaving with aborts the directory is as before or as after exactly one login, and all that succeed got that one's session |
| FirstLogin.LosersAreAnswered | src/auth/provision.ts:136-175 | with a waiting insert a login that does not abort succeeds, unless the named workspace already used its address |
| FirstLogin.RunsAreBounded | src/auth/provision.ts:131-175 | no login makes more than six statements, so every run ends |
| FirstLogin.NobodyDeadlocks | src/auth/provision.ts:136-139 | while a login is unfinished some login can make its next statement |
| FirstLogin.AloneIsDevLogin | src/auth/provision.ts:131-175 | an undisturbed development login leaves what the whole transaction leaves and gets its answer, whether its user, its workspace or neither is there already |
| LoginRace.NextKeepsInv | src/auth/provision.ts:56-122 | every statement of racing OIDC and SAML logins keeps: only a placeholder's subject changes and only to a racer's that names it, an invitation is accepted only by a racer that can join by it |
| LoginRace.IndexesAlwaysHold | src/db/schema.ts:104-105 | in every interleaving of any identities no workspace gets two users of one subject or one address |
| LoginRace.LocksAreExclusive | src/db/schema.ts:104-105 | in every interleaving no two open transactions hold one user or invitation row or one entry of the unique indexes |
| LoginRace.WaitsExactly | src/auth/provision.ts:90-120 | a login ready to bind or to join, refused by no index, waits exactly while another open transaction holds a row or index entry it would write |
| Rivals.NoRivalsNoOverwrite | src/auth/provision.ts:90-94 | in every interleaving a committed binding survives while all racers that name a placeholder carry one subject |
| Rivals.RivalsOverwrite | src/auth/provision.ts:90-94 | two racers that read one placeholder under different subjects: an interleaving in which the second takes it from the first |
| Rivals.BindingsStayExactly | src/auth/provision.ts:74-97 | where the query of every racer may return each placeholder it names, which for OIDC means that no older one has the address, committed bindings survive every interleaving exactly when no two racers name one placeholder under different subjects |
| Rivals.NoRivalsAcceptOnce | src/auth/provision.ts:117-120 | in every interleaving an invitation is accepted once while no two racers can join by it under different subjects and textually different addresses |
| Rivals.RivalsAcceptTwice | src/auth/provision.ts:117-120 | two such racers: an interleaving in which both accept the invitation |
| Rivals.AcceptancesStayExactly | src/auth/provision.ts:98-122 | where no racer has a placeholder and the query of every racer may return each invitation it can join by, an invitation is accepted once in every interleaving exactly when there are no two such racers |
| OneIdentity.OneUserExactly | src/auth/provision.ts:62-122 | concurrent logins of one identity leave at most one user exactly when its first two offers, placeholders by age and then invitations by age, cannot both be taken up in two workspaces |
| OneIdentity.OneUnlessTwoOffers | src/auth/provision.ts:74-122 | without two such offers no interleaving of any number of logins makes two users |
| OneIdentity.TwoOffersBothWin | src/auth/provision.ts:74-122 | with them an interleaving of two logins does |
| OneIdentity.AloneIsOidcLogin | src/auth/provision.ts:74-122 | undisturbed, the statements of a login amount to the whole OIDC transaction |
| LoneLogin.AloneIsLogin | src/auth/provision.ts:56-250 | an undisturbed OIDC or SAML login, whatever its queries may return, makes at most five statements that leave the directory and give the answer of the whole transaction, refusals included |
| Migrate.Files | src/db/migrate.ts:30-32 | the files of a listing are exactly its .sql names |
| Migrate.FilesAreSql | src/db/migrate.ts:30-32 | a name is among the files exactly when it is in the listing and is some name followed by .sql |
| Migrate.ListingOrderIrrelevant | src/db/migrate.ts:30-32 | the files and their order do not depend on the order of the listing |
| Strings.LessExactly | src/db/migrate.ts:30-32 | a name comes before another when it is the beginning of it, or has the smaller character where they first differ |
| Migrate.PlanCutsPending | src/db/migrate.ts:34-44 | a run applies the pending files up to the first broken one, all of them when it completes |
| Migrate.Database.ApplyFile | src/db/migrate.ts:39-42 | a file's SQL and its ledger row commit together or not at all |
| Migrate.Database.RunMigrations | src/db/migrate.ts:19-49 | a run applies its plan in order and keeps what it applied when a file fails |
| Migrate.NextKeepsInv | src/db/migrate.ts:34-44 | every step of any number of runners, crashes included, keeps the ledger a prefix of the sorted files |
| Migrate.LedgerIsPrefix | src/db/migrate.ts:23-45 | under crashes, restarts and concurrent runners the ledger is a growing prefix, each file's SQL commits at most once, and a completed runner means all are applied |
| Migrate.CompletedRunMatchesOneRun | src/db/migrate.ts:34-45 | a completed run reaches the state of one uninterrupted run from the same start |
| Migrate.AloneCompletes | src/db/migrate.ts:34-45 | a runner nobody disturbs can look up and apply every file that is left, and then completes |
| Dates.DaysFollowCalendar | src/domain/dates.ts:1-5 | day numbers order dates as year, month and day do (section 21.4.1 of ECMA-262) |
| Dates.FromDayOfDay | src/domain/dates.ts:8-12 | numbering and dating are inverse for every year |
| Dates.ComputedDate | src/domain/dates.ts:8-12 | the year, month and day computed from a day number are the date with that number |
| Dates.MonthsAsEverywhere | src/domain/dates.ts:1-5 | April, June, September and November have 30 days, February 29 in leap years of the Gregorian rule and 28 otherwise, the others 31, counted from 1970-01-01 |
| Dates.IsoExactly | src/domain/dates.ts:1-5 | the strings the helpers take are exactly those of four, two and two digits that tell a day of that calendar |
| Dates.TheNextDay | src/domain/dates.ts:8-12 | one day later is the next day of the month, from its last day the first of the next month, and from the last of December the first of January |
| Dates.ReadOfFormat | src/domain/dates.ts:9-11 | printing a date of a four-digit year and reading it back gives the date |
| Dates.FormatOfRead | src/domain/dates.ts:9-11 | reading an ISO string and printing it gives the string |
| Dates.UtcDate.SetUTCDate | src/domain/dates.ts:10-10 | the mutable date moves to the given day of its month, overflow included |
| Dates.UtcDate.SetUTCMonth | src/domain/dates.ts:17-17 | the mutable date moves to the given month of its year and keeps its day, which may overflow |
| Dates.AddDays | src/domain/dates.ts:8-12 | the method returns the ISO string of the date n days later |
| Dates.AddMonths | src/domain/dates.ts:15-19 | the method returns the ISO string of the date n months later |
| Dates.DaysBetweenIsDifference | src/domain/dates.ts:22-26 | the rounded quotient is the exact difference of day numbers |
| Dates.DaysBetweenInverts | src/domain/dates.ts:8-26 | adding n days moves n days away |
| Dates.DaysLaterInverts | src/domain/dates.ts:8-26 | adding the distance between two dates to the first gives the second |
| Dates.DaysCompose | src/domain/dates.ts:8-12 | day steps compose additively |
| Dates.StringOrderIsDayOrder | src/domain/dates.ts:2-4 | the order of the strings is the order of the days |
| Dates.MonthsAreFirstPlusDays | src/domain/dates.ts:15-19 | a month step is the first of the target month plus the day less one |
| Dates.MonthsKeepDay | src/domain/dates.ts:15-19 | when the day exists in the target month, the step lands on it |
| Dates.MonthsSpill | src/domain/dates.ts:14-19 | when it does not, the step spills into the following month by the excess |
| Dates.MonthsOn | src/domain/dates.ts:14-19 | n months later is the same day of the month n further on, or as many days into the one after as that month is too short, in the strings |
| Dates.MonthsReturnIffDayFits | src/domain/dates.ts:14-19 | n months forward and n back is the identity exactly when the day fits the target month |
| Dates.MonthsCompose | src/domain/dates.ts:15-19 | month steps compose additively for days up to the 28th |
| ListView.FilterKeepsMatches | src/domain/list-view.ts:30-31 | the filter keeps exactly the matching rows, each as often as it occurs |
| ListView.SortIsTheStableOrder | src/domain/list-view.ts:34-34 | with a consistent comparator there is exactly one stable arrangement, and the sort is it |
| ListView.SortPermutes | src/domain/list-view.ts:34-34 | the sorted rows are a permutation, whatever the comparator |
| ListView.TiesKeepInputOrder | src/domain/list-view.ts:33-34 | equal rows keep their input order in both directions |
| ListView.PagesShow | src/domain/list-view.ts:25-36 | the pages together show each row whose lowered text holds the lowered trimmed term, once, by the comparator the sort names or the first one, up or down as asked, equal rows as given; the total counts them |
| ListView.UnsortedRowsShow | src/domain/list-view.ts:32-34 | without comparators the found rows are shown as given |
| ListView.CountCovers | src/domain/list.ts:59-61 | the page count covers the rows and no smaller positive count does |
| ListView.PagesPartitionRows | src/domain/list-view.ts:25-36 | pages 1 to the page count concatenate to the sorted filtered rows, later pages are empty, the total is their number |
| ListView.ViewRowOnOnePage | src/domain/list-view.ts:35-35 | each row of the view is on exactly one page of it, at one place |
| ListView.LinkOpensPage | src/domain/list-view.ts:25-36 | following a link for page p shows the p-th slice of the rows filtered, sorted and directed as the link says, and the number of them all |
| ListView.LinksShowEverything | src/domain/list-view.ts:25-36 | following the links of all pages in turn shows every matching row, sorted, once |
| ListView.LinksShow | src/domain/list-view.ts:25-36 | following the links of all pages shows exactly the rows their term finds, each once, arranged by the sort and direction they carry |
| Links.DecodeOfEncode | src/domain/list.ts:54-54 | every string of Unicode scalar values survives UTF-8 |
| Links.UnescapeOfEscape | src/domain/list.ts:54-54 | escaping loses nothing of such a string (section 5 of the WHATWG URL Standard) |
| Links.EscapedByte | src/domain/list.ts:54-54 | letters, digits and four marks stand for themselves, a space is a plus sign, any other byte a percent sign and two capital hexadecimal digits |
| Links.EncodedShape | src/domain/list.ts:54-54 | the lengths, lead bytes and continuation bytes of UTF-8 |
| Links.UnitsSurviveExactly | src/domain/list.ts:54-54 | a JavaScript string put into a query and read back is itself exactly when it has no unpaired surrogate |
| Links.QueryRoundTrip | src/domain/list.ts:50-55 | reading a printed query gives back its pairs of scalar strings, in order, whatever they contain |
| Links.FrontExactly | src/domain/list.ts:21-23 | bytes read back begin with a character exactly when its UTF-8 form is at their front; otherwise one byte reads as the replacement character |
| Links.PartByPart | src/domain/list.ts:21-23 | a query is read part by part between its ampersands, and empty parts are nothing |
| Links.ListHref | src/domain/list.ts:46-56 | the loop over the parameters prints the kept ones and no question mark when there is none |
| Links.KeptInOrder | src/domain/list.ts:51-53 | a link carries, in order, exactly the parameters whose printed value is not empty |
| Links.HrefAsks | src/domain/list.ts:54-55 | a link begins with its base and has a question mark exactly when it carries something |
| Links.PageReadsBack | src/domain/list.ts:35-35 | a printed page number reads back as itself, and as at least one |
| Links.PageExactly | src/domain/list.ts:35-35 | a page beyond the first is read exactly from a trimmed decimal with that whole part, with a plus sign or without |
| Links.ReadsAnyQuery | src/domain/list.ts:25-43 | for any query, printed or not: the sort is the query's if allowed and the default otherwise, the direction the query's if it is one, else the configured one, else descending, the term what stands between white space, the offset that of the page |
| Links.FractionReadsDown | src/domain/list.ts:35-35 | a page number with a fraction reads as the whole page before it, or as the first |
| Links.FloorIsFloor | src/domain/list.ts:35-35 | the whole number read from a signed decimal is the greatest that is not above it |
| Links.FirstOfKept | src/domain/list.ts:21-23 | the first pair of a key is that key's own value, or nothing when it was dropped |
| Links.LinkCarriesPairs | src/domain/list.ts:46-56 | a page reached by a link reads back exactly the pairs the link kept |
| Links.LinkRoundTrip | src/domain/list.ts:25-56 | a link with a trimmed search, an allowed sort, a direction and a page of at least one is read back as those values, empty search included |

## Left out

- Network, SDK and identity-provider calls: a call succeeds or fails arbitrarily; a SHA-256 digest is its preimage.
- Permissions: the verdict of the permission table is an input of a request.
- Handlers: opaque, an entry in the effect log and a response; the transaction promises nothing about what they read.
- The Upstash limiter: a sliding window kept by an outside service.
- Row locks: the `FOR UPDATE` of the conflict read is not a wait of its own; it only ever meets committed, complete rows.
- Unique indexes other than the primary key (a workspace's name) are not in the isolation model; they would be met as ids are. How long a lock is waited for, and deadlocks, are not observed. A transaction that deletes a row and inserts it again is not waited for by a reference to it.
- `withSystem` is not a transaction of the isolation pool, and policies on `app.user_id` (saved views) are not modelled.
- Everything the form renders.
- `MutationForm.SuccessesMatchExecutions`: is about one tenant, as are all results about the form; a token retried in another workspace is another key, and executes there once more.
- `TenantIsolation.Callback`: a callback issues at most a number of statements given with it, any number; one that never returns is not modelled.
- `ProvisionTheorems.SubjectKeepsItsUser`: takes each login as one transaction after another, as do `LoginsAgree` and `AcceptedForGood`; it fails for racing logins exactly as `Rivals` says.
- `Rivals.BindingsStayExactly`: the exact condition is for racers whose query may return every placeholder they name, which for OIDC means no older one has the address; `Rivals.NoRivalsNoOverwrite` needs no such condition. Likewise `AcceptancesStayExactly`, for racers without a placeholder.
- `OneIdentity.OneUserExactly`: is about OIDC logins that carry one subject and one address; a SAML identity has one user by the index of its workspace.
- Subjects are read by their prefix; a provider whose own subjects begin with `saml:`, `agency:`, `scim:` or `erased:` is outside the model. Lower-casing is over ASCII letters.
- Invitation tokens, inviter ids, workspace plans and audit rows of the provisioning steps; an invitation may be sent whether or not its address is already a member.
- `Dates.AddDays`: is for valid ISO dates whose result stays in a four-digit year; so is `AddMonths`. Invalid strings and `relativeTime` are not modelled.
- `Strings` compares characters of one code unit, as JavaScript does for them.
- Comparator tables keep their written order; integer-like and inherited keys of JavaScript objects are not modelled.
- Page numbers in hexadecimal or exponent form, infinite, or beyond exact doubles. A malformed UTF-8 sequence decodes to one replacement character per byte.
- `GenerateAll.GenerateAllResponses.Run`: reads the action's message as its number of seconds, without the regular expression; the page refresh at the end is not modelled.
- Competency, marketplace, portfolio and playbook engines, pages, navigation, environment, logging and stubs.
