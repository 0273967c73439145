# Proofs about the Everstack agent platform

A Dafny model of the parts of the repository whose correctness is hardest to see from
one function: the agent deployment reconciler, the usage-credit wallet, two single-flight
protocols, the chat request rewrite, the message chunker, the event-stream decoder, the
alert life cycle, the message dispatcher, usage enforcement and the reconnect loop.
`dafny verify dfyconfig.toml` checks everything.

## What the model says

**Deployment** (`Fleet`, `Triggers`, `Links`, `Projects`, `Deploy`, `Rollout`, `Deployment`,
`Attempts`, `Honesty`). `Fleet.World` is what the agents service stores; `Fleet.Gateway` is
the client's handle. Every call has a fate taken from an arbitrary schedule: carried out,
refused, or carried out with the reply lost, which is also what a crash right after a write
looks like. The ghost trace holds every write that took effect with the state it led to, so a
statement about "every step" is a statement about every point at which a run can be cut off.
`DeployGraph` is the whole command. The main results:

- At every step of every run the root carries no stamp, except possibly in the last state,
  and then everything stored is as the graph says (`Attempts.DeployGraph`, `Rollout.StampAll`).
- Over any sequence of attempts on any family of graphs that agree on the agents they share,
  a stamped root always means that the stored state is as some known version of its graph
  says, at every write (`Honesty.DeployMany`). Without agreement this is false, and
  `Honesty.SurvivesExactly` says exactly when a graph outlives a successful run of another:
  if and only if the two agree. The stamp of the first root then stays although its graph no
  longer holds; `Honesty.StaleStamp` deploys two such graphs one after the other.
- A forced run without faults does not always succeed: verification compares the triggers
  with the ownership recorded before the run, so a run that creates, recreates or drops a
  managed trigger ends unstamped. `Attempts.DeployGraph` says exactly when one run is enough:
  the state is ready and no trigger has to be created, recreated or dropped. From a ready state
  two runs always are (`Honesty.DeployTwice`). Ready means that definitions read back as sent,
  that every declared trigger name is free when its turn comes (`Triggers.Attainable`), and
  that no link of another kind is in the place of a link to a subagent (`Links.Linkable`).
- Two managed triggers that exchanged their names cannot be renamed back, because the service
  refuses the first rename, and the failed run has removed the stamp that owned them
  (`Triggers.SwappedNamesAreStuck`); declaration order decides which chains of renames work. A
  peer link to a declared subagent takes the only place the store has for a link to it, and the
  store drops the second one silently, so every run ends unstamped (`Links.PeerLinkBlocks`).
- A run that is cut off after removing a stamp gives up the ownership that the stamp recorded.
  Its agents can be deployed again by force exactly when each of their triggers that bears a
  declared name is as declared already (`Deployment.UnstampedIsReadyExactly`); a trigger that
  the run was going to update is stranded (`Deployment.CutOffStrandsUpdates`), and one whose
  declaration was dropped stays and goes on firing, because nobody owns it any more
  (`Deployment.CutOffOrphansDropped`, `Triggers.DroppedSurvivesExactly`).
- A redeploy after a success writes nothing; without force it succeeds exactly when all stamps
  are structurally valid (`Honesty.DeployAgain`).
- Without force a faultless run succeeds exactly when all agents it finds are validly stamped and
  settled, and the state is converged already or has no root yet. Then it creates what is missing,
  which must read back as sent and declare no trigger: a created trigger is not in the ownership
  recorded before the run (`Attempts.DeployGraph`, `Attempts.CreatableExactly`).

**Wallet** (`Wallet`). Both writers of the credit ledger, in any interleaving of transactions that
the organization's lock serialises, which it does for one spelling of its identifier, with
rollbacks and lost replies: the cached balance is the ledger sum, sandbox debits telescope to the highest
reading whatever the meter does, and no sandbox debit is swallowed. Keys hold an organization's
identifier as the caller spelled it while rows hold the UUID, so there is one signup grant at
most exactly if all callers spell it alike (`Wallet.OneSignupGrantExactly`). The idempotency key
of an inference debit holds the request identifier alone, so a request identifier used twice
with different organizations or costs is charged to whoever came first;
`Wallet.OrderIsIrrelevantExactly` proves that this is the only way in which order shows.

**Single flight** (`TenantBootstrap`, `Sessions`). The shared maps and every caller's program
counter form a state; a schedule of atomic steps is an interleaving. The theorems hold in every
reachable state. Session kills are part of the second model: `Sessions.OverlapOnlyAfterKill`
and `Sessions.KillLetsCreationsOverlap` say that a kill during a creation, and nothing else,
lets two creations of one session overlap; `Sessions.CreationsDoOverlap` is a schedule.

**Chat** (`ChatRewrite`, `ChatResponse`). A normal form of requests; the rewrite changes exactly the
bodies outside it and always ends in it, so the second application on the Connect JSON route is
the identity. JSON parsing and rendering are parameters. Native chunks that clients replay read
back unchanged except for strings that are themselves JSON text: those are taken for the value
they spell (`ChatRewrite.ReplayReadsBackExactly`). How a response was cut into frames does not
show in the completion put together from them.

**Chunks and events** (`Text`, `Chunker`, `EventStream`). Chunks are nonempty, trimmed, within
the limit, and separated by white space only; a word is broken only where a full window offers
no break in its second half. The decoder, byte by byte, is the parse of the stream, and decoding
any lines that were encoded yields the events meant. Compared with section 9.2.6 of the WHATWG HTML Living
Standard the code trims white space on both sides of values and delivers an unterminated last
event at the end of the stream.

**Alerts** (`Alerts`, `AlertSchedules`). `Alerts` treats every evaluation and every user command
as one step. The acknowledge call looks an event up whatever its status, so acknowledging a
resolved event makes it active again: `Alerts.ResolvedStaysExactly` and `Alerts.OneActiveStep`
give the exact conditions. Count and spacing hold in exactly the runs in which every
re-notification is stored. `AlertSchedules` splits evaluations into read, notification and write,
and user commands into read and write, since each writes the whole record back as it was read.
Interleaved, an acknowledgement can be followed by a delivery and erased, and a stale one can take
back a count (`AlertSchedules.AcknowledgementIsLost`, `AlertSchedules.StaleAcknowledgementRollsBack`).
Both are settled exactly, for all schedules. An acknowledged or resolved event stays silent in
whatever follows if and only if no evaluation is under way that has read it as firing and will yet
deliver for it or write it back (`AlertSchedules.SilenceExactly`); such an evaluation is one of the
event's own rule (`AlertSchedules.ThreatIsOfItsRule`). With one evaluator loop, counts and spacing
are right at every moment of exactly the schedules in which every user's write finds its record not
re-notified since it was read and every re-notification is stored
(`AlertSchedules.CountsAreRightExactly`). Where evaluations and user commands do not mix at all, a
schedule does what the commands do one after the other (`AlertSchedules.IsolatedIsSerial`).

**Dispatch, enforcement, reconnect** (`Dispatch`, `Enforcement`, `Reconnect`). Longest mention,
stable ranking by in-place insertion sort, one resolution per pending dispatch; grouping as an
ordered partition; the back-off loop against its closed form.

## Model

| member | source | states |
|---|---|---|
| Fleet.ApplyKeepsWellFormed | internal/api/grpc/agents/v1/agents_triggers.go:164-253 | every write the service accepts keeps identifiers fresh, trigger names unique within an agent and agent names unique |
| Fleet.ApplyKeepsDistinctTargets | internal/database/migrations/sql/postgres/unify_agents_troopers_20260308204113/up.sql:83-97 | every write keeps the store's constraint of one link per target, a second link being acknowledged and dropped |
| Fleet.CreatedAsDeclaredExactly | cmd/agents/deploy.go:315-329 | a new agent reads back as sent exactly when each of its limits is positive or the default |
| Fleet.TriggerCreatedAsDeclaredExactly | internal/api/grpc/agents/v1/agents_triggers.go:50-76 | a new trigger reads back as sent exactly when it is enabled and has a timezone, and an update with what was sent makes up for the first |
| Fleet.Gateway.Send | cmd/agents/deploy_graph.go:98-103 | a write call takes effect completely or not at all, and its reply may be lost |
| Triggers.RecreateExactlyWhenUpdateMisses | cmd/agents/deploy.go:283-290 | a trigger is recreated exactly when an update with empty-means-keep would miss the desired value; otherwise empty-means-clear reaches it too |
| Triggers.DeclaredTriggersMatch | cmd/agents/deploy_graph.go:671-704 | the comparison loop accepts only if every declared trigger is the single live one of its name under its recorded identifier and no recorded name was dropped, and it does accept then when no name is recorded twice |
| Triggers.ReconcileOwnership | cmd/agents/deploy.go:158-181 | for every iteration order the managed triggers of dropped names are gone and renamed ones are considered under their recorded names |
| Triggers.SyncTriggers | cmd/agents/deploy.go:126-255 | success leaves one matching trigger per declared name and no managed trigger of a dropped name; at every step, failed runs included, foreign triggers are untouched and updates are sent only where they reach the value; a forced run without faults succeeds if and only if no unmanaged trigger bears a declared name and no live trigger recorded for a later declaration bears an earlier declaration's name; a matching state is not written to |
| Triggers.AdoptLegacyTriggers | cmd/agents/deploy_graph.go:287-301 | adoption records exactly the declared triggers found once and exactly as declared |
| Triggers.MatchAfterSync | cmd/agents/deploy_graph.go:320-322 | after a successful synchronisation the comparison with the ownership recorded before it passes if and only if nothing had to be created, recreated or dropped |
| Triggers.AdoptionAfterSync | cmd/agents/deploy_graph.go:247-250 | after a successful synchronisation an unstamped agent yields full, unambiguous ownership of its declared triggers |
| Triggers.UnstampedAttainable | cmd/agents/deploy_graph.go:287-301 | an unstamped agent can be synchronised if and only if each of its triggers that bears a declared name is as declared |
| Triggers.UnstampedStaysStuck | cmd/agents/deploy.go:186-201 | an unstamped agent that cannot be synchronised stays so after every synchronisation, successful or not, because none touches the trigger in the way |
| Triggers.SwappedNamesAreStuck | internal/api/grpc/agents/v1/agents_triggers.go:180-184 | managed triggers that exchanged their names can neither be renamed back nor, once the stamp is gone, adopted |
| Triggers.DroppedSurvivesExactly | cmd/agents/deploy.go:158-173 | a trigger whose declaration was dropped survives a successful synchronisation, unchanged, if and only if no ownership of it was recorded |
| Links.SubordinateLinksMatch | cmd/agents/deploy_graph.go:718-740 | accepts exactly the link lists with one subordinate agent link per child and no other |
| Links.SyncSubagentLinks | cmd/agents/deploy_graph.go:742-788 | from any links, a forced run without faults ends, and the match is established if and only if every desired agent is linkable; every other link is unchanged at every step; a matching list is not written to |
| Links.LinkableUnderConstraint | internal/database/projections.go:1580-1587 | under the store's constraint an agent is linkable if and only if no link of another kind leads to it |
| Links.PeerLinkBlocks | internal/database/projections.go:1580-1587 | a peer link to a declared subagent keeps its subordinate link from ever being stored |
| Projects.CheckDrift | cmd/agents/deploy.go:78-120 | accepts exactly the structurally valid stamps |
| Projects.MatchingStampIsInjective | cmd/agents/deploy_graph.go:626-638 | a stamp that matches its project records every name at most once, and declared names only |
| Projects.NewStampIsFaithful | cmd/agents/deploy_graph.go:393-399 | a stamp written from verified ownership is valid, matches its project whatever the time and identifiers, and reads back to ownership under which the triggers match |
| Deploy.Inspect | cmd/agents/deploy_graph.go:213-266 | marks an agent for writes exactly when it is not as its project says; an unforced run refuses everything but valid stamps on settled agents |
| Deploy.Preflight | cmd/agents/deploy_graph.go:208-285 | finds a project's agents, marks exactly the unsettled ones, and the root also if its links differ; never writes |
| Deploy.ConvergedSays | cmd/agents/deploy_graph.go:473-492 | in a converged state every project has an agent with its name, definition, active digest, stamp and triggers, primary for the root and subagents for the children, and the root's subordinate links lead to the children and nowhere else |
| Rollout.Invalidate | cmd/agents/deploy_graph.go:90-105 | the first write of a run that found its root stamped removes that stamp, and only stamps and configs change |
| Rollout.ConvergeAll | cmd/agents/deploy_graph.go:107-142 | definitions are converged with the root unstamped throughout and agents outside the plan untouched |
| Rollout.SyncAll | cmd/agents/deploy_graph.go:163-170 | all planned triggers are synchronised with the root unstamped throughout |
| Rollout.VerifyAll | cmd/agents/deploy_graph.go:303-345 | passes only if revisions, triggers and links match, recording one live identifier per declared name |
| Rollout.RootStampConverges | cmd/agents/deploy_graph.go:181-204 | writing the root's stamp last, over verified resources and stamped children, converges the whole graph |
| Rollout.StampAll | cmd/agents/deploy_graph.go:183-204 | children are stamped before the root, and only the last state of the run can show a stamped root |
| Deployment.UnverifiedIsReady | cmd/agents/deploy_graph.go:320-322 | where verification fails because identifiers changed, the next forced run adopts the triggers and needs no further trigger writes |
| Deployment.StagedWasReady | cmd/agents/deploy_graph.go:158-170 | a run reaches verification only from a state in which the agent was ready |
| Deployment.LinksReadyExactly | cmd/agents/deploy_graph.go:172-180 | the links of the root can be established exactly if none of another kind was in the way before the run |
| Deployment.UnstampedIsReadyExactly | cmd/agents/deploy_graph.go:247-250 | an agent left unstamped by a cut-off run is ready for a forced one exactly when each trigger bearing a declared name is as declared |
| Deployment.CutOffStrandsUpdates | cmd/agents/deploy_graph.go:90-103 | cutting a run off after it removed a stamp strands every trigger that it was going to update |
| Deployment.CutOffOrphansDropped | cmd/agents/deploy_graph.go:247-249 | and leaves a managed trigger whose declaration was dropped without an owner in the next forced run |
| Deployment.VerifiableExactly | cmd/agents/deploy_graph.go:303-331 | without faults verification passes for an agent exactly when none of its triggers had to be created, recreated or dropped, whatever the triggers were called before |
| Deployment.RunPlan | cmd/agents/deploy_graph.go:83-205 | safe at every step; success means converged with fresh valid stamps; a forced faultless run succeeds if and only if the state was ready and one run is enough, and from a ready state leaves one on which the next run succeeds |
| Attempts.DeployGraph | cmd/agents/deploy_graph.go:54-206 | the whole command: safety at every write, success implies converged and that no call failed, a converged state is never written to; a forced faultless run succeeds if and only if the state is ready and one run is enough, and an unforced one if and only if every existing agent is validly stamped and settled and the state is converged or lacks the root, with whatever else is missing created as declared and without triggers; an unforced run over an invalid stamp writes nothing |
| Attempts.CreatableExactly | cmd/agents/deploy_graph.go:262-264 | where nothing invalid is in the way of an unforced run and there is no root yet, the state is ready and one run is enough exactly when every missing project reads back as sent and declares no trigger |
| Honesty.SettledTwice | cmd/agents/deploy_graph.go:473-492 | one agent can be as two projects say only if the projects are the same in everything deployed |
| Honesty.BothConvergedAgree | cmd/agents/deploy_graph.go:177-182 | two graphs hold at once only if they agree on every agent they share |
| Honesty.SurvivesExactly | cmd/agents/deploy_graph.go:181-204 | after a successful run of another graph, a converged graph still holds if and only if the two agree |
| Honesty.ForeignRootKeepsStamp | cmd/agents/deploy_graph.go:90-93 | a run never touches the root of a graph whose root it does not name, so that stamp stays |
| Honesty.StaleStamp | cmd/agents/deploy_graph.go:177-204 | two graphs that disagree on a shared subagent: deploying the second succeeds and leaves the first one's root stamped although its graph does not hold |
| Honesty.RunKeepsHonesty | cmd/agents/deploy_graph.go:49-53 | one run of a compatible family keeps "a stamped root means its graph holds" at every write |
| Honesty.DeployMany | cmd/agents/deploy_graph.go:49-53 | over any sequence of attempts, each cut off anywhere, a stamped root means its graph holds |
| Honesty.DeployTwice | cmd/agents/deploy_graph.go:88-93 | from a ready state two forced faultless runs converge; the first succeeds if and only if the state is ready and one run is enough |
| Honesty.DeployAgain | cmd/agents/deploy_graph.go:76-84 | a run after a success makes no write; unforced it succeeds exactly when every stamp is valid, as it is after a success that started from valid stamps |
| Wallet.CommitKeepsSound | internal/billingcredit/credit.go:147-228 | either transaction keeps keys distinct, sandbox keys at most the watermark, and the cached balance equal to the ledger sum |
| Wallet.SandboxKeyIsNew | internal/billingcredit/credit.go:193-200 | a sandbox debit is never swallowed by a key conflict |
| Wallet.CommitResolves | internal/billingcredit/credit.go:147-208 | a resolve grants once per spelling; the first resolve without a baseline charges nothing and sets the watermark to the reading; otherwise the reading is charged as far as it exceeds the watermark or baseline, which never falls; no other organization changes |
| Wallet.OneSignupGrantExactly | internal/billingcredit/credit.go:147-151 | at most one signup grant per organization if and only if all its requests spell its identifier alike |
| Wallet.SandboxTelescopes | internal/billingcredit/credit.go:155-208 | total sandbox debits are the larger of the seed and the highest reading, less the seed, however readings rise and fall |
| Wallet.SandboxDebitsOfRun | internal/billingcredit/credit.go:155-208 | over any run an organization without a legacy baseline is charged its highest reading less its first, and one with a baseline what the highest reading exceeds the baseline by |
| Wallet.InferenceByRequests | internal/billingmeter/meter.go:95-136 | the inference part depends only on the set of settled requests and costs, not on order, retries or the other writer |
| Wallet.CommitSettles | internal/billingmeter/meter.go:95-136 | a settlement takes its cost from the inference part if its request identifier is new, and changes nothing else of anybody |
| Wallet.OrderIsIrrelevantExactly | internal/billingmeter/meter.go:109-113 | order is irrelevant if and only if no request identifier goes with two organizations or two costs |
| Wallet.Billing.Resolve | internal/billingcredit/credit.go:129-249 | commits exactly one resolve transaction or nothing; a commit grants once per spelling, starts the watermark at the baseline or else at the reading, and charges exactly what the reading exceeds it by; reports grants, use and what remains from the new ledger; a text that is no UUID fails |
| Wallet.Billing.DebitInference | internal/billingmeter/meter.go:77-137 | commits exactly one settlement or nothing, charging a new request identifier its cost and a known one nothing; empty identifiers fail and costs of zero or less do nothing |
| Wallet.Serve | internal/billingcredit/credit.go:124-128 | any history of both writers with rollbacks and lost replies, serialised as it is for one spelling of an organization, ends sound and telescoped |
| TenantBootstrap.StepKeepsValid | cmd/serve/managed_storage_tenant_bootstrap.go:73-106 | every atomic step of every caller keeps the protocol's invariant |
| TenantBootstrap.OneRunningPerTenant | cmd/serve/managed_storage_tenant_bootstrap.go:83-96 | in every interleaving at most one EnsureDefault runs per tenant |
| TenantBootstrap.NoneStartsAfterSuccess | cmd/serve/managed_storage_tenant_bootstrap.go:78-99 | none starts for a tenant for which one runs or has succeeded |
| TenantBootstrap.ClosedExactlyOnce | cmd/serve/managed_storage_tenant_bootstrap.go:100-104 | a channel is closed at most once, exactly when its attempt left the table, and its leader is at work until then |
| TenantBootstrap.WaiterGetsLeadersResult | cmd/serve/managed_storage_tenant_bootstrap.go:85-90 | a waiter leaves with what EnsureDefault answered its leader |
| TenantBootstrap.PassedOnlyAfterSuccess | cmd/serve/managed_storage_tenant_bootstrap.go:44-69 | an authenticated request of a tenant reaches the next handler only after a success for that tenant |
| TenantBootstrap.LeaderCanRelease | cmd/serve/managed_storage_tenant_bootstrap.go:96-104 | a waiter is never stranded: its leader can always close the channel by itself |
| TenantBootstrap.EveryStepAdvances | cmd/serve/managed_storage_tenant_bootstrap.go:54-106 | in every reachable state each possible step brings its caller closer to an end and changes no other caller |
| TenantBootstrap.GivesUpOnlyOnExpiry | cmd/serve/managed_storage_tenant_bootstrap.go:85-92 | a caller gives up only while waiting, when its time is up |
| TenantBootstrap.ReadyTenantsPass | cmd/serve/managed_storage_tenant_bootstrap.go:44-56 | a request without authentication or tenant, or of a ready tenant, passes in one step |
| TenantBootstrap.BlankTenantsPass | cmd/serve/managed_storage_tenant_bootstrap.go:49-53 | a request whose tenant identifier is blank passes in one step |
| TenantBootstrap.SuccessPasses | cmd/serve/managed_storage_tenant_bootstrap.go:54-106 | in every reachable state a leader whose call succeeded passes after at most three steps of its own, and a waiter whose attempt was closed with a success after two |
| TenantBootstrap.NextCallerTriesAgain | cmd/serve/managed_storage_tenant_bootstrap.go:93-95 | a caller that finds neither a ready tenant nor a running attempt starts one |
| Sessions.StepKeepsValid | cmd/sandbox-agent/sessions.go:164-197 | every atomic step, kills included, keeps the protocol's invariant |
| Sessions.OneCreationWithoutKill | cmd/sandbox-agent/sessions.go:184-196 | without a kill of the session one creation runs at a time and none follows a success |
| Sessions.OverlapOnlyAfterKill | cmd/sandbox-agent/sessions.go:344-346 | two creations overlap only if a kill removed the older entry |
| Sessions.KillLetsCreationsOverlap | cmd/sandbox-agent/sessions.go:344-346 | a kill while a creation runs lets the next request start a second one |
| Sessions.CreationsDoOverlap | cmd/sandbox-agent/sessions.go:344-346 | from the start, one kill suffices for two creations of one session to overlap |
| Sessions.NoneStartsAfterSuccess | cmd/sandbox-agent/sessions.go:169-171 | a creation starts only when every earlier one for the session failed or was killed |
| Sessions.WaiterGetsEntrysOutcome | cmd/sandbox-agent/sessions.go:171-182 | a waiter leaves with the outcome of the entry it joined |
| Sessions.OutcomesAreTmuxs | cmd/sandbox-agent/sessions.go:185-196 | a caller ends with a session or an error only if tmux answered so for that entry |
| Sessions.StaleDeleteIsHarmless | cmd/sandbox-agent/sessions.go:175-190 | a late compare-and-delete removes only an entry whose creation failed, never a newer one |
| Sessions.CreatorCanRelease | cmd/sandbox-agent/sessions.go:184-187 | a waiter is never stranded, even if its entry was killed |
| Sessions.EveryStepAdvances | cmd/sandbox-agent/sessions.go:164-197 | in every reachable state each step brings its request closer to an end; a request waits for tmux or for its entry only |
| Sessions.EndsAreRight | cmd/sandbox-agent/sessions.go:164-197 | a request ends with a session where its creation succeeded, with the error where it failed, and otherwise only without an identifier or as a kill |
| Sessions.RequestsBegin | cmd/sandbox-agent/sessions.go:169-184 | a request joins the entry of its session or opens a new one, and a kill removes it |
| Sessions.OthersAreLeft | cmd/sandbox-agent/sessions.go:164-197 | a step moves its own request only |
| Sessions.FailedEntryIsGone | cmd/sandbox-agent/sessions.go:175-190 | a request is turned away with an error only once the failed entry is gone |
| ChatRewrite.MapRoleTwice | internal/api/api.go:1166-1181 | the role mapping leaves its own results alone |
| ChatRewrite.MapRoleExactly | internal/api/api.go:1166-1181 | each of the five roles, in any case, becomes its own name in capitals behind "ROLE_", and every other string stays |
| ChatRewrite.RewriteMessage | internal/api/api.go:1044-1101 | a known role becomes its own name in capitals and any other stays; content and replayed provider content become what the gateway expects, other keys are untouched, and exactly the messages outside the normal form are changed |
| ChatRewrite.MoveSampling | internal/api/api.go:1114-1149 | every sampling key at the top is found under sampling with its value, zeroes included, and none is left at the top |
| ChatRewrite.SamplingKeys | internal/api/api.go:1119-1130 | which keys are moved |
| ChatRewrite.Transform | internal/api/api.go:1018-1163 | one pass changes exactly the bodies outside the normal form and ends in it |
| ChatRewrite.ConnectRoute | internal/api/api.go:606-619 | the second pass of the Connect JSON route changes nothing |
| ChatRewrite.TextIsKept | internal/api/api.go:1073-1099 | a message that replays no provider content keeps its text |
| ChatRewrite.ReplayReadsBackExactly | internal/api/api.go:957-994 | a replayed chunk reads back as the same value if and only if it is not a string that is itself valid JSON text |
| ChatRewrite.ReplayedPart | internal/api/api.go:975-994 | an object is replayed under its own type, or as "provider" if it has none, with its JSON, and with its text if it is of type "text" |
| ChatResponse.AddFrame | internal/api/api.go:873-890 | one frame's deltas are added to the choices they belong to, and choices met so far have no gaps |
| ChatResponse.ToOpenAI | internal/api/api.go:813-944 | the completion holds, per choice, all text and native chunks of the frames in order, the last finish reason, and the last identifier, model, creation time and usage; there is none if no frame has a choice |
| ChatResponse.HeadingIsLast | internal/api/api.go:858-889 | of identifier, model, creation time, usage and finish reason the last that is filled counts |
| ChatResponse.WidthIsWidest | internal/api/api.go:870-873 | there are as many choices as the widest frame has |
| ChatResponse.ParseInt64Exactly | internal/api/api.go:1007-1011 | a text is read as a number if and only if it is that number in decimal, with a fitting sign and any leading zeros, and fits 64 bits |
| ChatResponse.CreatedExactly | internal/api/api.go:996-1013 | the creation time is the number that the field, a JSON number or string, spells |
| ChatResponse.FragmentationIsInvisible | internal/api/api.go:814-817 | cutting any frame into two deltas, also in the middle of a text, gives the same completion |
| Chunker.FindSplitPoint | internal/channels/formatter.go:92-119 | cuts behind the last of the most welcome separators in the second half, and at the end only if there is none |
| Chunker.SplitPreference | internal/channels/formatter.go:92-119 | a paragraph break goes before a line break, that before the ends of sentences, and those before a blank |
| Chunker.Formatter.constructor | internal/channels/formatter.go:21-56 | the limit is the requested one, or the platform's own if that is not positive or exceeds it |
| Chunker.Formatter.FormatResponse | internal/channels/formatter.go:61-89 | terminates with nonempty trimmed chunks within the limit whose sequence, separated by white space only, is the trimmed text; words are broken only where no break is offered |
| Chunker.ChunksKeepInk | internal/channels/formatter.go:74-86 | the chunks hold exactly the characters of the text other than white space, in order |
| Chunker.ResponseKeepsInk | internal/channels/formatter.go:61-89 | so do the chunks of any text, trimmed or not |
| EventStream.Decoder.Next | cmd/sandbox/client.go:648-704 | reading byte by byte yields the next event of the stream and leaves the stream right behind it |
| EventStream.ReadAll | cmd/sandbox/client.go:648-704 | reading on yields all events of the stream, then its end |
| EventStream.DecodeOfEncode | cmd/sandbox/client.go:654-684 | decoding what was encoded, with any lines in any order and any mix of line endings, gives the events meant and carries nothing over; lines other than event and data lines do not show |
| EventStream.EventOfExactly | cmd/sandbox/client.go:654-684 | an event is named by its last event line, or "message" without one, and its data are its trimmed data lines in order, one to a line; without a name and data there is none |
| EventStream.TrimmedValuesComeBack | cmd/sandbox/client.go:658-664 | a named event whose values have no white space at their ends comes back exactly as sent |
| EventStream.UnterminatedEvent | cmd/sandbox/client.go:688-701 | an unterminated last event is delivered at the end of the stream and lost if the stream breaks |
| Alerts.OneActiveStep | internal/api/grpc/alerts/v1/server.go:450-468 | a step keeps one active event per rule exactly when it is not the acknowledgement of a resolved event beside an active one |
| Alerts.OneActiveAlways | internal/alerts/evaluator.go:91-137 | with acknowledgements of active events only, a rule never has two active events |
| Alerts.ActiveExactlyWhenBreached | internal/alerts/evaluator.go:96-137 | after a stored tick a rule has an active event exactly when the reading stands to the threshold as the operator says, and none if the operator is no known one |
| Alerts.FiresExactly | internal/alerts/evaluator.go:96-113 | a tick creates an event, firing now, exactly when it breaches beside no active event and is stored |
| Alerts.NotifiesExactly | internal/alerts/evaluator.go:96-128 | a tick notifies exactly when it breaches beside no active event, or beside a firing one never notified or last notified five minutes ago or more |
| Alerts.ResolvesExactly | internal/alerts/evaluator.go:129-137 | a tick changes a status exactly when it does not breach beside an active event and is stored, to resolved |
| Alerts.ResolvedStaysExactly | internal/api/grpc/alerts/v1/server.go:461-464 | resolved events stay resolved in exactly the runs that acknowledge active events only |
| Alerts.HonestStepExactly | internal/alerts/evaluator.go:114-125 | a step keeps count and spacing exactly when it is not a re-notification whose write fails |
| Alerts.BehindForever | internal/alerts/evaluator.go:119-125 | a count that fell behind stays behind |
| Alerts.DeliveriesAreRecordedExactly | internal/alerts/evaluator.go:97-126 | an event's count is the number of targets reached for it and its deliveries are at least the interval apart in exactly the runs in which every re-notification is stored |
| Alerts.UnstoredFiringsRepeat | internal/alerts/evaluator.go:97-113 | while a new firing cannot be stored every breach notifies again, however soon |
| Alerts.NoDeliveryAfterAcknowledgement | internal/alerts/evaluator.go:114-128 | nothing is delivered for an event after a whole acknowledgement or resolution |
| Alerts.Evaluator.EvaluateRule | internal/alerts/evaluator.go:75-140 | an evaluation with nothing in between is one tick of the life cycle; a rule fired from elsewhere or a failed query changes nothing; after a stored one the rule has an active event exactly when its operator holds between reading and threshold; it fails exactly when the query fails or something it has to store is refused |
| Alerts.Evaluator.AcknowledgeAlert | internal/api/grpc/alerts/v1/server.go:437-471 | any known event becomes acknowledged, resolved ones included |
| Alerts.Evaluator.ResolveAlert | internal/api/grpc/alerts/v1/server.go:473-503 | any known event becomes resolved |
| AlertSchedules.IsolatedIsSerial | internal/alerts/postgres_store.go:250-275 | a schedule of reads, notifications and writes in which evaluations and user commands do not mix does what the commands do one after the other |
| AlertSchedules.IsolatedDeliveries | internal/alerts/evaluator.go:91-126 | in such schedules count and spacing hold exactly if every re-notification was stored |
| AlertSchedules.IsolatedOneActive | internal/alerts/evaluator.go:91-137 | in such schedules, with acknowledgements that find their event active, no rule has two active events |
| AlertSchedules.IsolatedSilence | internal/alerts/evaluator.go:114-128 | in such schedules an event found acknowledged or resolved at a quiet moment is never notified of again and keeps its count |
| AlertSchedules.SilenceExactly | internal/alerts/evaluator.go:91-128 | in every schedule that follows, nothing is delivered for an acknowledged or resolved event and it does not fire again, if and only if no evaluation is under way that has read it as firing and will deliver for it or write it back |
| AlertSchedules.ThreatIsOfItsRule | internal/alerts/evaluator.go:91-94 | only an evaluation of the event's own rule can undo an acknowledgement |
| AlertSchedules.CountsAreRightExactly | internal/alerts/postgres_store.go:262-273 | with one evaluator loop and user commands anywhere, counts and spacing are right throughout exactly if every user's write finds its record not re-notified since its read and every re-notification is stored |
| AlertSchedules.UserWriteKeepsCountExactly | internal/alerts/postgres_store.go:262-273 | a user's write keeps count and spacing exactly if nobody notified since its read |
| AlertSchedules.AcknowledgementIsLost | internal/alerts/evaluator.go:91-125 | an acknowledgement between an evaluation's read and its write is followed by a delivery and erased |
| AlertSchedules.StaleAcknowledgementRollsBack | internal/api/grpc/alerts/v1/server.go:445-468 | a stale acknowledgement takes back a re-notification's count and time |
| Dispatch.BuildNames | internal/channels/dispatcher.go:228-239 | every key leads to the last agent that has it as its lower-case name, with blanks or with hyphens |
| Dispatch.AnswersExactly | internal/channels/dispatcher.go:228-239 | which keys those are, character by character |
| Dispatch.BuildAliases | internal/channels/dispatcher.go:242-249 | every alias leads to the last agent that has it |
| Dispatch.CatalogIsUnique | internal/channels/dispatcher.go:228-252 | that determines the maps |
| Dispatch.MatchDirectMention | internal/channels/dispatcher.go:255-293 | picks the longest bounded mention, names before equal aliases |
| Dispatch.MentionsExactly | internal/channels/dispatcher.go:274-277 | a key is mentioned if it is the whole text or is followed by a blank, a comma or a colon |
| Dispatch.MentionIsUnique | internal/channels/dispatcher.go:263-283 | that choice is the same for every iteration order |
| Dispatch.SortByScore | internal/channels/dispatcher.go:327-332 | the in-place insertion sort is a stable descending sort |
| Dispatch.StableSortIsUnique | internal/channels/dispatcher.go:327-332 | there is only one stable descending sort of a list, with the same entries |
| Dispatch.ScoreAgents | internal/channels/dispatcher.go:304-325 | an agent's score is the number of pairs of a longer word of the message and a text of the agent, its description with its name or a tool's name, in which the word occurs |
| Dispatch.ScoreCounts | internal/channels/dispatcher.go:308-325 | counting word by word and tool by tool gives the number of such pairs |
| Text.SpaceCodes | internal/channels/formatter.go:62 | white space is the blank and the controls 9 to 13 |
| Text.FieldsOfWord | internal/channels/dispatcher.go:304 | what stands between white space is a word of the message |
| Text.FieldsOfBlank | internal/channels/dispatcher.go:304 | and white space alone has no words |
| Text.LowerExactly | internal/channels/dispatcher.go:256 | capitals become small letters one by one and nothing else changes |
| Dispatch.RankAgents | internal/channels/dispatcher.go:334-353 | the suggestions are the first three, or all if there are fewer, of the stable descending sort by score |
| Dispatch.AgentDispatcher.Dispatch | internal/channels/dispatcher.go:97-178 | spawn command, mention, single agent and click are tried in this order; nothing stays pending unless the buttons were sent |
| Dispatch.AgentDispatcher.HandleDispatchInteraction | internal/channels/dispatcher.go:181-206 | a dispatch resolves at most once and only to one of its own suggestions; any click uses it up |
| Dispatch.AgentDispatcher.CleanupExpired | internal/channels/dispatcher.go:209-225 | exactly the expired dispatches are removed |
| Enforcement.GroupTenantsByOrganization | cmd/serve/shared_sandbox_billing.go:315-331 | one group per billing key in order of first occurrence, with all its tenants in order |
| Enforcement.SelectInOrder | cmd/serve/shared_sandbox_billing.go:318-329 | a group lists its tenants in their order |
| Enforcement.TenantInOneGroup | cmd/serve/shared_sandbox_billing.go:315-331 | every tenant is in exactly one group |
| Enforcement.ShareGroupExactly | cmd/serve/shared_sandbox_billing.go:315-331 | two tenants share a group if and only if they have one named organization, or one has an organization of the other's name and the other has none |
| Enforcement.ReportAll | cmd/serve/shared_sandbox_billing.go:215-293 | tenants of allowed groups are resumed, all tenants of denied groups are asked to stop, failed reports leave their group alone, and without a stopper nothing is done |
| Enforcement.NoTenantBothWays | cmd/serve/shared_sandbox_billing.go:222-291 | in one tick no tenant is both resumed and stopped |
| Reconnect.Normalized | internal/channels/reconnect.go:40-57 | positive settings are kept and others become one second, five minutes and a doubling |
| Reconnect.BackoffStep | internal/channels/reconnect.go:110-114 | multiplying and clamping step by step is multiplying first and clamping once |
| Reconnect.Connector.Start | internal/channels/reconnect.go:64-126 | every wait is the loop's own rule for its place in its series, and the closed form within the maximum exactly if the initial delay is; it returns to the initial delay after a stable connection, and the loop gives up exactly when a series reaches the limit |
| Reconnect.UnstableDropsExhaust | internal/channels/reconnect.go:86-97 | with a limit, unstable drops alone end the loop after exactly that many |
| Reconnect.ClosedFormExactly | internal/channels/reconnect.go:154-160 | once there was a wait, all waits are the closed form and within the maximum if and only if the initial delay is within it |

## Left out

- Honesty.DeployMany: assumes that graphs of different roots agree on the agents they share; `Honesty.SurvivesExactly` and `Honesty.StaleStamp` show that without it the property fails.
- Honesty.DeployTwice: assumes that stamps record no name twice and only identifiers that were issued, since the comparison of a stamp that repeats a name depends on map order, and no other writer.
- Deployment.RunPlan: the order of a stamp's trigger list is not modelled, because comparison sorts it.
- Fleet.Gateway.Send: validation of cron expressions and event sources is one of the ways in which a call can be refused, not a function of the request.
- Rollout.ConvergeAll: polling for the projected state is one read that matches or fails the run; the timeout and the projection delay are not modelled.
- Triggers.SyncTriggers: the groups of triggers by name are kept as the name each trigger is grouped under, so the order within a group and the aliasing of list storage are not modelled; retries, timeouts and filters of triggers are left out because deployment never compares them.
- Manifests, digests and project hashes are opaque values; a project that cannot be compiled is one that fails before the first call. The loader's guarantees (distinct trimmed trigger names, a default timezone, distinct agent names) are preconditions.
- Wallet.Billing.Resolve: a transaction is atomic and the advisory lock serialises both writers, which it does not for two spellings of one organization; the subscription check before it and the writes of the central billing service are left out.
- TenantBootstrap.StepKeepsValid: a leader's own timeout is one of the answers of EnsureDefault.
- Sessions.StepKeepsValid: what tmux does is not modelled beyond its answer, and a kill is the moment at which it removes the table entry.
- ChatRewrite.Transform: numbers are opaque tokens, so the precision lost by decoding into floating point does not show; duplicate keys and invalid JSON are left to the parser; lower-casing is that of ASCII letters.
- Chunker.Formatter.FormatResponse: text is a sequence of one-byte characters with ASCII white space; rune boundaries are left out because the hard split is by byte.
- Alerts.Evaluator.EvaluateRule: states an evaluation with nothing in between, as do the two user commands; interleavings are the subject of `AlertSchedules`. One clock reading stands for the three of an evaluation, ties between events fired at the same time go to the later one, and the cut-off at the latest 250 events is left out.
- AlertSchedules.CountsAreRightExactly: takes evaluations to follow one another, as they do in one evaluator loop; so does `AlertSchedules.IsolatedIsSerial`.
- Dispatch.AgentDispatcher.Dispatch: the spawn pattern's match and the stored aliases are inputs, identifiers are new, lower-casing is that of ASCII letters, and message texts and labels are left out.
- Reconnect.Connector.Start: the multiplier is an integer and durations do not overflow; cancellation is observed between connections.
- ChatResponse.ToOpenAI: frames are taken as decoded from their lines.
- Embeddings, transport, authentication, SQL, configuration files, pulling agents, catalog distribution, query building, browser streaming, mounts and firewall rules are left out because they are transport or thin wrappers.
