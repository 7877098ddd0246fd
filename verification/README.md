# Muldro backend: a verified model

Dafny models of the parts of the backend whose correctness is hardest to see by reading, and
proofs of what they guarantee over every input, every schedule or every run. `dafny verify
dfyconfig.toml` checks the whole project.

* **Entity merge** (`UnionFind`, `EntityTables`, `EntityClusters`, `EntityMerge`,
  `EntityMergeTheorems`, `FactSupersede`, on top of `Orders`): the migration that unites duplicate
  entities with a path-compressing union-find, re-points five kinds of reference at the oldest
  entity of each cluster and removes what the re-pointing made redundant, and the migration after
  it that leaves one current fact per entity and attribute. Tables are maps by primary key; where a
  statement compares physical row positions, those are an arbitrary injective function.
* **Idempotency ledger** (`IdempotencyLedger`, `LedgerProtocol`): the reservation ledger as a class,
  and the protocol as a machine whose events are single transactions, tool replies and crashes of
  any number of workers. A schedule is any list of events; an event that does not fit does nothing.
* **Approval gate** (`TrustGate`, `GateProtocol`, `GateReplays`, `GateRejections`,
  `GateExecution`): one execution of the gate from the top, and the
  machine of racing, crashing and replayed executions around the persisted approval rows.
* **Approval decisions** (`Approvals`, `ApprovalProtocol`): the handlers of one approval row, and
  every interleaving of decisions, unlocked edits and replays of a prepared action.
* **JSON from a language model** (`JsonStrings`, `Json`, `JsonGrammar`, `JsonReading`,
  `JsonSoundness`, `JsonPrinting`, `LlmUtils`): Python's decoder; the grammar of RFC 8259 written out
  apart from it (with lone surrogates, `NaN` and the infinities), as texts that are put together with
  any white space, any escapes and any numerals; proofs that the decoder reads exactly these texts;
  a printer in the style of `json.dumps`; and the tolerant parser that looks for the first value in
  prose or inside a fence.
* **Chat stream** (`ChatFold`, `ConversationCount`): the in-place fold of the event stream against
  a batch specification, the totals stored with the message, and the conversation's counter.
* **Three smaller machines and a repair**: `SurfaceIds` (ids with a doubled prefix), `OAuthState`
  (single-use state tokens, section 10.12 of RFC 6749), `Enforcement` (secret-named keys) and
  `ShadowLoop` (a tool loop whose writes are suppressed).

Several properties one might expect hold only under a condition. Each is stated as an
if-and-only-if, with the run or the input that breaks it otherwise:

* The merge's alias pass compares text only. However rows lie when it deletes, a strong identifier
  is kept exactly when no alias row of its cluster has the same text under a kind that is not
  strong, or in another workspace (`StrongIdentifierKeptInEveryOrderIff`). Clusters stay inside a
  workspace exactly when no strong identifier is shared across two (`ClustersStayInWorkspaceIff`).
* The ledger's at-most-once promise needs an existing workspace row (otherwise the insert is refused,
  no row is found, and the call goes ahead unreserved every time), callers that honour the in-flight
  conflict (the checkpointing node in `backend/spikes/postgres_saver/probe.py` does not), and error
  answers that mean nothing happened (`AtMostOnceIffSafe`). Under these a write can still be
  completed exactly when its row was not left in flight by a worker that is gone
  (`CompletableIffNotOrphaned`).
* The gate does not record that it cleared a call, so a replay may hold and reject a call that has
  already run, if the assessment changes its answer (`RejectionIsFinalIffAnswersAgree`).
* A prepared row that went back to pending can still be executed exactly when its ledger entry was
  not left in flight, which an attempt that raises inside its reservation does
  (`PendingCanExecuteIffLedgerFree`). Rejected or failed means that nothing happened exactly when
  calls that err or raise have no effect and the record of a successful one never raises
  (`RefusalMeansNothingHappenedIff`); the action takes effect at most once exactly when those calls
  have no effect or a ledger write that raises was not committed (`ApprovalProtocol.AtMostOnceIff`).
  A row whose replay died stays approved for ever without running (`StrandedForEver`).
* Token totals miss what an agent spent before it was started again
  (`TotalIsAllIffLosersAreFree`); the message counter is exact only for owned conversations whose
  writes succeed (`ExactIffClean`).
* The surface-id repair is described as idempotent. A second run goes through and changes nothing
  exactly when no row the first one kept is left with something to repair (`SecondRunIdleIffFlat`),
  as with ids of at most two underscores. A word written three times is repaired twice, and longer
  ids can collide, in the first run or only in the second, which then fails
  (`TripledIdIsRepairedTwice`, `LongIdsCollide`, `SecondRunCanFail`).

## Model

| member | source | states |
|---|---|---|
| UnionFind.ClimbEndsAtRoot | backend/alembic/versions/594a35f829ee_merge_duplicate_entities_unique_.py:29-36 | every chain of parents reaches the root after finitely many steps, so `find` terminates |
| UnionFind.RootIsRoot | backend/alembic/versions/594a35f829ee_merge_duplicate_entities_unique_.py:29-36 | that root is a node that is its own parent and its own root |
| UnionFind.RootsAreDetermined | backend/alembic/versions/594a35f829ee_merge_duplicate_entities_unique_.py:29-36 | the parent map alone determines every node's root |
| UnionFind.CompressionKeepsRoots | backend/alembic/versions/594a35f829ee_merge_duplicate_entities_unique_.py:34-35 | pointing a node straight at its root keeps the forest acyclic and every root the same |
| UnionFind.LinkingJoinsRoots | backend/alembic/versions/594a35f829ee_merge_duplicate_entities_unique_.py:38-41 | linking one root under another joins exactly those two trees |
| UnionFind.DisjointSets.Find | backend/alembic/versions/594a35f829ee_merge_duplicate_entities_unique_.py:29-36 | `find` registers its node, returns its root, and compresses without changing any other root |
| UnionFind.DisjointSets.Union | backend/alembic/versions/594a35f829ee_merge_duplicate_entities_unique_.py:38-41 | `union` gives both trees the root of the second and leaves all others |
| UnionFind.RootsAreComponents | backend/alembic/versions/594a35f829ee_merge_duplicate_entities_unique_.py:43-75 | same root exactly when connected, once all edges have been united and nothing else has |
| EntityClusters.ClusterEntities | backend/alembic/versions/594a35f829ee_merge_duplicate_entities_unique_.py:43-75 | after both loops two entities have one root exactly when they are linked by the closure of sharing a name key or a strong alias in a workspace |
| EntityClusters.CollectClusters | backend/alembic/versions/594a35f829ee_merge_duplicate_entities_unique_.py:77-80 | the cluster dictionary files every node once, under its root |
| EntityTables.SameKeeperIffLinked | backend/alembic/versions/594a35f829ee_merge_duplicate_entities_unique_.py:82-87 | two entities have the same keeper exactly when they are linked |
| EntityTables.KeeperIsOldest | backend/alembic/versions/594a35f829ee_merge_duplicate_entities_unique_.py:86-87 | nobody linked to an entity was created before its keeper, and of those created at once the keeper has the least id |
| Orders.LessIffFirstDifference | backend/alembic/versions/594a35f829ee_merge_duplicate_entities_unique_.py:86 | ids are compared at the first character in which they differ, a proper prefix being less |
| EntityMerge.CascadeKeepsForeignKeys | backend/alembic/versions/594a35f829ee_merge_duplicate_entities_unique_.py:106-109 | deleting entities takes just the rows that name them along, so that no foreign key dangles |
| EntityMerge.DeletingLosersCascadesNowhere | backend/alembic/versions/594a35f829ee_merge_duplicate_entities_unique_.py:88-109 | once the losers of a cluster are re-pointed, deleting them takes no other row along |
| EntityMerge.RepointingComposes | backend/alembic/versions/594a35f829ee_merge_duplicate_entities_unique_.py:88-105 | re-pointing loser after loser is re-pointing all at once, in every table |
| EntityMerge.Database.MergeDuplicateEntities | backend/alembic/versions/594a35f829ee_merge_duplicate_entities_unique_.py:25-135 | the imperative merge leaves exactly the tables described by keepers: losers gone, references moved, then the three de-duplication passes |
| EntityMergeTheorems.OneSurvivorPerCluster | backend/alembic/versions/594a35f829ee_merge_duplicate_entities_unique_.py:82-109 | of every cluster exactly the oldest entity survives, its row unchanged |
| EntityMergeTheorems.AliasRowsPointAtKeepers | backend/alembic/versions/594a35f829ee_merge_duplicate_entities_unique_.py:88-98 | each remaining alias row names the keeper of the entity it named |
| EntityMergeTheorems.RelationshipRowsPointAtKeepers | backend/alembic/versions/594a35f829ee_merge_duplicate_entities_unique_.py:88-98 | each remaining relationship joins the keepers of the entities it joined |
| EntityMergeTheorems.FactsAreAllKept | backend/alembic/versions/594a35f829ee_merge_duplicate_entities_unique_.py:88-98 | no fact is lost, and each names the keeper of the entity it named |
| EntityMergeTheorems.MemoriesNameKeepers | backend/alembic/versions/594a35f829ee_merge_duplicate_entities_unique_.py:99-135 | each memory names exactly the keepers of the entities it named, each once; an empty array becomes null |
| EntityMergeTheorems.ForeignKeysHold | backend/alembic/versions/594a35f829ee_merge_duplicate_entities_unique_.py:88-109 | no foreign key dangles after the merge |
| EntityMergeTheorems.AliasTextKeptOnce | backend/alembic/versions/594a35f829ee_merge_duplicate_entities_unique_.py:112-118 | each alias text of a cluster stays on its keeper in exactly one row, the first in row order |
| EntityMergeTheorems.TriplesDistinct | backend/alembic/versions/594a35f829ee_merge_duplicate_entities_unique_.py:119-127 | no self-loop and no repeated relationship triple is left |
| EntityMergeTheorems.TripleKeptUnlessLooped | backend/alembic/versions/594a35f829ee_merge_duplicate_entities_unique_.py:119-127 | a relationship's triple survives exactly when its ends were not merged into one |
| EntityMergeTheorems.FirstTripleStays | backend/alembic/versions/594a35f829ee_merge_duplicate_entities_unique_.py:119-127 | of the rows whose triples became one, the first in row order is left |
| EntityMergeTheorems.ConstraintsHold | backend/alembic/versions/594a35f829ee_merge_duplicate_entities_unique_.py:138-151 | both new uniqueness constraints hold for the merged tables |
| EntityMergeTheorems.MergingAgainChangesNothing | backend/alembic/versions/594a35f829ee_merge_duplicate_entities_unique_.py:25-135 | a second merge, under any row order, changes no row, and memory arrays only in order |
| EntityMergeTheorems.SomeOutcome | backend/alembic/versions/594a35f829ee_merge_duplicate_entities_unique_.py:25-135 | every database whose foreign keys hold has a merged outcome, under every row order |
| EntityMergeTheorems.StrongIdentifierKeptIffFirst | backend/alembic/versions/594a35f829ee_merge_duplicate_entities_unique_.py:112-118 | given where rows lie at the delete, a strong identifier is still recorded exactly when the first row of its text in the cluster is that identifier |
| EntityMergeTheorems.StrongIdentifierKeptInEveryOrderIff | backend/alembic/versions/594a35f829ee_merge_duplicate_entities_unique_.py:112-118 | however rows lie, it is kept exactly when every alias row of its text in the cluster is that identifier |
| EntityMergeTheorems.StrongIdentifierCanBeLost | backend/alembic/versions/594a35f829ee_merge_duplicate_entities_unique_.py:112-118 | a database with an address stored first as a plain name and then as an email has a merged outcome without that identifier |
| EntityMergeTheorems.ClustersStayInWorkspaceIff | backend/alembic/versions/594a35f829ee_merge_duplicate_entities_unique_.py:53-75 | no cluster crosses workspaces exactly when no strong identifier is recorded for entities of two workspaces |
| EntityMergeTheorems.ClustersStayInWorkspace | backend/alembic/versions/594a35f829ee_merge_duplicate_entities_unique_.py:53-75 | no cluster crosses workspaces as long as strong aliases carry their entity's workspace |
| FactSupersede.FactTable.Rank | backend/alembic/versions/8129484eed6f_entity_facts_single_current_per_.py:37-50 | the window functions: the keeper is the newest current fact of the partition, and the row number exceeds one exactly for the others |
| FactSupersede.NewestBecameValidLast | backend/alembic/versions/8129484eed6f_entity_facts_single_current_per_.py:37-50 | the fact that is kept became valid last, the greatest id deciding among those that did at once |
| FactSupersede.FactTable.Supersede | backend/alembic/versions/8129484eed6f_entity_facts_single_current_per_.py:52-55 | the update closes every current fact that is not the newest, and nothing else |
| FactSupersede.OneCurrentLeft | backend/alembic/versions/8129484eed6f_entity_facts_single_current_per_.py:32-57 | of the facts of one attribute exactly the newest current one stays current, unchanged |
| FactSupersede.IndexHolds | backend/alembic/versions/8129484eed6f_entity_facts_single_current_per_.py:58-64 | the partial unique index can be created |
| FactSupersede.ClosedFactsNameTheSurvivor | backend/alembic/versions/8129484eed6f_entity_facts_single_current_per_.py:52-55 | a fact changes only by being closed now, pointing at a newer fact of its attribute that is still current |
| FactSupersede.SupersedingAgainChangesNothing | backend/alembic/versions/8129484eed6f_entity_facts_single_current_per_.py:32-57 | running the update again at any later time changes nothing |
| FactSupersede.MergeThenSupersede | backend/alembic/versions/8129484eed6f_entity_facts_single_current_per_.py:32-64 | after the merge and this repair a cluster's attribute has one current fact, on the keeper: the newest of all its entities' current facts |
| IdempotencyLedger.Ledger.Reserve | backend/src/services/idempotency/ledger.py:45-149 | which outcome `reserve` gives for each state of the key's row, and what it writes |
| IdempotencyLedger.Ledger.Execute | backend/src/services/idempotency/wrapper.py:62-112 | reads bypass the ledger; a write is called exactly when no completed or in-flight row stands in its way, and is recorded (what the record then does is in the next five rows) |
| IdempotencyLedger.ReplyIsRecorded | backend/src/services/idempotency/ledger.py:151-169 | a called write is on record as done with exactly the result that the tool answered, or as failed |
| IdempotencyLedger.RetryAnswersTheResult | backend/src/services/idempotency/wrapper.py:86-97 | an execution of a write on record as done calls nothing and answers the recorded result |
| IdempotencyLedger.DoneStaysDone | backend/src/services/idempotency/wrapper.py:62-112 | no execution, of that write or any other, takes such a record away or changes its result |
| IdempotencyLedger.FailureIsRetried | backend/src/services/idempotency/ledger.py:113-140 | an execution of a write on record as failed calls the tool again |
| IdempotencyLedger.ReadsBypass | backend/src/services/idempotency/wrapper.py:62-69 | what only reads is called every time and leaves the ledger alone |
| LedgerProtocol.EffectHappensOnce | backend/src/services/idempotency/ledger.py:45-169 | over every schedule of workers, replies and crashes the effect happens at most once, and exactly once when the row says completed |
| LedgerProtocol.SettledForEver | backend/src/services/idempotency/wrapper.py:98-112 | a completed row keeps its result for ever, an orphaned in-flight row stays in flight, and neither lets the effect happen again |
| LedgerProtocol.ResultIsTheReply | backend/src/services/idempotency/ledger.py:151-169 | over every schedule and in every world, the result of a completed row is what the tool answered to a call made on behalf of that row |
| LedgerProtocol.RetryAfterCompletionSkips | backend/spikes/postgres_saver/probe.py:88-121 | a replay after the record finds the completed row and calls nothing |
| LedgerProtocol.UnreservedAttemptFires | backend/src/services/idempotency/ledger.py:92-104 | without a workspace row an attempt goes ahead unreserved and leaves no trace |
| LedgerProtocol.AtMostOnceIffSafe | backend/src/services/idempotency/ledger.py:55-68 | at most once over all schedules exactly when the workspace exists, conflicts are honoured and errors are clean |
| LedgerProtocol.CompletableIffNotOrphaned | backend/src/services/idempotency/ledger.py:107-149 | over every schedule under these conditions, a write can still be completed exactly when its row was not left in flight by a worker that is gone |
| LedgerProtocol.AttemptIsExecute | backend/src/services/idempotency/wrapper.py:62-112 | an attempt that nothing disturbs leaves the ledger and the outside as one call of the wrapper does |
| LedgerProtocol.DeathOrphans | backend/src/services/idempotency/wrapper.py:98-112 | a worker that dies while it holds a reservation, or whose call raises, leaves the row in flight without an owner |
| TrustGate.Node.Execute | backend/src/deep_runtime/middleware/trust_gate.py:266-418 | one execution: what passes ungated, what is blocked, that an existing row means no assessment, and what is persisted before the interrupt |
| TrustGate.HeldCallsRunOnlyWhenApproved | backend/src/deep_runtime/middleware/trust_gate.py:319-418 | a gated call that needs approval or has a row runs exactly if somebody is there and has approved; otherwise it is refused, prepared or left waiting, always on the one row of that call |
| TrustGate.ClearedCallsRun | backend/src/deep_runtime/middleware/trust_gate.py:356-383 | a gated call without a row that is assessed to need no approval runs, and leaves no row |
| GateExecution.AloneIsExecute | backend/src/deep_runtime/middleware/trust_gate.py:319-418 | the machine's steps of one execution, nothing else happening in between, are what one call of the gate does |
| TrustGate.EffectiveModeOnlyTightens | backend/src/deep_runtime/confirmation.py:39-66 | under the effective mode every write the requested mode would pause (`permission_gate.py`, lines 82-113) is paused, and an unassessed one passes only for an entitled user who is present and asked for it |
| TrustGate.ModeIsKeptOrTightened | backend/src/deep_runtime/confirmation.py:39-66 | a mode is kept, except that an unknown one becomes `ask` and `bypass` becomes `auto` without a user who is present and entitled |
| TrustGate.PausedByMode | backend/src/deep_runtime/middleware/permission_gate.py:82-113 | `bypass` pauses nothing, `auto` all but what is assessed as reversible, not high and of internal reach, `ask` and any other mode everything |
| GateProtocol.OneApprovalPerCall | backend/src/deep_runtime/middleware/approval_persistence.py:186-252 | at most one approval per call over every schedule, named by every interrupt ever raised for it |
| GateProtocol.HandledOnlyWithLeave | backend/spikes/deep_autonomous/probe_gate_reconcile.py:241-331 | a gated call reaches the handler only after a decision that it needs no approval, or approved |
| GateProtocol.RejectedNeverRuns | backend/spikes/deep_autonomous/probe_gate_reconcile.py:288-331 | a rejected call that was never cleared has not run and never will |
| GateProtocol.LaterReplaysDoNotAssess | backend/src/deep_runtime/middleware/trust_gate.py:319-353 | once a call has a row no later execution assesses its risk, so a changed answer changes nothing |
| GateReplays.PostInterruptRunsNeedAVerdict | backend/src/orchestrator/agent_invoker.py:1079-1192 | the code after the interrupt runs only in executions started by a delivered verdict, one per call, or by a replay after it |
| GateReplays.PostInterruptOncePerRun | backend/spikes/deep_stream/interrupt_replay_side_effect_probe.py:62-71 | no execution runs the code after the interrupt twice |
| GateReplays.DeliveredVerdictsAreActedOn | backend/spikes/deep_autonomous/probe_gate_reconcile.py:275-331 | without a crash an execution that delivers a verdict and ends has run the code after the interrupt |
| GateReplays.PostInterruptRunsOncePerVerdict | backend/spikes/deep_stream/interrupt_replay_side_effect_probe.py:62-71 | without a crash or a later replay that code has run for a call in exactly one execution, the one that delivered |
| GateReplays.PreInterruptRunsAreUnbounded | backend/spikes/deep_stream/interrupt_replay_side_effect_probe.py:62-71 | the code before the interrupt can run any number of times while the call itself has not run |
| GateRejections.RejectionIsFinalIffAnswersAgree | backend/src/deep_runtime/middleware/trust_gate.py:356-383 | no schedule both runs and rejects a call exactly when the assessment never both clears and holds it |
| GateRejections.CrashedClearanceIsForgotten | backend/src/deep_runtime/middleware/trust_gate.py:356-383 | a process that dies between a clearance and the handler leaves nothing behind: the replay assesses again and may hold the call |
| Approvals.Approval.ApproveAction | backend/src/api/routes_approvals.py:156-228 | answer and new row of an approve request, for every status, expiry and chat flag |
| Approvals.Approval.RejectAction | backend/src/api/routes_approvals.py:447-520 | answer and new row of a reject request |
| Approvals.PendingRowIsDecidedInTime | backend/src/api/routes_approvals.py:808-843 | a decision on a pending row is too late exactly when the expiry lies before it, and otherwise makes the row approved or rejected by this decision and changes nothing else |
| Approvals.SettledRowsStay | backend/src/api/routes_approvals.py:819-843 | any other row is left as it is; the request agrees with it when it asks for what the row is, an executed row being approved too |
| Approvals.Approval.WriteEdit | backend/src/api/routes_approvals.py:665-674 | an edit's write changes what is displayed and nothing else |
| Approvals.Approval.RecordOutcome | backend/src/api/routes_approvals_prepared.py:122-176 | a replay's outcome as the row's status, with the decision taken back when it may be tried again |
| Approvals.OutcomeSettlesTheRow | backend/src/api/routes_approvals_prepared.py:122-176 | executed after a run, failed after a refusal or a tool error, pending again and undecided after anything that may be retried; the error is recorded, and nothing else changes |
| Approvals.ChatRowsAreNotDecided | backend/src/api/routes_approvals.py:124-148 | a chat approval is never decided here; expiry is noticed before the chat guard |
| Approvals.SecondDecisionIsIdle | backend/src/api/routes_approvals.py:819-843 | a second decision changes nothing and replays nothing |
| ApprovalProtocol.OneFlightWhileApproved | backend/src/api/routes_approvals.py:176-252 | at most one replay is in flight, and throughout it the row says approved with that request's own decision |
| ApprovalProtocol.PayloadAndMetadata | backend/src/api/routes_approvals_prepared.py:134-167 | the recorded payload never changes, and a pending row names no decision |
| ApprovalProtocol.ExecutedMeansOnce | backend/src/services/prepared_actions.py:176-203 | a row that says executed has had its effect, and only once, over every schedule of crashes and lost records, if tool errors are clean or a raising ledger write is not committed |
| ApprovalProtocol.AtMostOnceIff | backend/src/services/prepared_actions.py:176-203 | the action takes effect at most once over all schedules exactly under that condition |
| ApprovalProtocol.ApprovedExactlyInFlight | backend/src/api/routes_approvals_prepared.py:122-176 | without process death the row says approved exactly while a replay is in flight |
| ApprovalProtocol.DecisionIsFinal | backend/src/api/routes_approvals.py:819-843 | rejected, executed, failed and expired rows keep status and decision |
| ApprovalProtocol.RaisingOrphans | backend/src/services/prepared_actions.py:182-203 | an attempt that raises in its call or while recording leaves the ledger row in flight with nobody to record it |
| ApprovalProtocol.OrphansNeverExecute | backend/src/services/prepared_actions.py:182-203 | from there the row never becomes executed and the action is not called again |
| ApprovalProtocol.AttemptMeetsAnother | backend/src/services/prepared_actions.py:182-194 | an attempt that finds an earlier one done makes the row executed, one that finds it in flight makes it pending and undecided again, and neither calls the tool |
| ApprovalProtocol.AttemptEndsEarly | backend/src/api/routes_approvals_prepared.py:122-176 | a refusal before the ledger is reached fails the row, anything else there makes it pending and undecided again |
| ApprovalProtocol.AttemptEnds | backend/src/services/prepared_actions.py:195-203 | an answered call makes the row executed or failed, and the ledger too; a raise makes the row pending and leaves the ledger in flight |
| ApprovalProtocol.FreeLedgerExecutes | backend/src/api/routes_approvals_prepared.py:124-146 | a pending row whose ledger entry is not in flight can be confirmed and executed |
| ApprovalProtocol.PendingCanExecuteIffLedgerFree | backend/src/api/routes_approvals_prepared.py:13-20 | over every run, a pending row can still become executed exactly when its ledger entry is not in flight |
| ApprovalProtocol.RefusalMeansNothingHappenedIff | backend/src/api/routes_approvals_prepared.py:122-176 | rejected or failed means no effect exactly when calls that err or raise have none and the record of a success never raises |
| ApprovalProtocol.LateEditLands | backend/src/api/routes_approvals.py:643-674 | an edit that read a pending row can change what is displayed after the row was executed |
| ApprovalProtocol.CrashStrands | backend/src/api/routes_approvals_prepared.py:122-146 | a process that dies anywhere in a replay leaves the row approved with nobody to run the action |
| ApprovalProtocol.StrandedForEver | backend/src/api/routes_approvals.py:819-843 | such a row stays approved through every continuation, and nothing runs |
| JsonReading.TreeReads | backend/src/llm_utils.py:41-47 | every text of the grammar, with any white space and any escapes, is read as what it means, and what follows it is left |
| JsonSoundness.ValueSound | backend/src/llm_utils.py:41-47 | whatever the decoder takes for a value is a text of the grammar with that meaning |
| JsonReading.StringReads | backend/src/llm_utils.py:41-47 | a string is read as what its glyphs stand for, a pair of surrogate escapes as one character |
| JsonReading.NumeralReads | backend/src/llm_utils.py:41-47 | a number is read up to where nothing can continue it |
| Json.DictKeepsLastValues | backend/src/llm_utils.py:41-47 | each key of an object is there once, with the value it had last |
| Json.DictKeepsOrder | backend/src/llm_utils.py:41-47 | the keys of an object are in the order in which they first came |
| JsonPrinting.PrintedValue | backend/src/llm_utils.py:41-47 | a printed string stands for itself, with every split surrogate pair fused |
| JsonPrinting.FusedIffSplitPair | backend/src/llm_utils.py:41-47 | a string reads back unchanged exactly when it has no split surrogate pair |
| JsonPrinting.ValueRoundTrip | backend/src/llm_utils.py:41-47 | decoding a printed value in front of any text gives its canonical form and leaves that text |
| JsonPrinting.ProperIsCanonical | backend/src/llm_utils.py:41-47 | values without split pairs and repeated keys are their own canonical form |
| LlmUtils.ParseLlmJson | backend/src/llm_utils.py:9-62 | the meaning of the first text of an array or object that stands anywhere, and the default or an error exactly when none does |
| LlmUtils.OneAnswer | backend/src/llm_utils.py:9-62 | the specification admits one answer only |
| LlmUtils.AnswerAmongProse | backend/src/llm_utils.py:35-47 | an array or object written after prose without braces, in any way the grammar allows, no closed fence anywhere, is the answer |
| LlmUtils.AnswerInsideFence | backend/src/llm_utils.py:29-31 | an array or object written inside the first fence, in any way the grammar allows, after a language tag or other text without braces, is the answer; before the fence anything without a fence may stand, inline code too, and after it anything at all |
| LlmUtils.ProperAnswersAreTheValue | backend/src/llm_utils.py:9-62 | a value without split surrogate pairs and repeated keys is itself the answer in both places |
| LlmUtils.CoerceToObject | backend/src/llm_utils.py:65-77 | the result is always an object: an object unchanged, a bare array under its key, an empty list for anything else |
| LlmUtils.ParseLlmObject | backend/src/llm_utils.py:80-101 | the first value if it is an object, the default in every other case |
| ChatFold.Message.OnEvent | backend/src/api/routes_chat.py:204-269 | what one event changes: the first step of an agent for a reply, the latest for thoughts and calls, the latest with calls for a result |
| ChatFold.ReplyGoesToFirstStep | backend/src/api/routes_chat.py:215-226 | a reply replaces the reply of the first step of its agent |
| ChatFold.ThoughtGoesToLatestStep | backend/src/api/routes_chat.py:227-243 | a thought joins one of two buffers of the latest step of its agent, neither of which exceeds 2000 characters |
| ChatFold.CallGoesToLatestStep | backend/src/api/routes_chat.py:244-254 | a call joins the calls of the latest step of its agent |
| ChatFold.ResultGoesToLatestCall | backend/src/api/routes_chat.py:255-269 | a result goes onto the last call of the latest step of its agent that has one: a block stays, the duration is replaced, a result leaves its first 500 characters |
| ChatFold.StrayEventsChangeNothing | backend/src/api/routes_chat.py:215-269 | an event without a step or a call to go to changes no step |
| ChatFold.Consume | backend/src/api/routes_chat.py:199-283 | after any number of events the stored steps, text, trace and plan are what the batch specification says of those events |
| ChatFold.FoldStepIsBatch | backend/src/api/routes_chat.py:204-269 | one fold step keeps to the batch specification: per step, all events routed to it, previews as the first 2000 characters of all its text |
| ChatFold.PreviewIsFirst2000 | backend/src/api/routes_chat.py:227-243 | a preview is the first 2000 characters of all its text |
| ChatFold.Totals | backend/src/api/routes_chat.py:297-300 | the loop over the steps computes the token and cost totals that the next two rows speak of |
| ChatFold.TotalOfOneStep | backend/src/api/routes_chat.py:297-300 | the three figures are the input tokens, the output tokens and the cost of a reply, and nothing where there is none |
| ChatFold.TotalIsLastReplies | backend/src/api/routes_chat.py:297-300 | a total is the sum over each agent's last reply after its first start |
| ChatFold.TotalIsAllIffLosersAreFree | backend/src/api/routes_chat.py:215-226 | a total is all that was spent exactly when overwritten and unrouted replies had nothing to count |
| ConversationCount.Conversation.TakeTurns | backend/src/api/routes_chat.py:302-369 | rows and counter after any sequence of chat and resumed turns |
| ConversationCount.ExactIffClean | backend/src/api/routes_chat.py:302-369 | the counter equals the number of rows after every turn exactly when each user message was saved if and only if its turn was counted |
| ConversationCount.CounterIsOffBy | backend/src/api/routes_chat.py:302-369 | after any turns the counter is off by the messages counted and not saved less those saved and not counted |
| ConversationCount.CleanTurnCounts | backend/src/api/routes_chat.py:302-369 | a turn whose writes all succeed in a conversation of one's own counts exactly what it stores |
| ConversationCount.UncountedTurnStoresTheMessage | backend/src/api/routes_chat.py:302-369 | any other turn that is not counted stores the message at most |
| ConversationCount.UnownedRowsAreUncounted | backend/src/api/routes_chat.py:422-442 | messages sent to someone else's conversation are stored and never counted |
| SurfaceIds.RepairDropsAWord | backend/alembic/versions/b7c1e9f3a2d4_repair_doubled_surface_ids.py:37-40 | the repair removes one copy of the longest doubled word and strictly shortens; other ids are unchanged |
| SurfaceIds.DoubledIffWordTwice | backend/alembic/versions/b7c1e9f3a2d4_repair_doubled_surface_ids.py:37-40 | the pattern matches exactly what begins with one word of ASCII letters, digits and underscores twice, each time before an underscore |
| SurfaceIds.RepairIsGreedy | backend/alembic/versions/b7c1e9f3a2d4_repair_doubled_surface_ids.py:37-40 | of the words that are doubled the longest is the one that is kept once |
| SurfaceIds.OthersAreNotRepaired | backend/alembic/versions/b7c1e9f3a2d4_repair_doubled_surface_ids.py:37-40 | an id that begins with no doubled word stays as it is |
| SurfaceIds.Repaired | backend/alembic/versions/b7c1e9f3a2d4_repair_doubled_surface_ids.py:37-40 | repeating the repair ends, in an id that does not match |
| SurfaceIds.SurfaceTable.Upgrade | backend/alembic/versions/b7c1e9f3a2d4_repair_doubled_surface_ids.py:46-74 | delete, then update: goes through exactly when no two remaining ids become one, and then keeps every remaining row under its repaired id |
| SurfaceIds.ImageKeptIffDeletedAreFlat | backend/alembic/versions/b7c1e9f3a2d4_repair_doubled_surface_ids.py:46-61 | no repaired id is missing afterwards exactly when what the deleted rows repair to is well-formed |
| SurfaceIds.ShortIdsMigrate | backend/alembic/versions/b7c1e9f3a2d4_repair_doubled_surface_ids.py:46-74 | with at most two underscores per id the migration goes through, no repaired id is missing and none is malformed |
| SurfaceIds.SecondRunIdleIffFlat | backend/alembic/versions/b7c1e9f3a2d4_repair_doubled_surface_ids.py:25-27 | however a second run ends, it goes through and changes nothing exactly when no row the first one kept is left with something to repair |
| SurfaceIds.ShortIdsMigrateOnce | backend/alembic/versions/b7c1e9f3a2d4_repair_doubled_surface_ids.py:25-27 | with at most two underscores per id a second run goes through and changes nothing |
| SurfaceIds.ReferencesFollowIff | backend/alembic/versions/b7c1e9f3a2d4_repair_doubled_surface_ids.py:76-92 | a checkpoint repaired alike names a surface that is there exactly when its own was not deleted in favour of a malformed one |
| SurfaceIds.TripledIdStaysDoubled | backend/alembic/versions/b7c1e9f3a2d4_repair_doubled_surface_ids.py:25-27 | `run_run_run_X` becomes `run_run_X`, which matches again |
| SurfaceIds.TripledIdIsRepairedTwice | backend/alembic/versions/b7c1e9f3a2d4_repair_doubled_surface_ids.py:25-27 | two runs over a table with that one row, the second of which changes it |
| SurfaceIds.LongIdsCollide | backend/alembic/versions/b7c1e9f3a2d4_repair_doubled_surface_ids.py:46-74 | `a_a_a_X` and `a_a_a_a_X` become one id, and neither is deleted first |
| SurfaceIds.SecondRunCanFail | backend/alembic/versions/b7c1e9f3a2d4_repair_doubled_surface_ids.py:25-27 | a table of two ids on which the first run goes through and the second fails on a clash |
| OAuthState.States.IssueState | backend/src/api/oauth_state.py:48-62 | a token is bound only for a user and only where no live binding is |
| OAuthState.States.ConsumeState | backend/src/api/oauth_state.py:65-97 | the bound user of a live token, and the token gone; nothing otherwise |
| OAuthState.YieldsIffRedeems | backend/src/api/oauth_state.py:65-97 | in every history a consumption yields a user exactly when it redeems an issue of that token to that user within 600 seconds that nothing took since |
| OAuthState.RedeemsOnce | backend/src/api/oauth_state.py:65-97 | successful consumptions correspond one to one to the issues they redeem |
| OAuthState.IssuedTokenWorksInTime | backend/src/api/oauth_state.py:48-97 | a token issued to somebody by one call yields that user to the first answered consumption within 600 seconds, and nothing later |
| OAuthState.SpentTokenYieldsNothing | backend/src/api/oauth_state.py:65-97 | a consumption that reached the store spends the token, even if its answer was lost |
| Enforcement.NormalizingTwiceIsOnce | backend/src/adapter/enforcement.py:140-142 | key normalization is idempotent |
| Enforcement.SeparatorsDoNotMatter | backend/src/adapter/enforcement.py:140-142 | a character without a normal form may be left out of a key anywhere |
| Enforcement.CaseDoesNotMatter | backend/src/adapter/enforcement.py:140-142 | a capital letter in a key may be written small anywhere |
| Enforcement.SpellingsAreSecretAlike | backend/src/adapter/enforcement.py:189-208 | keys that are spelled alike are secret alike |
| Enforcement.SecretNames | backend/src/adapter/enforcement.py:121-137 | of the keys in lower-case letters and digits just the listed ones are secret |
| Enforcement.StrippedIsClean | backend/src/adapter/enforcement.py:189-210 | no secret key is left at any depth |
| Enforcement.CleanIffUnchanged | backend/src/adapter/enforcement.py:189-210 | stripping changes a value exactly when it has a secret key somewhere |
| Enforcement.StrippingTwiceIsOnce | backend/src/adapter/enforcement.py:189-210 | stripping is idempotent |
| Enforcement.PathsAreKept | backend/src/adapter/enforcement.py:189-210 | every path free of secret keys leads to the same thing, stripped, and every other path to nothing |
| Enforcement.OrderIsKept | backend/src/adapter/enforcement.py:203-207 | the keys that stay, stay in order |
| Enforcement.ForceConnectionName | backend/src/adapter/enforcement.py:170-186 | the forced name wins over any supplied one, no other argument changes, and a blank name is refused, which one with a printable character is not |
| LlmUtils.WhiteSpaceIs | backend/src/adapter/enforcement.py:170-186 | the 29 characters that Python's `strip` takes for white space |
| ShadowLoop.RunAgentLoop | backend/spikes/step10b_shadow/spike_shadow_suppression.py:273-341 | the loop ends; the real dispatch got the script's reads in order; history, intents and route are as described |
| ShadowLoop.DeriveRoute | backend/spikes/step10b_shadow/spike_shadow_suppression.py:262-270 | executor exactly when some intended tool is known and no read |
| ShadowLoop.OnlyKnownReadsAreAnswered | backend/spikes/step10b_shadow/spike_shadow_suppression.py:152-175 | only a known tool whose capability reads is answered; any other call, of an unknown tool too, is answered as suppressed |
| ShadowLoop.LastSearchIsLast | backend/spikes/step10b_shadow/spike_shadow_suppression.py:209-249 | the number of hits in the final answer is that of the last search result in the history |
| ShadowLoop.LastWriteIsLast | backend/spikes/step10b_shadow/spike_shadow_suppression.py:209-249 | the write in the final answer is the last result of a write in the history |
| ShadowLoop.OnlyReadsReachTheWorld | backend/spikes/step10b_shadow/spike_shadow_suppression.py:152-175 | what reaches the real dispatch is all the reads of the script and nothing else |
| ShadowLoop.ResultsAnswerTheirCalls | backend/spikes/step10b_shadow/spike_shadow_suppression.py:306-340 | one request, then adjacent pairs of tool use and result under equal ids that no other pair has |
| ShadowLoop.ReportedWritesAreSuppressed | backend/spikes/step10b_shadow/spike_shadow_suppression.py:209-249 | the final answer reports a write exactly when the script tried one, and as suppressed |

## Left out

* Columns and tables the merge does not read or write, text collation (ids are ordered by code
  point), and null elements inside a memory's id array.
* Deletion of a workspace, a ledger row or an approval while a protocol runs; ledger and approval
  ids are taken to be fresh, and the workspace of a prepared approval to exist.
* How an identity key is derived from a capability and its arguments: the ledger works on given keys.
* The registry and scope checks before a prepared action is replayed are one event of the machine,
  any refusal of which marks the row failed; the write lock is another.
* Other writers of an approval's status. The `approve_action` tool in
  `backend/src/tools/intelligence_server/planning.py` decides a pending row without the lock and
  without regard to its being prepared, so it can leave one approved with no replay, or overwrite a
  decision; the expiry sweeps in `backend/src/services/heartbeat.py` and
  `backend/src/orchestrator/recovery.py` touch pending rows with an expiry, which prepared ones do
  not have. The approval machine is that of the route handlers.
* Approvals that resume a task run instead of replaying a recorded call, and filter proposals.
* Whether the `expired` status flushed before a 410 survives depends on the request's session; both
  cases are modelled by a parameter.
* LangGraph itself, beyond the rule that a node restarts from the top and an interrupt returns the
  verdict recorded before that; risk assessment is an arbitrary answer.
* Python's recursion limit and its limit on the digits of an integer; a decoded number is its lexeme.
* The class `\w` outside ASCII: a parameter of the fence pattern, ASCII in surface ids.
* Costs are added as real numbers, without floating-point rounding.
* JSON rendering of tool results and server-sent events: a result is its rendered text.
* The shadow executor's negative control, which classifies every call as a read.
* The name and action allowlists of the connector gateway, vector stores, audit rows and published
  events, which are best effort and change nothing modelled here.
