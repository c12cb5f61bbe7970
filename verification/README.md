# Verified models of the knowledge graph and the workflow engine

A Dafny model of two stateful subsystems and of the small pieces around them, with the properties they are meant to keep.

- **Temporal knowledge graph.** The in-memory store (`GraphStore`), entity resolution (`ResolutionRuns`, `ResolutionTheorems`,
  `EntityResolution`, `SurvivorChoice`), supersession of facts and reads as of a moment (`Supersession`, `IngestRuns`,
  `SupersessionOrder`, `SupersessionRules`, `AsOfReads`), the service with its corrections and its search index (`GraphService`, `EntitySplit`, `SearchIndex`,
  `IndexSync`, `ServiceRuns`), graph expansion (`GraphExpansion`) and cosine search (`VectorStore`, `VectorSearch`).
- **Durable workflow engine.** The decider (`Decider`, `DeciderService`, `DeciderTheorems`; on task fields and the clock
  `DecisionRules`, `DecisionTheorems`, `AlertOnly`, `Successors`), the executor (`Executor`, `WorkflowExecutorOps`, `ExecutorRuns`,
  `ExecutorResults`, `ExecutorEndings`, `AttemptClocks`) and sequential workflows over whole runs (`SequentialProgress`,
  `SequentialRuns`).
- **Persistence and coordination.** Execution tables (`ExecutionTables`, `SyncTables`), admission under a concurrency limit
  (`Admission`), the message queues (`MessageQueue`, `SyncQueue`) and the in-process lock (`Lock`).

Where the program updates state in place the model is a class whose methods are proved against pure functions of the old
state; what the system promises is then proved about those functions and about sequences of them. Time is an integer passed
in, generated ids are ids not in use, an SQL statement or transaction is one step, and the iteration order of a Map or Set
is arbitrary.

Some expectations do not hold of the code as it is. Each has its exact condition, as an if-and-only-if, or a counterexample
for every input of the failing family:

- The survivor of a cluster need not be its least node when a creation date is missing or unparseable: exactly when an
  undated node is straddled by two dated ones (`SurvivorIsLeastExactlyWhen`, `PassChoosesLeastExactlyWhen`).
- A node or fact id taken over from another tenant leaves that tenant's search document behind, and nothing else ever
  puts the index out of step (`NodeUpsertSyncs`, `FactIngestSyncs`, `HandleAll`).
- A completed workflow can leave a stored task open when its timeout was noted in memory only (`CompletedWithAnOpenRow`,
  `EndedWorkflowIsClean`, `RunIsClean`).
- A retry is stored with a scheduled time of zero in the lite server, so its poll limit counts from the epoch, and the limit of
  the attempt itself never applies to it; the start delay of a first attempt counts twice for its poll limit
  (`NextAttemptLimits`, `FirstAttemptLimits`).
- The concurrency limit depends on arrivals not sorting before tasks already let in, as rows of one second may
  (`SameSecondArrivalsBreakTheLimit`, `ArrivalIsSafeExactlyWhen`).
- An entity split with a listed self-loop fails half-way, after writes (`PerformSplit`, `HalfwayShows`).
- A read at a start date returns the old value beside the new one exactly when the two differ (`BoundaryReadsOnlyNew`).
- A message pushed with a negative offset never comes due (`StoredComesDueExactlyWhen`).
- In the lite server a removed attempt can never be created again (`RemovalUndoesExactlyWhen`, `RemovedAttemptIsLost`).

## Model

| member | source | states |
|---|---|---|
| `GraphStore.Neo4jClient.UpsertNode` | graph-service/src/infra/neo4j.client.ts:65-104 | a node is stored under its id and nothing else changes |
| `GraphStore.Neo4jClient.UpsertFact` | graph-service/src/infra/neo4j.client.ts:146-228 | a fact is stored together with its two synthetic edges, from its entity and to its source |
| `GraphStore.Neo4jClient.ListRelationships` | graph-service/src/infra/neo4j.client.ts:364-371 | exactly the tenant's ordinary edges are listed, each once, never a synthetic one |
| `GraphStore.Neo4jClient.ListFactsByEntityAsOf` | graph-service/src/infra/neo4j.client.ts:935-950 | exactly the facts of the entity whose interval, closed at both ends, contains the moment |
| `GraphStore.Neo4jClient.ReassignFact` | graph-service/src/infra/neo4j.client.ts:439-481 | a fact of the tenant gets a new owner, every synthetic edge pointing at it goes and one new entity edge comes; otherwise nothing changes |
| `GraphStore.Neo4jClient.ReassignRelationship` | graph-service/src/infra/neo4j.client.ts:516-554 | one endpoint moves; an edge that would become a loop is deleted and the call reports nothing |
| `GraphStore.Neo4jClient.MoveFacts` | graph-service/src/infra/neo4j.client.ts:1044-1074 | the fact-by-fact loop moves all facts of the duplicate at once, each with exactly one fresh entity edge |
| `GraphStore.Neo4jClient.RewireEdges` | graph-service/src/infra/neo4j.client.ts:1076-1100 | the edge loop redirects every ordinary edge of the tenant and drops exactly those that collapse to a loop |
| `GraphStore.Neo4jClient.MergeEntities` | graph-service/src/infra/neo4j.client.ts:1027-1103 | the whole new state of a merge: both nodes, the moved facts, the redirected edges and the merge edge |
| `ResolutionTheorems.RunIsQuotient` | graph-service/src/jobs/entity-resolution.job.ts:134-169 | any pass is a quotient of the tenant graph: facts change owner to the survivor only, ordinary edges have both ends mapped and vanish exactly when a merge collapses them, other tenants are untouched |
| `ResolutionTheorems.NodesAfterRun` | graph-service/src/jobs/entity-resolution.job.ts:224-266 | a node of the pass ends superseded exactly when it was merged away; identity fields never change; nodes outside the pass stay as they were |
| `ResolutionTheorems.FactsAfterRun` | graph-service/src/infra/neo4j.client.ts:1044-1074 | after any run a fact differs at most in its owner, which is the survivor of its old owner, and in its last-seen time when it moved |
| `ResolutionTheorems.EdgesAfterRun` | graph-service/src/infra/neo4j.client.ts:1076-1102 | an edge that was there before survives with mapped ends, or is gone because some merge collapsed it |
| `ResolutionTheorems.FactEdgesAfterRun` | graph-service/src/infra/neo4j.client.ts:1050-1073 | a moved fact keeps exactly one entity edge, from its survivor; source edges never change |
| `ResolutionTheorems.RunIsStarForest` | graph-service/src/jobs/entity-resolution.job.ts:224-266 | if no node of the pass starts as the source of a merge edge, every merged node has exactly one merge edge, to a survivor that was never merged |
| `ResolutionTheorems.StarAfterRun` | graph-service/src/infra/neo4j.client.ts:1076-1102 | one node at a time: earlier merge edges are rewritten to the final survivor |
| `SurvivorChoice.WinsIsTransitive` | graph-service/src/jobs/entity-resolution.job.ts:54-61 | the choice of the canonical node is transitive on three nodes exactly when none of them is undated and straddled by the other two |
| `SurvivorChoice.SurvivorIsLeastExactlyWhen` | graph-service/src/jobs/entity-resolution.job.ts:54-61 | after every legal run the survivor is the (created_at, id)-least node of its cluster, if and only if no undated node has its id between those of two dated nodes of which the one with the larger id is older |
| `SurvivorChoice.SurvivorOfPassIsLeast` | graph-service/src/jobs/entity-resolution.job.ts:138-166 | in a pass, whatever the scores and existing links, only nodes of one type can mislead the choice |
| `SurvivorChoice.PassChoosesLeastExactlyWhen` | graph-service/src/jobs/entity-resolution.job.ts:134-169 | the same if-and-only-if for whole passes with scores, types and links, on a graph whose candidates are not linked yet |
| `SurvivorChoice.StraddledNodeMisleadsPass` | graph-service/src/jobs/entity-resolution.job.ts:134-169 | a scorer and a pass that end with a survivor that is not the least node, for every unlinked straddled node, be its date missing or unparseable |
| `ResolutionTheorems.SurvivorKeepsNames` | graph-service/src/jobs/entity-resolution.job.ts:233-235 | a survivor's name and aliases are exactly the names and aliases of all cluster members |
| `ResolutionTheorems.KeysAfterRun` | graph-service/src/jobs/entity-resolution.job.ts:134-169 | rows stay under their own ids through a pass and only generated edge ids are new |
| `EntityResolution.LinkPairsAfterMerge` | graph-service/src/jobs/entity-resolution.job.ts:174-189 | surgery on the side index gives exactly the pairs linked in the store after the merge |
| `EntityResolution.LinkPairsAfterReview` | graph-service/src/jobs/entity-resolution.job.ts:191-216 | a review link adds exactly its own pair |
| `EntityResolution.KeyOfRedirected` | graph-service/src/jobs/entity-resolution.job.ts:63-65 | redirecting an edge moves its unordered key the way the surgery moves keys, and collapses exactly when the surgery drops it |
| `EntityResolution.EntityResolutionJob.RewireLinkedPairs` | graph-service/src/jobs/entity-resolution.job.ts:174-189 | the in-place key loop computes the surgery, whatever the iteration order |
| `EntityResolution.EntityResolutionJob.AutoMerge` | graph-service/src/jobs/entity-resolution.job.ts:224-266 | the later node is merged into the earlier one and both local copies match the store |
| `EntityResolution.EntityResolutionJob.ListCandidates` | graph-service/src/jobs/entity-resolution.job.ts:112-114 | the pass works on exactly the current nodes that are neither facts nor sources |
| `EntityResolution.EntityResolutionJob.ReadLinks` | graph-service/src/jobs/entity-resolution.job.ts:124-132 | the side index starts as the pairs linked in the store |
| `EntityResolution.EntityResolutionJob.ActOn` | graph-service/src/jobs/entity-resolution.job.ts:147-168 | one match: merge or link, with merged set, side index and report kept in step with the store |
| `EntityResolution.EntityResolutionJob.CompareRow` | graph-service/src/jobs/entity-resolution.job.ts:138-168 | one row of the pair loop: the side index, the merged set, the local copies and the report agree with the store after every comparison |
| `EntityResolution.EntityResolutionJob.ResolveEntities` | graph-service/src/jobs/entity-resolution.job.ts:111-172 | a whole pass is a legal run of justified steps that the report counts, and the result is the quotient graph; it acts on pairs of different current nodes of the tenant and of one type other than FACT and SOURCE, merging exactly from 0.95 on; all other nodes are stored unchanged; every such pair lost a node to a merge, or was linked or no match when compared |
| `EntityResolution.PassActsOnPairs` | graph-service/src/jobs/entity-resolution.job.ts:134-169 | every step and every report pair names comparable nodes that were not yet joined, with the scorer's own confidence |
| `EntityResolution.PassSparesOutsiders` | graph-service/src/jobs/entity-resolution.job.ts:112-114 | nodes of other tenants, not current, or standing for facts or sources are stored unchanged and no step names them |
| `EntityResolution.PassComparesAll` | graph-service/src/jobs/entity-resolution.job.ts:138-168 | every comparable pair lost a node to a merge, or gave no reason to act when it was looked at |
| `ResolutionTheorems.ReviewIsRecorded` | graph-service/src/jobs/entity-resolution.job.ts:191-216 | a review adds one alias edge from the first node to the second with the confidence of the match, and changes nothing else |
| `SurvivorChoice.OldestSurvives` | graph-service/src/jobs/entity-resolution.job.ts:54-61 | among nodes with usable dates the survivor is no younger than anyone merged into it |
| `Supersession.SupersessionDetectionJob.WeighOne` | graph-service/src/jobs/supersession-detection.job.ts:33-115 | one rival: the four branches, with the store and the new fact changed as each says |
| `Supersession.SupersessionDetectionJob.DetectSupersession` | graph-service/src/jobs/supersession-detection.job.ts:15-123 | the loop over all rivals, then the new fact, then the fact-to-fact edges |
| `IngestRuns.DetectedFact` | graph-service/src/jobs/supersession-detection.job.ts:23-122 | after a detection every rival has its own outcome and no other fact moved |
| `IngestRuns.IngestOne` | graph-service/src/jobs/supersession-detection.job.ts:33-115 | the new fact stays current exactly when no rival contradicts or outlives it, in whatever order the rivals come |
| `IngestRuns.CurrentFactsAgree` | graph-service/src/jobs/supersession-detection.job.ts:33-115 | over every sequence of ingests, two current facts of one key carry the same value string |
| `IngestRuns.NoKeyDies` | graph-service/src/jobs/supersession-detection.job.ts:36-115 | over every sequence of ingests, a key that received a fact keeps a current or contradicted one |
| `IngestRuns.HistoryIsRecorded` | graph-service/src/jobs/supersession-detection.job.ts:117-122 | every ingested fact stays in the store with its claim unchanged, and nothing else is there |
| `SupersessionRules.JudgedByTheRules` | graph-service/src/jobs/supersession-detection.job.ts:33-60 | who overrules whom, on dates and authorities alone: a later date always, another date only with strictly higher authority (one half when absent), equal dates contradict within 0.05 |
| `SupersessionRules.OldFactFollowsRules` | graph-service/src/jobs/supersession-detection.job.ts:62-99 | what becomes of every stored fact in an ingest, by these rules |
| `SupersessionRules.NewFactFollowsRules` | graph-service/src/jobs/supersession-detection.job.ts:33-115 | the new fact stays current exactly when it prevails over every current fact it disagrees with |
| `SupersessionRules.OneOpponent` | graph-service/src/jobs/supersession-detection.job.ts:33-122 | with one opponent: each of the two facts exactly as the rules say, all others unchanged |
| `SupersessionRules.EdgesOfIngest` | graph-service/src/jobs/supersession-detection.job.ts:62-122 | an ingest adds one edge to each fact it prevails over or clashes with and no other edge, with type, direction, confidence and dates written out |
| `SupersessionRules.EdgesFollowRules` | graph-service/src/jobs/supersession-detection.job.ts:53-86 | over every history, whoever supersedes a fact disagreed with it and was later, or of another date and of strictly higher authority |
| `SupersessionRules.LastEdgesFollowRules` | graph-service/src/jobs/supersession-detection.job.ts:53-86 | the last ingest has a supersession edge to a stored fact exactly when it prevails over it |
| `SupersessionOrder.EdgesAreSound` | graph-service/src/jobs/supersession-detection.job.ts:62-86 | every supersession edge runs from a later ingest to an earlier fact of the same key whose interval it closed, with at most one edge into each fact |
| `SupersessionOrder.SupersededHasEdge` | graph-service/src/jobs/supersession-detection.job.ts:62-86 | a fact that was overruled has its supersession edge from then on |
| `SupersessionOrder.SupersessionIsAcyclic` | graph-service/src/jobs/supersession-detection.job.ts:62-86 | supersession edges form no cycle |
| `AsOfReads.LineIsStored` | graph-service/src/jobs/supersession-detection.job.ts:33-62 | with strictly increasing start dates, each stored fact of the key was closed by the next one that differs |
| `AsOfReads.AsOfIsStepFunction` | graph-service/src/infra/neo4j.client.ts:935-950 | a read between start dates returns, for the key, exactly the begun facts of the latest run of equal values whose interval still contains the moment, and the latest of them whenever it was ingested without an end |
| `AsOfReads.BoundaryReadsBoth` | graph-service/src/infra/neo4j.client.ts:944-946 | exactly which facts of the key a read at a start date returns; the old value is among them whenever the new one differs, since intervals are closed at both ends |
| `AsOfReads.BoundaryReadsOnlyNew` | graph-service/src/infra/neo4j.client.ts:944-946 | a read at a start date returns the value that starts then alone, if and only if it is no change of value |
| `AsOfReads.ReadIsEmptyExactlyWhen` | graph-service/src/infra/neo4j.client.ts:944-946 | a read is empty for the key exactly when no later fact carries another value and every fact of the latest run of equal values was ingested with an end before the moment |
| `GraphService.GraphService.SyncNodeIndex` | graph-service/src/services/GraphService.ts:708-715 | a current node is indexed, any other is removed from the index |
| `GraphService.GraphService.SyncFactIndex` | graph-service/src/services/GraphService.ts:698-706 | a current fact is indexed, any other is removed from the index |
| `GraphService.GraphService.IngestNode` | graph-service/src/services/GraphService.ts:71-95 | the stored node; the index stays what a rebuild gives exactly when the id was not a current node of another tenant |
| `GraphService.GraphService.IngestFact` | graph-service/src/services/GraphService.ts:136-143 | the detection's result; the index stays right exactly when the id was not a current fact of another tenant |
| `GraphService.GraphService.ReindexSearch` | graph-service/src/services/GraphService.ts:174-201 | the tenant has one document for each of its current nodes and facts, whose fields are those of the row; other tenants keep theirs |
| `SearchIndex.ExpectedIsRebuilt` | graph-service/src/services/GraphService.ts:174-201 | an index equal to a rebuild says of every current node and fact, field by field, what its row says |
| `GraphService.GraphService.ResolveOutstandingEntities` | graph-service/src/services/GraphService.ts:663-669 | a pass followed by a rebuild only when something was merged still leaves the index right |
| `GraphService.GraphService.InvalidateFact` | graph-service/src/services/GraphService.ts:378-392 | an invalidated fact, with the index kept right |
| `GraphService.GraphService.UpdateFact` | graph-service/src/services/GraphService.ts:393-447 | the old fact closed and superseded, the corrected one with the given value under a new id, a supersession edge between them, the index kept right |
| `GraphService.GraphService.MergeEntities` | graph-service/src/services/GraphService.ts:448-519 | the merge of the store with the target made current, the index kept right |
| `GraphService.GraphService.PlanSplit` | graph-service/src/services/GraphService.ts:524-597 | the validation accepts exactly the valid splits and writes nothing |
| `GraphService.GraphService.PerformSplit` | graph-service/src/services/GraphService.ts:599-640 | a valid split completes exactly when no listed relationship is a self-loop; then each listed fact and edge is at its own target and all others stay put; otherwise everything before the first self-loop is done and that edge is deleted |
| `GraphService.GraphService.SplitEntity` | graph-service/src/services/GraphService.ts:520-642 | every error but the self-loop one happens before the first write |
| `GraphService.GraphService.ApplyCorrection` | graph-service/src/services/GraphService.ts:335-657 | refused corrections leave store and index unchanged; accepted ones succeed apart from the self-loop split and leave exactly the rows and documents their kind calls for, written out on fields; the index is right whatever happens |
| `GraphService.ReplacedRows` | graph-service/src/services/GraphService.ts:393-447 | an update leaves one new current fact with the given value, predicate and source, open-ended from now, and an edge to the superseded one |
| `GraphService.MergedRows` | graph-service/src/services/GraphService.ts:448-519 | a merge leaves the source superseded and the canonical node current, with the facts and the names of both |
| `EntitySplit.PlanMeetsTargets` | graph-service/src/services/GraphService.ts:571-597 | each new node of a split carries the name and the aliases of its target, the type of the original and a new id |
| `EntitySplit.SplitMovesFact` | graph-service/src/infra/neo4j.client.ts:445-481 | one reassigned fact extends the split by exactly that fact |
| `EntitySplit.SplitMovesRel` | graph-service/src/infra/neo4j.client.ts:523-553 | one reassigned edge extends the split by exactly that edge, unless it is a self-loop |
| `EntitySplit.SplitKeepsOwnership` | graph-service/src/infra/neo4j.client.ts:445-481 | a fact with exactly one entity edge, from its entity, has exactly one after any split |
| `EntitySplit.HalfwayShows` | graph-service/src/services/GraphService.ts:599-635 | a failed split leaves its first node stored, the original as it was and a listed edge lost |
| `EntitySplit.LoopPassesValidation` | graph-service/src/services/GraphService.ts:524-597 | listing one of an entity's own self-loops passes the validation |
| `IndexSync.NodeIngestSyncs` | graph-service/src/services/GraphService.ts:90-94 | syncing the node and its supported facts reaches the rebuild's documents unless another tenant's is stranded |
| `IndexSync.FactIngestSyncs` | graph-service/src/services/GraphService.ts:140-142 | syncing the facts of the entity reaches the rebuild's documents unless another tenant's is stranded |
| `IndexSync.DetectionStaysInEntity` | graph-service/src/services/GraphService.ts:140-142 | a detection changes only facts of the new fact's entity, so syncing that entity is enough |
| `IndexSync.MergeSyncs` | graph-service/src/services/GraphService.ts:499-517 | syncing two nodes and the moved facts closes everything a merge opened |
| `IndexSync.LinksOnlyKeepRows` | graph-service/src/services/GraphService.ts:664-667 | a pass without merges changes neither nodes nor facts, so it needs no rebuild |
| `ServiceRuns.HandleAll` | graph-service/src/services/GraphService.ts:71-669 | over every sequence of ingests, corrections, passes and rebuilds the index equals a rebuild after every request, if and only if no request takes over the id of another tenant's current row |
| `SearchIndex.NodeUpsertSyncs` | graph-service/src/services/GraphService.ts:81-90 | one stored and synced node keeps the index right if and only if no document is stranded |
| `VectorStore.InMemoryVectorSearchStore.ReplaceTenant` | graph-service/src/search/InMemoryVectorSearchStore.ts:26-41 | all documents of the tenant are exchanged, or none when one belongs to another tenant |
| `GraphExpansion.WithinIsReachable` | graph-service/src/retrieval/GraphExpansionService.ts:115-136 | the layers of the walk are the nodes reachable by a walk of at most that many edges |
| `GraphExpansion.LinkedEitherWay` | graph-service/src/retrieval/GraphExpansionService.ts:98-113 | an edge of the tenant links its two ends in both directions, and nothing else links them |
| `GraphExpansion.GraphExpansionService.BuildAdjacency` | graph-service/src/retrieval/GraphExpansionService.ts:98-113 | the adjacency lists exactly the hops of the tenant's edges in both directions, duplicates allowed |
| `GraphExpansion.GraphExpansionService.Visit` | graph-service/src/retrieval/GraphExpansionService.ts:128-135 | expanding a node marks all its hops and queues exactly the new ends |
| `GraphExpansion.GraphExpansionService.Walk` | graph-service/src/retrieval/GraphExpansionService.ts:115-136 | the queue loop ends on every graph, and visits exactly the nodes within the depth and the edges with an end at distance below it |
| `GraphExpansion.GraphExpansionService.Expand` | graph-service/src/retrieval/GraphExpansionService.ts:14-154 | the returned nodes are the stored ones within the depth, the edges those touching a node at smaller depth; no start, no result |
| `GraphExpansion.LayerDone` | graph-service/src/retrieval/GraphExpansionService.ts:123-136 | when the queue has left a layer, that layer is expanded and the next one is complete |
| `VectorSearch.CauchySchwarz` | graph-service/src/search/InMemoryVectorSearchStore.ts:102-114 | the squared dot product is at most the product of the squared magnitudes, for vectors of every length |
| `VectorSearch.ScoreBounds` | graph-service/src/search/InMemoryVectorSearchStore.ts:97-115 | every score lies in [-1, 1] |
| `VectorSearch.OwnScoreIsTop` | graph-service/src/search/InMemoryVectorSearchStore.ts:97-115 | a document with the query's own embedding scores 1 |
| `VectorSearch.CosineSimilarity` | graph-service/src/search/InMemoryVectorSearchStore.ts:97-115 | the accumulating loop computes the cosine, 0 for a zero vector, an error for unequal lengths |
| `VectorSearch.Search` | graph-service/src/search/InMemoryVectorSearchStore.ts:53-83 | the hits are the best `limit` qualifying documents, best first; it fails exactly on an empty query or a candidate of another dimension |
| `VectorSearch.HitsAreTheBest` | graph-service/src/search/InMemoryVectorSearchStore.ts:53-83 | every hit is of the tenant, of an asked type, permitted by hash unless bypassed and above the minimum score; every other such document scores no higher than any hit |
| `VectorSearch.DefaultMinScoreDropsNone` | graph-service/src/search/InMemoryVectorSearchStore.ts:56-82 | without a minimum score no candidate is dropped for its score |
| `Lock.LazyIsEager` | redis-lock/src/index.ts:94-136 | no caller can tell the lazily expiring map from one that drops keys the instant they expire |
| `Lock.NoSecondGrant` | redis-lock/src/index.ts:107-112 | until the holder returns its token or the TTL is over, every other attempt is refused |
| `Lock.SectionsNeverOverlap` | redis-lock/src/index.ts:123-135 | sections of one key that end within their TTL never overlap, and their return is acknowledged |
| `Lock.StaleReturnChangesNothing` | redis-lock/src/index.ts:114-121 | once another caller got the lock, returning the old token does nothing |
| `Lock.ReleaseNeedsTheLiveToken` | redis-lock/src/index.ts:114-121 | a release succeeds exactly with the live holder's token and otherwise changes nothing visible |
| `Lock.RefusedExactlyWhen` | redis-lock/src/index.ts:94-112 | over every clocked trace an attempt is refused if and only if an earlier grant of the key was neither returned nor is past its TTL |
| `Lock.ReleasedExactlyWhen` | redis-lock/src/index.ts:114-121 | a return is acknowledged if and only if its token was granted, not yet returned and is within its TTL |
| `Lock.InProcessLock.Live` | redis-lock/src/index.ts:97-105 | an entry is live strictly before its expiry, and a dead one is dropped on the way |
| `Lock.InProcessLock.TryAcquire` | redis-lock/src/index.ts:107-112 | one grant or refusal, with the whole new state |
| `Lock.InProcessLock.TryRelease` | redis-lock/src/index.ts:114-121 | one release, with the whole new state |
| `MessageQueue.WhatStatementsDo` | sqlite-persistence/src/SQLiteQueueDAO.ts:25-346 | for each statement, if and only if: when it adds, removes, arms and disarms a message |
| `MessageQueue.HandedOutOnce` | sqlite-persistence/src/SQLiteQueueDAO.ts:142-177 | between two hand-outs of one message there is a push, a postponement or a recovery |
| `MessageQueue.LeavesOnlyWhenTakenAway` | sqlite-persistence/src/SQLiteQueueDAO.ts:179-248 | a message leaves only by acknowledgement, removal or a flush |
| `MessageQueue.AbandonedIsDueAgain` | sqlite-persistence/src/SQLiteQueueDAO.ts:306-314 | a hand-out abandoned for over a minute is due again after recovery |
| `MessageQueue.StoredComesDueExactlyWhen` | sqlite-persistence/src/SQLiteQueueDAO.ts:142-177 | with time and recovery alone a stored message comes due, if and only if it has a delivery time, which a push with a negative offset does not give it |
| `MessageQueue.NotBeforeItsTime` | sqlite-persistence/src/SQLiteQueueDAO.ts:25-62 | a message delayed by any statement is not handed out before its time |
| `MessageQueue.DueFromItsTime` | sqlite-persistence/src/SQLiteQueueDAO.ts:142-177 | from that time on it is due, until it is handed out or another statement is about it |
| `MessageQueue.RecoveredExactlyWhen` | sqlite-persistence/src/SQLiteQueueDAO.ts:306-314 | recovery makes wait exactly what was handed out over a minute past its delivery time |
| `MessageQueue.TakenGoFirst` | sqlite-persistence/src/SQLiteQueueDAO.ts:142-177 | of two due messages the one left behind is not earlier, at one time not of higher priority, at one priority not older |
| `MessageQueue.OnlyShortens` | sqlite-persistence/src/SQLiteQueueDAO.ts:223-244 | the conditional timeout takes the earlier of the two delivery times |
| `MessageQueue.RankStays` | sqlite-persistence/src/SQLiteQueueDAO.ts:25-346 | priority and time of creation stay as first pushed until a postponement or removal |
| `MessageQueue.PayloadIsLastPushed` | sqlite-persistence/src/SQLiteQueueDAO.ts:64-87 | a message carries the payload of its last message push |
| `MessageQueue.SqliteQueueDAO.PushIfAbsent` | sqlite-persistence/src/SQLiteQueueDAO.ts:89-115 | true exactly when the message was absent or handed out; a waiting one is left as it is |
| `MessageQueue.SqliteQueueDAO.PopMessages` | sqlite-persistence/src/SQLiteQueueDAO.ts:142-177 | as many due messages as asked for, none left behind that strictly precedes a taken one; a negative count takes all |
| `MessageQueue.SqliteQueueDAO.PollMessages` | sqlite-persistence/src/SQLiteQueueDAO.ts:122-140 | repeated pops until enough came or time is up, never more than asked for |
| `SyncQueue.RepeatedPopsAreFirstK` | server-lite/src/SyncSqliteAdapter.ts:344-352 | a batch of single pops at one moment and the first `count` in order are the same, both ways, whatever the ties |
| `SyncQueue.FirstKRank` | server-lite/src/SyncSqliteAdapter.ts:331-352 | a batch comes by descending priority, at one priority by age, and whatever stays behind ranks no higher |
| `SyncQueue.SyncSqliteAdapter.PopMessage` | server-lite/src/SyncSqliteAdapter.ts:331-338 | one due message that no due message outranks |
| `SyncQueue.SyncSqliteAdapter.PopBatch` | server-lite/src/SyncSqliteAdapter.ts:344-352 | the batch pop takes the first `count` by priority and age |
| `ExecutionTables.TaskKeyIsInjective` | common-persistence/src/BaseKyselyExecutionDAO.ts:688-690 | no two attempts share a task key, whatever underscores and digits a reference contains |
| `ExecutionTables.OneTaskPerAttempt` | common-persistence/src/BaseKyselyExecutionDAO.ts:606-634 | one stored task per workflow, reference and attempt |
| `ExecutionTables.ProgressRowsAre` | common-persistence/src/BaseKyselyExecutionDAO.ts:636-686 | a progress row exists exactly for each stored open task, under its definition's name or else its type |
| `ExecutionTables.CreationStartsRow` | common-persistence/src/BaseKyselyExecutionDAO.ts:67-92 | a new open task is stored with the time of its creation and its progress row starts then |
| `ExecutionTables.UpdateTaskKeepsAgreement` | common-persistence/src/BaseKyselyExecutionDAO.ts:520-534 | an update keeps the tables in agreement if and only if the task is stored, is the same attempt, does not leave a terminal status and keeps its progress row |
| `ExecutionTables.CreateTasksKeepsAgreement` | common-persistence/src/BaseKyselyExecutionDAO.ts:67-92 | a batch keeps the agreement if and only if it reuses no id |
| `ExecutionTables.CreateIsIdempotent` | common-persistence/src/BaseKyselyExecutionDAO.ts:67-92 | creating a batch again changes nothing and reports nothing |
| `ExecutionTables.RemoveUndoesCreate` | common-persistence/src/BaseKyselyExecutionDAO.ts:100-115 | removing a task just created restores the tables exactly |
| `ExecutionTables.UpdateWorkflowKeepsAgreement` | common-persistence/src/BaseKyselyExecutionDAO.ts:437-459 | a workflow update keeps the agreement if and only if an absent workflow is terminal and a pending one keeps its type |
| `ExecutionTables.RemoveWorkflowKeepsAgreement` | common-persistence/src/BaseKyselyExecutionDAO.ts:168-182 | removing a workflow keeps the agreement and leaves none of its tasks |
| `ExecutionTables.OperationKeepsAgreement` | common-persistence/src/BaseKyselyExecutionDAO.ts:67-197 | every operation keeps the agreement exactly when its caller respects its condition |
| `ExecutionTables.TablesAlwaysAgree` | common-persistence/src/BaseKyselyExecutionDAO.ts:67-197 | in every reachable state the pending index is the stored non-terminal workflows and the progress rows the stored non-terminal tasks |
| `ExecutionTables.BaseKyselyExecutionDAO.CreateAll` | common-persistence/src/BaseKyselyExecutionDAO.ts:67-92 | one transaction: an invalid task undoes it, and the answer lists exactly the new attempts |
| `ExecutionTables.BaseKyselyExecutionDAO.StoreWorkflow` | common-persistence/src/BaseKyselyExecutionDAO.ts:437-459 | creation fails exactly on a duplicate and then changes nothing |
| `ExecutionTables.BaseKyselyExecutionDAO.RemoveWholeWorkflow` | common-persistence/src/BaseKyselyExecutionDAO.ts:168-182 | the workflow row goes, then each of its tasks |
| `SyncTables.StoreKeepsProgress` | server-lite/src/SyncSqliteAdapter.ts:227-232 | when an update of the lite server keeps the progress rows right, both ways |
| `SyncTables.CreateKeepsProgress` | server-lite/src/SyncSqliteAdapter.ts:206-225 | a creation keeps the progress rows right if and only if the task is not created in a terminal status and reuses no other row |
| `SyncTables.CreationStartsIdle` | server-lite/src/SyncSqliteAdapter.ts:206-225 | a new task is stored as given and its progress row starts idle, even that of a task in progress |
| `SyncTables.RemovalUndoesExactlyWhen` | server-lite/src/SyncSqliteAdapter.ts:206-243 | a removal undoes a creation, if and only if the creation was skipped and the id has neither a task nor a progress row |
| `SyncTables.RemovedAttemptIsLost` | server-lite/src/SyncSqliteAdapter.ts:240-243 | a removal leaves the schedule entry behind, so an attempt once created can never be created again |
| `Admission.StepKeepsAdmittedFirst` | common-persistence/src/BaseKyselyExecutionDAO.ts:403-421 | a step keeps everyone let in among the first `limit` rows if and only if it is no arrival that pushes one of them out |
| `Admission.LetInExactlyWhen` | sqlite-persistence/src/SqliteConcurrentExecutionLimitDAO.ts:13-31 | a task is let in if and only if there is no limit, or fewer tasks than that are in progress and fewer than that arrived before it |
| `Admission.LimitHolds` | sqlite-persistence/src/SqliteConcurrentExecutionLimitDAO.ts:13-31 | for every interleaving of arrivals, checks, starts, suspensions and completions in which no arrival pushes out somebody let in, at most `limit` tasks are in progress |
| `Admission.ArrivalIsSafeExactlyWhen` | sqlite-persistence/src/SqliteConcurrentExecutionLimitDAO.ts:13-56 | after an arrival every continuation without further arrivals keeps the limit, if and only if it pushes nobody out of the first `limit` rows, or the limit is one and nobody waits to start |
| `Admission.LimitHoldsInOrder` | sqlite-persistence/src/SqliteConcurrentExecutionLimitDAO.ts:13-31 | from an empty table, the limit holds in every run whose rows sort in the order they arrive |
| `Admission.PushingOutBreaksTheLimit` | sqlite-persistence/src/SqliteConcurrentExecutionLimitDAO.ts:43-56 | an arrival that pushes somebody out can be continued to exceed the limit, in a full house too |
| `Admission.SameSecondArrivalsBreakTheLimit` | sqlite-persistence/src/SqliteConcurrentExecutionLimitDAO.ts:43-56 | two rows of one second, the later one sorting first, break a limit of one |
| `DeciderService.DeciderService.CheckTimeouts` | core/src/execution/DeciderService.ts:522-625 | the four timeouts in order: nothing, a silent TIMED_OUT, or the end of the workflow |
| `DeciderService.DeciderService.ProcessPending` | core/src/execution/DeciderService.ts:99-162 | one pending instance: timeouts, retry or toleration, successor |
| `DeciderService.DeciderService.GetNextTask` | core/src/execution/DeciderService.ts:336-370 | the task after a reference, passing over skipped ones, unless it is already under way |
| `DeciderService.DeciderService.CheckForWorkflowCompletion` | core/src/execution/DeciderService.ts:294-334 | the completion loops hold exactly when every instance is terminal, every task has one and no successor is missing |
| `DeciderService.DeciderService.FindPermissiveFailure` | core/src/execution/DeciderService.ts:177-202 | finds whether a permissive task's attempt with the most retries failed |
| `DeciderService.DeciderService.DecideWorkflow` | core/src/execution/DeciderService.ts:44-208 | the whole decision, with the instances in memory as it leaves them |
| `Enums.FlagsTable` | common/src/enums.ts:97-135 | which statuses are terminal, successful and retriable, written out |
| `DecisionRules.LimitsRule` | core/src/execution/DeciderService.ts:522-625 | the four limits on task fields and the clock: which of them end the workflow, which only the attempt, and which do nothing |
| `DecisionRules.RetryRule` | core/src/execution/DeciderService.ts:384-497 | a failed instance is retried, tolerated or fails for good, by its status, the limits of task and workflow definition and the total time; what a next attempt inherits |
| `DecisionRules.LookRule` | core/src/execution/DeciderService.ts:99-162 | looking at one pending instance changes that instance alone, and ends the workflow exactly over a fatal limit or a failure for good |
| `DecisionTheorems.RowsRule` | core/src/execution/DeciderService.ts:99-162 | every instance after a decision: those reached before the first that ends the workflow are as the rules say, all others untouched |
| `DecisionTheorems.TimeoutEndsWorkflow` | core/src/execution/DeciderService.ts:584-597 | total, task or poll limit reached under TIME_OUT_WF ends the workflow TIMED_OUT because of that instance |
| `DecisionTheorems.BlameIsForTimeout` | core/src/execution/DeciderService.ts:592-596 | conversely an instance is to blame only for such a limit |
| `DecisionTheorems.FirstEndingStops` | core/src/execution/DeciderService.ts:99-162 | the first pending instance that ends the workflow does, with the status its own calls for |
| `DecisionTheorems.OwnTimeEndsWorkflow` | core/src/execution/DeciderService.ts:499-520 | the workflow's own time, counted from the last retry if there was one, ends it even when paused |
| `DecisionTheorems.EmptyDefinitionCompletes` | core/src/execution/DeciderService.ts:44-55 | a definition without tasks is complete at once |
| `DecisionTheorems.IdleRule` | core/src/execution/DeciderService.ts:57-70 | nothing is decided exactly for finished workflows and for paused ones in time |
| `DecisionTheorems.EndingWithoutBlame` | core/src/execution/DeciderService.ts:165-205 | when no instance ends the workflow it ends only with everything over, FAILED exactly when a permissive task is left with a failure |
| `DecisionTheorems.TimedOutByLimit` | core/src/execution/DeciderService.ts:522-625 | no instance becomes TIMED_OUT without a reached limit, nor under ALERT_ONLY without a missing response |
| `DecisionTheorems.OpenStaysOpen` | core/src/execution/DeciderService.ts:522-625 | an open instance that reached no limit, or only alerting ones, stays exactly as it is |
| `DecisionTheorems.FailureIsRetried` | core/src/execution/DeciderService.ts:384-497 | an instance with retries left is marked retried and exactly one next attempt is scheduled |
| `DecisionTheorems.TimeoutIsRetried` | core/src/execution/DeciderService.ts:584-591 | so is one whose own or poll limit is reached under RETRY |
| `AlertOnly.AlertsDecideNothing` | core/src/execution/DeciderService.ts:584-587 | replacing every alerting limit of a workflow by no limit leaves the decision the same |
| `Successors.NextIsSuccessor` | core/src/execution/DeciderService.ts:336-370 | the search from an instance finds exactly the next entry whose task was not skipped |
| `Successors.SuccessorStarts` | core/src/execution/DeciderService.ts:99-162 | when an instance is over, the same decision starts one first attempt of the next task, waiting from now on |
| `Successors.FirstTaskStarts` | core/src/execution/DeciderService.ts:44-54 | a new workflow starts with the first task of its definition alone |
| `DeciderTheorems.BackoffDelays` | core/src/execution/DeciderService.ts:438-460 | without a cap the delay is constant, starts at one retry delay and doubles, or starts at the scaled one and grows by it, as the policy says; a cap takes the smaller of the two; delays never shrink |
| `DeciderTheorems.AttemptsIncrease` | core/src/execution/DeciderService.ts:384-497 | later instances of a reference have larger retry counts |
| `DeciderTheorems.ProcessStep` | core/src/execution/DeciderService.ts:99-162 | processing one instance keeps the pass consistent: a retried one waits in the schedule, a settled one is excused |
| `DeciderTheorems.CompletionIsSound` | core/src/execution/DeciderService.ts:165-205 | a reported completion means every task has an instance, none is open, and the last attempt of each reference was successful |
| `ExecutorRuns.ContinueKeepsSound` | core/src/execution/WorkflowExecutorOps.ts:813-853 | after a decision that goes on, what is written equals memory and the attempts of every reference are again 0, 1, 2, … |
| `ExecutorRuns.RetryKeepsSound` | core/src/execution/WorkflowExecutorOps.ts:326-409 | so they are after a manual retry, although a new attempt inherits `executed` |
| `ExecutorRuns.RunIsSound` | core/src/execution/WorkflowExecutorOps.ts:326-876 | in every run of decisions, results, pauses, resumptions, manual retries and terminations, attempts are numbered 0, 1, 2, … and all but the last are retried |
| `ExecutorRuns.CompletionInEveryRun` | core/src/execution/WorkflowExecutorOps.ts:813-816 | so completion is sound in every state of every run |
| `ExecutorRuns.RunIsListedRight` | core/src/execution/WorkflowExecutorOps.ts:419-582 | in every run the pending index holds exactly the unfinished workflow, and a finished one is not in the decider queue |
| `ExecutorRuns.RunIsClean` | core/src/execution/WorkflowExecutorOps.ts:419-876 | a finished workflow has no open task at any point of a run, if and only if no decision of the run ends it over a timeout noted in memory only |
| `ExecutorResults.EndingsWereReported` | core/src/execution/WorkflowExecutorOps.ts:584-697 | in every run, an instance stored COMPLETED, FAILED or FAILED_WITH_TERMINAL_ERROR was reported so by a worker while it was open and its workflow unfinished |
| `ExecutorResults.CompletionNeedsResults` | core/src/execution/WorkflowExecutorOps.ts:584-697 | a workflow without optional or permissive tasks that ends COMPLETED got a COMPLETED result for every task of its definition |
| `ExecutorResults.ResultIsRecorded` | core/src/execution/WorkflowExecutorOps.ts:608-640 | an accepted result changes that task alone: to the reported status, or back to SCHEDULED when the worker is not done |
| `ExecutorResults.OtherResultsAreDropped` | core/src/execution/WorkflowExecutorOps.ts:584-607 | a result for a task or a workflow that is over changes nothing |
| `ExecutorResults.ManualRetryRule` | core/src/execution/WorkflowExecutorOps.ts:326-409 | a manual retry makes one new attempt for each reference whose last attempt failed and for no other, and what it inherits |
| `ExecutorResults.TerminationRule` | core/src/execution/WorkflowExecutorOps.ts:485-582 | terminating an unfinished or failed workflow cancels what is open and leaves the rest |
| `ExecutorResults.PauseRule` | core/src/execution/WorkflowExecutorOps.ts:969-1017 | pausing and resuming change status, index and queue, and no task |
| `AttemptClocks.TotalTimeRunsFromFirstAttempt` | core/src/execution/WorkflowExecutorOps.ts:1139-1157 | in every run the total time of every attempt, manual retries included, is measured from the event that first scheduled its reference |
| `AttemptClocks.FirstAttemptLimits` | core/src/execution/mappers/TaskMapperContext.ts:44-85 | when a first attempt reaches each limit; the start delay counts twice for the poll limit |
| `AttemptClocks.NextAttemptLimits` | core/src/execution/DeciderService.ts:463-495 | when an automatic retry does: its own limit never, the poll limit counted from time zero |
| `ExecutorEndings.EndedWorkflowIsClean` | core/src/execution/WorkflowExecutorOps.ts:792-876 | a decision that ends the workflow takes it off index and queue, and leaves every stored task terminal if and only if no pending task times out silently, up to the first that times out fatally or fails for good |
| `ExecutorEndings.CancellingCloses` | core/src/execution/WorkflowExecutorOps.ts:916-954 | cancelling what is open in memory closes all rows but those whose timeout was only noted in memory |
| `SequentialRuns.CompletedWithAnOpenRow` | core/src/execution/WorkflowExecutorOps.ts:813-816 | a completed workflow whose stored task stays SCHEDULED: a concrete run |
| `SequentialProgress.ChainIsPrefix` | core/src/execution/DeciderService.ts:336-382 | the instantiated references are a prefix of the definition, and the instances fit the budget of all limits |
| `SequentialProgress.LastDecision` | core/src/execution/DeciderService.ts:99-205 | in a sequential workflow the decision follows from the last instance alone |
| `SequentialRuns.SequentialRun` | core/src/execution/DeciderService.ts:336-422 | in every run without manual retries: one open instance at most, a prefix of the definition, attempts 0 to at most the limit, and no more instances than the sum of limits plus one each |
| `SequentialRuns.DecisionMovesOn` | core/src/execution/DeciderService.ts:44-208 | a decision without an open instance ends the workflow or makes exactly one more instance of a bounded number |
| `WorkflowExecutorOps.WorkflowExecutorOps.DecideNow` | core/src/execution/WorkflowExecutorOps.ts:792-876 | one decision around the store; it keeps attempts numbered right, listing right and a finished workflow finished |
| `WorkflowExecutorOps.WorkflowExecutorOps.CancelNonTerminalTasks` | core/src/execution/WorkflowExecutorOps.ts:916-954 | every task open in memory is written as canceled, the others are left, and the queue message goes |
| `WorkflowExecutorOps.WorkflowExecutorOps.UpdateTask` | core/src/execution/WorkflowExecutorOps.ts:584-697 | a result for an open task of an unfinished workflow is recorded and decided on; others are dropped |
| `WorkflowExecutorOps.WorkflowExecutorOps.PauseWorkflow` | core/src/execution/WorkflowExecutorOps.ts:969-993 | fails exactly on a finished workflow |
| `WorkflowExecutorOps.WorkflowExecutorOps.ResumeWorkflow` | core/src/execution/WorkflowExecutorOps.ts:995-1017 | fails exactly on a workflow that is not paused |
| `WorkflowExecutorOps.WorkflowExecutorOps.FindRetriable` | core/src/execution/WorkflowExecutorOps.ts:327-357 | the set-and-delete loop finds exactly the last attempts that failed |
| `WorkflowExecutorOps.WorkflowExecutorOps.RetryWorkflow` | core/src/execution/WorkflowExecutorOps.ts:224-385 | fails exactly on an unfinished or empty workflow, or when nothing failed and it did not time out |
| `WorkflowExecutorOps.WorkflowExecutorOps.TerminateWorkflow` | core/src/execution/WorkflowExecutorOps.ts:485-496 | fails exactly on a completed workflow; otherwise every task is closed |

## Left out

- Neo4j, PostgreSQL vector, AMQP and Redis network paths, and the embedding and language-model providers: foreign calls.
- HTTP controllers, Nest wiring, telemetry, seeds and migrations: plumbing.
- Task mappers other than the simple one, system tasks, loops, joins, TERMINATE tasks, sub-workflows and parent propagation; the decider is modelled for worker tasks of a sequential definition.
- `restart`, `rerun`, `skipTaskFromWorkflow` and the sweeper's forced re-evaluation: they reset state in ways the run properties do not cover. The decider's treatment of SKIPPED instances is modelled.
- The failure workflow, listeners, task domains, payloads, logs and the lease extension.
- Task queues of workers; of the queues the executor model keeps only the presence of the workflow in the decider queue.
- Random jitter of retry delays, and the rounding and overflow of floating-point numbers; scores are exact real numbers and the square root is any exact one.
- Permission labels and embeddings inside index documents; the search model keeps the permission filter.
- Normalisation of strings and the matching score, which is any function of two nodes.
- An empty tenant id, which the store's listings read as all tenants: tenants are never empty here.
- The textual form of composite keys: index documents are keyed by the pair of tenant and id, and synthetic edge ids are a datatype rather than prefixed strings.
- `localeCompare` is taken to be a total order in which different ids differ.
- The order of returned lists that come from a Map or Set; expansion and pops return sets.
- Definitions with repeated reference names: the sequential results ask for distinct ones.
- `withLock` as one call: a critical section is its grant and its return, with anything in between.
- Polling with other writers between its rounds; single pops are interleaved with everything.
- The batch pop of the lite server with a clock that moves between single pops.
- `workflow_def_to_workflow` and the correlation id; task logs; poll data; rate limits per frequency.
- The correction record that the service writes to the audit table.
- FACT_UPDATE and entity merges in the agreement of current facts: they do not weigh the new fact against its rivals, so that property is about ingests only.
- GraphExpansion.GraphExpansionService.Expand: returns ids and not the mapped node and relationship objects, whose fields are copied unchanged.
- GraphStore.Neo4jClient.UpsertNode: objects are values, so the aliasing between a caller's object and the stored one is not captured.
- ExecutorRuns.RunIsSound: task instances are values identified by their position in `seq` order, not objects with ids.
