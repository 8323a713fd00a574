# Verification of the learning platform's stateful core

Dafny models of the in-memory components of a Russian-learning platform, and proofs about them:
the simulated Kafka broker, the simulated PostgreSQL and Neo4j stores, the session planner, the
spaced-repetition scheduler, the spelling check of the error classifier, and the request limiter
and login lockout. `dafny verify dfyconfig.toml` checks everything.

Components that change state in place are classes and loops here too. Each such method is proved
against a function of the old state, and the theorems are about those functions and about runs
of them.

| part | files |
|---|---|
| event broker as a value, as objects, and its worker | `ClusterModel`, `Broker`, `ConsumerWorker` |
| the broker under every interleaving: consume, its worker loop as a run of it, publish | `ConsumerProtocol`, `ConsumerRefinement`, `PublishProtocol` |
| relational store: indexes, constraints, cascade | `RelationalStore`, `PgStore` |
| knowledge graph, dual writes one after the other and interleaved, shard routing | `KnowledgeGraph`, `DualWrite`, `DualWriteProtocol`, `CitusCluster` |
| session composition, adaptation, trimming | `SessionTemplate`, `SlotFilling`, `SessionBudget`, `SessionComposer` |
| content selection and variety | `ContentPool`, `SelectionRules`, `SelectionCourse`, `ContentSelector`, `Variety` |
| skill selection, roles, placement | `SkillChoice`, `Placement` |
| scheduler | `Fsrs` |
| edit distance and spelling | `EditDistance`, `Spelling` |
| limits | `RateLimiter`, `Lockout` |
| shared | `Options`, `Identifiers`, `Sequences`, `Numbers`, `Content`, `Sorting` |

## Where the code and its documentation part

The models follow the code. Where a promise turned out wider than the code, the exact condition
is proved.

- The test named after exactly-once processing runs three consumers in one group. Exactly once
  holds on all runs if and only if the group has at most one consumer
  (`ConsumerProtocol.ExactlyOnceIffSoleWorker`); at least once always holds.
- `enforceVariety` is documented to leave no more than three exercises of a type in a row. A run
  that reaches the end stays, even where another order would avoid it. Whether one stays is
  decided by a counter over the input (`Variety.EnforceVariety`).
- The documented arc of `AssignRoles` has three to five core items and one or two challenges.
  That holds for eight to ten items only (`SkillChoice.DocumentedArcIff`).
- The documented arcs of the session templates give the halves of the core three to five items,
  or five to seven. That holds for 11 to 17 items and for 18 to 22 only
  (`SessionTemplate.DocumentedArcsIff`).
- The fallback search for content is documented to widen the search to adjacent domains and
  segments. It first repeats the filter's own test; if that finds too little, it drops the test
  altogether (`ContentPool.FallbackContent`).
- The error of a failed election says that no broker is alive; the old leader may be
  (`ClusterModel.ElectionCanFailWithAliveLeader`). `ClusterModel.ElectionErrorIsTrueIff` says when
  the text is right.
- A broker that is killed is documented to be unavailable until an election. A publish looks up
  its leader and appends under separate locks, so one that passed the check still succeeds. The
  exact number is proved (`PublishProtocol.DeadLeaderAcceptsInFlight`).
- The spelling check speaks of an extra character inserted in the middle. By then the ending
  differs, so the character is one of the last two (`Spelling.EarlyDeletionKeepsEnding`).
- `FindPath` rebuilds its path until an empty node ID, so a path through such a node loses its
  beginning (`KnowledgeGraph.BlankCutsPath`). It keeps its word on exactly those calls where the
  first of the paths of minimum length, by the order of the edges, meets no such node
  (`KnowledgeGraph.AnswerIsShortestIff`), and in every order of the edges exactly where none of
  them does (`KnowledgeGraph.AnswerIsShortestInAnyOrderIff`).
- `DeleteUser` follows indexes, and `InsertResult` checks nothing, so a result filed under another
  learner than its session's can leave an index entry without a row
  (`RelationalStore.MisfiledResultDangles`); `RelationalStore.DeleteUserConsistent` says exactly
  when. It also never tells the graph
  (`DualWrite.DeleteUserAgreement`).
- The scheduler's range of stability starts at 0.4, but the SQL initialiser writes 0.0. From
  there stability enters the range by a lapse and in no other way
  (`Fsrs.ZeroStabilityRecoversOnlyByLapse`).
- The dual-write service is there to keep table and graph in sync. It locks each of its writes by
  itself, so updates and initialisations of one skill that overlap can leave the stores apart, and
  stay clear of that exactly where they write the same (`DualWriteProtocol.AlwaysAgreesIffClear`,
  `DualWriteProtocol.AllRunsAgreeIffSoleWriter`).
- The limiter's window may be opened by an early request, so a window's length of time can hold
  almost twice the limit (`RateLimiter.AtMostTwiceTheLimit`, tight). The 429 response and its
  Retry-After header are those of section 4 of RFC 6585 and section 10.2.3 of RFC 9110.

## Modelling choices

- Floating point is exact real arithmetic; time is an integer passed in.
- The exponential forgetting curve is any function into (0, 1] that never rises, and recall at
  non-positive elapsed time is 1. The quotient of the two equal logarithms is 1.
- The FNV hash and the UUID hash are any function to the naturals.
- Library sorts are any sorted permutation; iteration over a Go map is in any order.
- Row IDs that the code draws at random are parameters.
- The handler of a consumer and the parsing of event IDs are functions of the worker's setup, and
  the worker's loop ends after a given number of polls instead of on a signal.

## Model

| member | source | states |
|---|---|---|
| `ConsumerProtocol.StepKeepsInv` | services/api/internal/event/broker.go:163-187 | every step of every consumer and every publish keeps the invariant of the three-step consume: offsets inside the logs, everything below an offset or behind a pending write taken by someone |
| `ConsumerProtocol.ReachableInv` | services/api/internal/event/broker.go:163-187 | the invariant holds in every state any interleaving can reach |
| `ConsumerProtocol.NothingIsSkipped` | services/api/internal/event/broker.go:163-187 | under every interleaving of any number of consumers with publishes, the committed offset never exceeds the log and every record below it was read by some consumer of the group |
| `ConsumerProtocol.AtLeastOnce` | services/api/internal/event/broker.go:359-409 | every record below the committed offset has an outcome at some consumer or is in the hand of one |
| `ConsumerProtocol.WorkerConservation` | services/api/internal/event/broker.go:368-403 | what a consumer read is, in order, what it handled, failed or skipped, plus at most one record in hand |
| `ConsumerProtocol.SoleWorkerIsExactlyOnce` | services/api/internal/event/broker.go:359-409 | with one consumer the offsets read in a partition are 0, 1, 2, ... without gap or repeat, and no event ID succeeds twice |
| `ConsumerProtocol.SoleWorkerOffsetMonotone` | services/api/internal/event/broker.go:171-184 | with one consumer the committed offset never moves backwards |
| `ConsumerProtocol.TwoWorkersHandleTwice` | services/api/internal/event/broker.go:385-401 | with two or more consumers there is a run in which the handler succeeds twice on one event |
| `ConsumerProtocol.TwoWorkersMoveOffsetBack` | services/api/internal/event/broker.go:181-184 | with two or more consumers there is a run in which a commit lowers the offset |
| `ConsumerProtocol.ExactlyOnceIffSoleWorker` | services/api/internal/event/broker_test.go:71-124 | a group handles every event at most once on all runs if and only if it has at most one consumer |
| `ConsumerRefinement.ConsumeAlone` | services/api/internal/event/broker.go:163-187 | reading the offset, reading the record and writing the offset back, without interruption, are one consume of the broker |
| `ConsumerRefinement.HandleAlone` | services/api/internal/event/broker.go:385-401 | looking up the event ID, running the handler and marking the ID, without interruption, are the rest of the loop's turn |
| `ConsumerRefinement.PublishAlone` | services/api/internal/event/broker.go:109-150 | a publish that succeeds is one action of the protocol, one that fails none |
| `ConsumerRefinement.TurnAlone` | services/api/internal/event/broker.go:370-402 | one turn of the worker loop is a run of the protocol in which only this worker acts |
| `ConsumerRefinement.PollsAlone` | services/api/internal/event/broker.go:359-409 | any number of polls of the worker loop are such a run, with the same offsets, processed IDs and results in the same order |
| `ConsumerRefinement.LeadsReaches` | services/api/internal/event/broker.go:359-409 | such a run from a reachable state ends in a reachable one, so what holds on all runs holds of the loop |
| `PublishProtocol.AcceptedIsFound` | services/api/internal/event/broker.go:109-150 | under every interleaving of publishers, kills and elections, each publish that succeeded is found at the place it returned, no two in one place, and the logs hold nothing else |
| `PublishProtocol.PublishAlone` | services/api/internal/event/broker.go:109-136 | the three steps without interruption fail and change nothing if the leader is dead, and otherwise put the message at the end of the log |
| `PublishProtocol.DeadLeaderAcceptsInFlight` | services/api/internal/event/broker.go:122-136 | once a broker is dead, as many more publishes can succeed through it as had passed the check of it: never more, and in some run so many |
| `PublishProtocol.KillIsRespectedIff` | services/api/internal/event/broker.go:284-288 | a kill is respected at once on all runs if and only if it meets no publish between its check and its append |
| `PublishProtocol.StepKeepsInv` | services/api/internal/event/broker.go:25-36 | each step keeps the logs equal to what was accepted, in order |
| `PublishProtocol.RunStaysInRange` | services/api/internal/event/broker.go:109-120 | on every run each publisher under way has a partition of the topic, which the two results above ask for |
| `PublishProtocol.DeadStep` | services/api/internal/event/broker.go:122-136 | with the broker dead, no publish passes the check of it any more, and each that did appends once at most |
| `ClusterModel.ScanRingFinds` | services/api/internal/event/broker.go:310-320 | the election scan returns the first alive broker after the old leader on the ring, never the old leader, or finds all others dead |
| `ClusterModel.ElectionFailsIffNoOtherAlive` | services/api/internal/event/broker.go:310-321 | election fails if and only if every broker other than the old leader is dead |
| `ClusterModel.ElectionCanFailWithAliveLeader` | services/api/internal/event/broker.go:321 | the failure that reports no alive broker can occur while the old leader is alive |
| `ClusterModel.ElectionErrorIsTrueIff` | services/api/internal/event/broker.go:310-321 | the report is true whenever it is made if and only if the old leader is dead or some other broker is alive |
| `ClusterModel.StepWellFormed` | services/api/internal/event/broker.go:299-322 | creating, publishing, killing, electing, consuming and marking all keep every leader a broker of the cluster and one leader per partition |
| `ClusterModel.RunGoesOn` | services/api/internal/event/broker.go:99-322 | every command that can be called goes on with a run, and no other |
| `ClusterModel.KilledAre` | services/api/internal/event/broker.go:284-288 | after any run exactly those brokers are dead that were dead before it or were killed in it |
| `ClusterModel.ProcessedAre` | services/api/internal/event/broker.go:238-255 | after any run a group has processed exactly the event IDs it had and those marked for it, and nothing without a mark |
| `ClusterModel.DeadLeaderRefuses` | services/api/internal/event/broker.go:122-133 | once its leader is killed, a partition refuses every publish of its keys with the leader and partition named, and keeps its log, through any run without an election of it or a re-creation of its topic |
| `ClusterModel.TopicsAre` | services/api/internal/event/broker.go:100-105 | after any run exactly those topics exist that existed or were created |
| `ClusterModel.PartitionsAreThoseAskedFor` | services/api/internal/event/broker.go:100-105 | a topic has as many partitions as its last creation asked for |
| `ClusterModel.LeadersGoRound` | services/api/internal/event/broker.go:60-72 | the leaders of a new topic start with the first broker and go round the brokers |
| `ClusterModel.KeysAreDealtOut` | services/api/internal/event/broker.go:118-120 | a publish goes to the partition that the hash of its key leaves over when dealt out to the partitions |
| `ClusterModel.StepGrowsLogs` | services/api/internal/event/broker.go:25-36 | any command except re-creating the topic leaves each of its logs a prefix of what it becomes |
| `ClusterModel.LogsAreHistory` | services/api/internal/event/broker.go:109-150 | after any run, partition p holds exactly the successful publishes of the topic whose keys hash to p, in order, each with its index as offset |
| `ClusterModel.PartitionHoldsKey` | services/api/internal/event/broker.go:345-349 | a partition holds all pairs of a key in publish order, or none |
| `ClusterModel.ReadBackIsHistoryPerKey` | services/api/internal/event/broker.go:190-213 | after any run of publishes, kills and elections, reading all partitions gives for each key exactly its successfully published values, in publish order |
| `ClusterModel.FailoverRestoresPublish` | services/api/internal/event/broker.go:297-322 | electing a leader while some other broker is alive makes the next publish to that partition succeed, with the log untouched |
| `ClusterModel.FreshGroupReadsHistory` | services/api/internal/event/broker.go:109-213 | after any run in which the group consumed nothing, what ConsumeAll has yet to hand it is exactly what was successfully published to the topic: each publish once over all keys, and those of a key in publish order |
| `ClusterModel.OnlyConsumesCommit` | services/api/internal/event/broker.go:163-187 | a group that no command of a run consumes for has every offset still at zero |
| `ClusterModel.ConsumeTakesFirstUnread` | services/api/internal/event/broker.go:163-187 | a consume hands out the first unread record, moves that one offset by one, and disturbs no other group, partition, topic or log |
| `ClusterModel.ConsumeInSteps` | services/api/internal/event/broker.go:171-184 | creating the group, reading, and committing one step further is the whole effect of a consume |
| `ClusterModel.DrainReadsToTheEnd` | services/api/internal/event/broker.go:203-211 | consuming a partition until nothing comes moves its offset by exactly the number of unread records and nothing else |
| `ClusterModel.DrainedLeavesNothing` | services/api/internal/event/broker.go:190-213 | after ConsumeAll nothing of the topic is unread for the group |
| `Broker.Partition.Append` | services/api/internal/event/broker.go:25-36 | the log gains the record at its end and the offset returned is the old length |
| `Broker.Partition.Read` | services/api/internal/event/broker.go:38-45 | the record at a valid offset, nothing at a negative or too large one |
| `Broker.NewTopic` | services/api/internal/event/broker.go:60-68 | fresh empty partitions with leaders spread round the brokers |
| `Broker.Broker.CreateTopic` | services/api/internal/event/broker.go:101-105 | the cluster with this topic new and empty, replacing one of the same name |
| `Broker.Broker.Publish` | services/api/internal/event/broker.go:109-150 | appends to the partition of the key and reports its offset, or changes nothing when the topic is missing or the leader is down |
| `Broker.Broker.AppendTo` | services/api/internal/event/broker.go:136 | one log of one topic grows, seen through the object graph |
| `Broker.Broker.KillBroker` | services/api/internal/event/broker.go:284-288 | the broker joins the dead ones |
| `Broker.Broker.ElectNewLeader` | services/api/internal/event/broker.go:299-322 | the loop elects what the ring scan of the model finds, or fails and changes nothing |
| `Broker.Broker.SetLeader` | services/api/internal/event/broker.go:317 | one leader of one topic changes, seen through the object graph |
| `Broker.Broker.GetOrCreateGroup` | services/api/internal/event/broker.go:334-343 | the group exists afterwards; an existing one keeps its offsets |
| `Broker.Broker.Consume` | services/api/internal/event/broker.go:163-187 | hands out the record at the committed offset and commits the next one; creates the group even when there is nothing |
| `Broker.Broker.CommitOffset` | services/api/internal/event/broker.go:181-184 | only this partition of this group moves |
| `Broker.Broker.ConsumeAll` | services/api/internal/event/broker.go:190-213 | returns every unread record, partition by partition in order, and leaves the group drained |
| `Broker.Broker.DrainPartition` | services/api/internal/event/broker.go:204-210 | returns what was unread in the partition, in order |
| `Broker.Broker.MarkProcessed` | services/api/internal/event/broker.go:238-245 | the event ID joins the processed ones of the group |
| `Broker.Broker.IsProcessed` | services/api/internal/event/broker.go:248-255 | whether the group processed the event ID |
| `ConsumerWorker.HandlePartition` | services/api/internal/event/broker.go:370-402 | one turn of the inner loop consumes at most one record and handles it, as the model does |
| `ConsumerWorker.HandleRecord` | services/api/internal/event/broker.go:376-402 | a duplicate is skipped; otherwise the handler is called once and the event marked or dead-lettered by its verdict |
| `ConsumerWorker.DeadLetter` | services/api/internal/event/broker.go:390-398 | a failed record is published to the dead-letter topic, if that can take it, and nothing else changes |
| `ConsumerWorker.MarkSuccess` | services/api/internal/event/broker.go:399-400 | a successful one is marked if it has an event ID |
| `ConsumerWorker.Sweep` | services/api/internal/event/broker.go:368-403 | one pass over the partitions |
| `ConsumerWorker.RunConsumer` | services/api/internal/event/broker.go:359-409 | after any number of polls the bookkeeping adds up and the returned count is successes plus failures |
| `ConsumerWorker.PollsAccount` | services/api/internal/event/broker.go:359-409 | at every point the records read are exactly those between the old and new offsets, the processed IDs are exactly the earlier ones and the non-empty ones that succeeded, and every failure with a live dead-letter leader is in the dead-letter topic |
| `ConsumerWorker.Conservation` | services/api/internal/event/broker.go:374-402 | consumed records are successes plus failures plus skipped duplicates |
| `ConsumerWorker.NoDoubleSuccess` | services/api/internal/event/broker.go:385-401 | no non-empty event ID succeeds twice, nor one processed before the run |
| `ConsumerWorker.DlqGrowsByFailures` | services/api/internal/event/broker.go:390-398 | the dead-letter topic grows by exactly the number of failures when it exists with live leaders |
| `ConsumerWorker.PollsMove` | services/api/internal/event/broker.go:359-403 | each poll moves a partition one record further until its log is read |
| `RelationalStore.InsertUserConsistent` | services/api/internal/database/pgstore.go:134-144 | inserting a user with a new email keeps all indexes equal to their tables if and only if the ID is new |
| `RelationalStore.InsertProfileConsistent` | services/api/internal/database/pgstore.go:147-157 | the same for a profile of an existing user |
| `RelationalStore.InsertSessionConsistent` | services/api/internal/database/pgstore.go:160-170 | the same for a session of an existing profile, whose ID must not be the nil one |
| `RelationalStore.InsertResultConsistent` | services/api/internal/database/pgstore.go:173-181 | the same for a result |
| `RelationalStore.InsertActivityConsistent` | services/api/internal/database/pgstore.go:361-376 | the same for a result without a session |
| `RelationalStore.CascadeIsOwnership` | services/api/internal/database/pgstore.go:244-277 | on a consistent store, what the cascade finds through indexes is what the user owns by the tables: profiles, their sessions, and the results of either |
| `RelationalStore.DeleteUserConsistent` | services/api/internal/database/pgstore.go:236-286 | deleting a user keeps every index equal to its table if and only if no result has just one of its session and its learner deleted |
| `RelationalStore.MisfiledResultDangles` | services/api/internal/database/pgstore.go:173-286 | the run that breaks an index: two users with a profile each, a session of the one, a result in it filed under the other, and the deletion of the other; all consistent until that last step |
| `RelationalStore.DeletionCanBreakIndex` | services/api/internal/database/pgstore.go:173-286 | there is such a run |
| `RelationalStore.CoherentNeverStraddles` | services/api/internal/database/pgstore.go:173-181 | results filed under the learner of their session are never caught half in and half out of a deletion |
| `RelationalStore.DeleteUserCoherent` | services/api/internal/database/pgstore.go:236-286 | deletion keeps the remaining results coherent |
| `RelationalStore.RunConsistent` | services/api/internal/database/pgstore.go:134-286 | after any run of inserts with new IDs and coherent results, and deletions, every index equals its table |
| `RelationalStore.DeleteUserRemovesExactlyOwned` | services/api/internal/database/pgstore.go:236-286 | deletion removes every row the user owns and leaves every other row as it was |
| `RelationalStore.DeleteUserEmitsOncePerProfile` | services/api/internal/database/pgstore.go:269-274 | exactly one deletion event for each profile of the user, after the events there were |
| `RelationalStore.AdmittedIsStored` | services/api/internal/database/pgstore.go:134-376 | a command that the checks let through stores its row as given, and one that they do not changes nothing |
| `RelationalStore.InsertedIsThere` | services/api/internal/database/pgstore.go:134-376 | after any run the row of every command that was let through is there, unless a later one may have replaced or removed it |
| `PgStore.PgStore.InsertUser` | services/api/internal/database/pgstore.go:134-144 | a taken email is refused and changes nothing; otherwise the row and the email index are written |
| `PgStore.PgStore.InsertProfile` | services/api/internal/database/pgstore.go:147-157 | an unknown user is refused; otherwise the row and its index entry are written |
| `PgStore.PgStore.InsertSession` | services/api/internal/database/pgstore.go:160-170 | an unknown profile is refused; otherwise the row and its index entry are written |
| `PgStore.PgStore.InsertResult` | services/api/internal/database/pgstore.go:173-181 | the row and both index entries are written without any check |
| `PgStore.PgStore.InsertActivityEvent` | services/api/internal/database/pgstore.go:361-376 | the row is indexed by learner only |
| `PgStore.PgStore.InsertSkill` | services/api/internal/database/pgstore.go:184-188 | the skill is written under its ID |
| `PgStore.PgStore.InsertLearnerSkill` | services/api/internal/database/pgstore.go:191-198 | the learner skill is written, beside the learner's other skills |
| `PgStore.PgStore.UpdateLearnerSkill` | services/api/internal/database/pgstore.go:201-213 | an existing learner skill changes; a missing one is an error that changes nothing |
| `PgStore.PgStore.DeleteResults` | services/api/internal/database/pgstore.go:252-254 | the listed results are gone and no others |
| `PgStore.PgStore.CascadeSession` | services/api/internal/database/pgstore.go:249-257 | a session goes with the results listed under it |
| `PgStore.PgStore.CascadeSessions` | services/api/internal/database/pgstore.go:248-257 | the loop over the sessions of a profile removes them all with their results |
| `PgStore.PgStore.CascadeProfile` | services/api/internal/database/pgstore.go:246-277 | one turn of the outer loop removes a profile with its sessions, results and skills, and emits its event |
| `PgStore.PgStore.CascadeProfiles` | services/api/internal/database/pgstore.go:246-277 | the nested loops, one deletion at a time, amount to one removal by sets, with one event per profile in order |
| `PgStore.PgStore.DeleteUser` | services/api/internal/database/pgstore.go:236-286 | an unknown user is an error; otherwise the nested loops leave the store the model describes |
| `PgStore.PgStore.GetSkillsByLevel` | services/api/internal/database/pgstore.go:346-358 | exactly the skills at or below the level, each listed once, unknown levels ranking lowest |
| `PgStore.LevelsAreOrdered` | services/api/internal/database/pgstore.go:346-358 | A1 to C2 are in order, and any other text ranks below them all |
| `KnowledgeGraph.Neo4jGraph.FindPath` | services/api/internal/database/pgstore.go:677-719 | terminates; nil when an endpoint is missing or the target is unreachable, otherwise the first of the shortest walks (where two part, the one whose next vertex is listed earlier), cut off behind a vertex with an empty ID if it has one |
| `KnowledgeGraph.Neo4jGraph.Expand` | services/api/internal/database/pgstore.go:709-715 | the neighbour loop queues each neighbour that was not visited, in the order of the list, and makes the current vertex its parent |
| `KnowledgeGraph.Neo4jGraph.PathTo` | services/api/internal/database/pgstore.go:698-706 | the parent map is followed back to the source, stopping early at an empty ID |
| `KnowledgeGraph.Neo4jGraph.CreateEdge` | services/api/internal/database/pgstore.go:631-636 | edge list and adjacency lists stay in step |
| `KnowledgeGraph.Neo4jGraph.UpdateNodeProperty` | services/api/internal/database/pgstore.go:722-731 | one property of an existing node changes; a missing node changes nothing |
| `KnowledgeGraph.WalksAreFound` | services/api/internal/database/pgstore.go:693-716 | a walk from the source either comes no earlier, by length and then by edge order, than that of the next vertex to expand, or ends at a vertex found before, whose walk it does not precede |
| `KnowledgeGraph.FirstShortestInTree` | services/api/internal/database/pgstore.go:697-707 | when the target heads the queue, the walk through the parent map is the first of the shortest walks |
| `KnowledgeGraph.EarlierIsBefore` | services/api/internal/database/pgstore.go:709-715 | vertices found earlier have walks that are shorter, or as long and earlier by edge order |
| `KnowledgeGraph.TurnKeeps` | services/api/internal/database/pgstore.go:693-716 | one turn of the search loop keeps all of this, in terms of visited, parent and queue |
| `KnowledgeGraph.NothingFound` | services/api/internal/database/pgstore.go:718 | when the queue runs out, no walk reaches the target |
| `KnowledgeGraph.AnswerIsDetermined` | services/api/internal/database/pgstore.go:677-719 | the contract leaves one answer only |
| `KnowledgeGraph.AnswerIsShortestIff` | services/api/internal/database/pgstore.go:698-706 | between two connected nodes the answer is a path of minimum length if and only if the first of the shortest walks has no vertex with an empty ID; others may have |
| `KnowledgeGraph.AnswerIsShortestInAnyOrderIff` | services/api/internal/database/pgstore.go:677-719 | it is one whatever the order in which the same edges were created if and only if no path of minimum length has such a vertex |
| `KnowledgeGraph.FirstShortestIsUnique` | services/api/internal/database/pgstore.go:709-715 | there is one first of the shortest walks at most |
| `KnowledgeGraph.NoEdgeToBlank` | services/api/internal/database/pgstore.go:700 | where no edge leads to an empty ID and the source has another, no path meets one |
| `KnowledgeGraph.NilAnswerIff` | services/api/internal/database/pgstore.go:675-719 | the answer is nil exactly when an end is missing, the target is unreachable, or the target has the empty ID |
| `KnowledgeGraph.BlankCutsPath` | services/api/internal/database/pgstore.go:698-706 | a concrete graph on which every answer comes back without its beginning |
| `KnowledgeGraph.WalkStepsAreEdges` | services/api/internal/database/pgstore.go:631-636 | every step of a path is an edge that was created |
| `DualWrite.DualWriteService.InitializeLearnerSkills` | services/api/internal/database/pgstore.go:754-791 | the table is the old one with a new row for each skill of the level, the graph the old one with a node for each of these and the edges from prerequisites among the learner's nodes; agreement is kept; a fresh learner's nodes are linked exactly by prerequisites |
| `DualWrite.DualWriteService.CreateNodes` | services/api/internal/database/pgstore.go:756-776 | a row and a node for each skill; all other rows and nodes as they were |
| `DualWrite.DualWriteService.CreatePrerequisites` | services/api/internal/database/pgstore.go:779-790 | the edges gained are exactly those from prerequisites that are nodes of the learner |
| `DualWrite.DualWriteService.UpdateSkillConfidence` | services/api/internal/database/pgstore.go:795-814 | the update reaches both stores or, for a missing row, neither, and nothing else changes; an error exactly when row or node is missing; agreement is kept |
| `DualWrite.WriteBothKeepsAgreement` | services/api/internal/database/pgstore.go:754-814 | writing one learner skill to both stores keeps them agreeing on all |
| `DualWrite.StartsFromNothing` | services/api/internal/database/pgstore.go:757-776 | every skill of the level starts new and at no confidence, in the table and in the properties of its node |
| `DualWrite.FreshLearnerGraph` | services/api/internal/database/pgstore.go:778-790 | after initialising a fresh learner its part of the graph is the prerequisite relation at or below the level |
| `DualWrite.FindPathIffPrerequisite` | services/api/internal/database/pgstore.go:677-719 | between two skills of a learner so initialised a path is found if and only if one is a transitive prerequisite of the other through skills at or below the level, and it is then of minimum length |
| `DualWrite.RunAgrees` | services/api/internal/database/pgstore.go:754-814 | table and graph agree at every point of any run of initialisations and updates that starts in agreement |
| `DualWrite.OtherLearnerGraphStays` | services/api/internal/database/pgstore.go:754-791 | initialising a learner leaves every other learner's part of the graph as it is |
| `DualWrite.OwnLearnerGraphRises` | services/api/internal/database/pgstore.go:754-791 | initialising the same learner again raises its part of the graph to the higher of the two levels |
| `DualWrite.RunKeepsLearnerGraph` | services/api/internal/database/pgstore.go:754-814 | from the point of a run where a fresh learner is initialised, its part of the graph is the prerequisite relation at the highest level it was initialised at since, whatever is done for it and others |
| `DualWrite.TopLevelIsHighest` | services/api/internal/database/pgstore.go:754-756 | that level is one of those it was initialised at, and none of them is above it |
| `DualWrite.RunFindsPrerequisites` | services/api/internal/database/pgstore.go:677-814 | at every later point of such a run a path is found between two of its skills at that level if and only if one is a transitive prerequisite of the other, and it is of minimum length |
| `DualWriteProtocol.CallAlone` | services/api/internal/database/pgstore.go:795-814 | the three separately locked writes of an update, taken without interruption, are the update of the sequential service |
| `DualWriteProtocol.InsertAlone` | services/api/internal/database/pgstore.go:756-776 | the two writes of one turn of an initialisation, taken without interruption, are a new row and a new node |
| `DualWriteProtocol.AgreesWhenFinishedIffSafe` | services/api/internal/database/pgstore.go:754-814 | in every state, with any updates and initialisations under way, all the orders in which they can finish end in agreement if and only if exactly the skills with a row have a node or will get one, every value still to be written is the row's, and where none is, the node has it |
| `DualWriteProtocol.BeginKeepsSafeIff` | services/api/internal/database/pgstore.go:757-797 | beginning an update or an initialisation keeps that so if and only if whoever has still to write a field of the same skill writes the same |
| `DualWriteProtocol.NodeStepKeepsSafe` | services/api/internal/database/pgstore.go:806-810 | each write to a node keeps it so |
| `DualWriteProtocol.AlwaysAgreesIffClear` | services/api/internal/database/pgstore.go:754-814 | for every interleaving of updates and initialisations by any number of writers: at every point of the run the stores agree however the writers finish, if and only if none of them begins while another for the same skill has yet to write something else |
| `DualWriteProtocol.UnsafeCanDisagree` | services/api/internal/database/pgstore.go:806-810 | otherwise a writer with another value may come last, by an explicit order |
| `DualWriteProtocol.AllRunsAgreeIffSoleWriter` | services/api/internal/database/pgstore.go:754-814 | from any stores that agree, all runs that end with the writers idle leave them in agreement if and only if there is at most one writer |
| `DualWrite.DeleteUserAgreement` | services/api/internal/database/pgstore.go:266-267 | deleting a user keeps table and graph agreeing if and only if its profiles have no learner skills, because the graph is never told |
| `CitusCluster.CitusCluster.InsertUser` | services/api/internal/database/pgstore.go:489-501 | a user goes to the worker its ID hashes to, and each worker keeps exactly its users in order of insertion |
| `CitusCluster.CitusCluster.QueryUser` | services/api/internal/database/pgstore.go:504-512 | a known user is found at exactly one worker, which lists it; an unknown one is a scatter query |
| `CitusCluster.CitusCluster.TotalUsers` | services/api/internal/database/pgstore.go:526-534 | the workers together hold every insertion once |
| `CitusCluster.Route` | services/api/internal/database/pgstore.go:489-501 | the worker exists, and workers beyond the number of shards never get a user |
| `CitusCluster.ShardsGoRound` | services/api/internal/database/pgstore.go:489-501 | the hash modulo thirty-two is the shard, and shards go round the workers |
| `CitusCluster.StepApproaches` | services/api/internal/database/pgstore.go:587 | a Newton step from any positive start lands at or above the root and from there cuts the excess of the square to a quarter |
| `CitusCluster.Sqrt` | services/api/internal/database/pgstore.go:580-590 | after the hundred steps the square is at least x, and exceeds it by at most the square of x / 4 - 1 divided by four ninety-nine times |
| `CitusCluster.FirstStep` | services/api/internal/database/pgstore.go:584-588 | the first step leads from half of x to x / 4 + 1 |
| `CitusCluster.QuarterPowers` | services/api/internal/database/pgstore.go:585 | what the division by four means |
| `SessionTemplate.LayoutFor` | services/api/internal/engine/session_composer.go:93-294 | every layout has one position per item and opens with a warmup; it closes with a cooldown except at exactly the sizes named |
| `SessionTemplate.BuildShortTemplate` | services/api/internal/engine/session_composer.go:109-129 | the slots follow the short layout, for every size |
| `SessionTemplate.BuildStandardTemplate` | services/api/internal/engine/session_composer.go:215-294 | the filling loops follow the standard layout, for every size |
| `SessionTemplate.BuildStandardArc` | services/api/internal/engine/session_composer.go:229-293 | the moving index never runs past the slots and fills each stretch in turn |
| `SessionTemplate.CloseStandard` | services/api/internal/engine/session_composer.go:252-293 | the last stretches end exactly with the slots |
| `SessionTemplate.SplitStandardCore` | services/api/internal/engine/session_composer.go:252-267 | the shares the core stretches get by the layout |
| `SessionTemplate.BuildIntensiveTemplate` | services/api/internal/engine/session_composer.go:132-212 | the filling loops follow the intensive layout, for every size |
| `SessionTemplate.CloseIntensive` | services/api/internal/engine/session_composer.go:193-211 | the last stretches end exactly with the slots |
| `SessionTemplate.SplitIntensiveCore` | services/api/internal/engine/session_composer.go:157-173 | the shares the core and special stretches get by the layout |
| `SessionTemplate.BuildTemplate` | services/api/internal/engine/session_composer.go:93-106 | the mode follows from segment and budget |
| `SessionTemplate.ModesTell` | services/api/internal/engine/session_composer.go:93-106 | which segments and budgets get a single warmup, and which a challenge near the end |
| `SessionTemplate.SmallSessions` | services/api/internal/engine/session_composer.go:109-294 | the stretches of sessions of up to nine items, for every mode |
| `SessionTemplate.LargeSessions` | services/api/internal/engine/session_composer.go:109-294 | the stretches of larger ones: two or three warmups, one or two ramps, core in halves, reliefs, challenge and cooldown |
| `SessionTemplate.DocumentedArcsIff` | services/api/internal/engine/session_composer.go:131-214 | core halves have the documented sizes exactly in standard sessions of 11 to 17 items and intensive ones of 18 to 22 |
| `SessionTemplate.SlotsAreMeantFor` | services/api/internal/engine/session_composer.go:109-294 | the range of difficulties each role's slot names |
| `SessionTemplate.Fill` | services/api/internal/engine/session_composer.go:236-239 | a fill loop fills the slots it has room for; every other slot stays as it was |
| `SlotFilling.BuildPools` | services/api/internal/engine/session_composer.go:303-317 | each pool is the selections of its band, in order; none is lost |
| `SlotFilling.PickFor` | services/api/internal/engine/session_composer.go:324-349 | the head of the pool of the role's band, or of its second band when the first is used up, or nothing when both are |
| `SlotFilling.FilledFitsRole` | services/api/internal/engine/session_composer.go:303-349 | in difficulties: warmups and cooldowns are below 0.3, ramps and reliefs from 0.3 to 0.6, cores from 0.6 to 0.8, challenges from 0.8, or one step easier only when nothing of that is left, or empty when nothing of both is |
| `SlotFilling.Mark` | services/api/internal/engine/session_composer.go:357-363 | marks the first unmarked selection with the content ID, and nothing when there is none |
| `SlotFilling.FirstPass` | services/api/internal/engine/session_composer.go:322-371 | each slot gets what its role asks for while there is any, easier selections of a band before harder ones |
| `SlotFilling.FirstPassKeeps` | services/api/internal/engine/session_composer.go:346-363 | the marks stand for exactly the selections placed |
| `SlotFilling.PlaceNext` | services/api/internal/engine/session_composer.go:322-371 | one slot's turn: what it gets, what it marks, and the invariants of the pass |
| `SlotFilling.Unmarked` | services/api/internal/engine/session_composer.go:373-379 | what remains is the unmarked selections, in order, which is what was not placed |
| `SlotFilling.SecondPass` | services/api/internal/engine/session_composer.go:381-388 | the k-th empty slot takes the k-th remaining selection; full slots are left alone |
| `SlotFilling.FilledIsRearranged` | services/api/internal/engine/session_composer.go:373-388 | with as many empty slots as selections left, the slots hold what was placed and what remained, nothing twice |
| `SlotFilling.PlaceItems` | services/api/internal/engine/session_composer.go:297-391 | on sorted selections with distinct content IDs the two passes put every selection in exactly one slot, with positions and roles of the template, each slot of the first pass in the difficulties of its role as long as there are any, and easier selections first |
| `SessionComposer.ComposeSession` | services/api/internal/engine/session_composer.go:45-83 | the session rearranges its selections along the layout for its size, segment and budget, each in the difficulties of its role as long as there are any, and its total is the sum of its times |
| `SessionComposer.IsStruggling` | services/api/internal/engine/session_composer.go:437-447 | true exactly when the last three attempts are wrong |
| `SessionComposer.IsCoasting` | services/api/internal/engine/session_composer.go:451-465 | true exactly when the last five attempts are right and took less than half the expected time |
| `SessionComposer.FirstHardest` | services/api/internal/engine/session_composer.go:484-498 | the first of the hardest selections that fit, or none fits |
| `SessionComposer.ComposedSession.EvaluateAdaptation` | services/api/internal/engine/session_composer.go:404-425 | at most one item changes, after the current one; roles and length stay; struggling comes before coasting; the total stays the sum |
| `SessionComposer.ComposedSession.AdaptForStruggling` | services/api/internal/engine/session_composer.go:469-536 | the next item becomes the hardest content for the skill that is easier than planned and below 0.4, with hints; failing that, only hints |
| `SessionComposer.ComposedSession.AdaptForCoasting` | services/api/internal/engine/session_composer.go:539-598 | the first upcoming item other than a cooldown that can be made harder by 0.15 becomes the hardest of the pool; otherwise nothing changes |
| `SessionComposer.StreaksAre` | services/api/internal/engine/session_composer.go:437-465 | struggling is three wrong answers in a row; coasting is five right ones, each in less than half the expected time |
| `SessionComposer.StrugglingGets` | services/api/internal/engine/session_composer.go:469-536 | in numbers: hint level one, and content for the skill that is easier than planned and below 0.4 if there is any |
| `SessionComposer.CoastingGets` | services/api/internal/engine/session_composer.go:539-598 | in numbers: harder by 0.15 at least and without hints, and no upcoming item before it could be |
| `SessionComposer.TrimKeepsToBudget` | services/api/internal/engine/session_composer.go:602-646 | in numbers: at most 115% of the budget unless nothing more can go, and nothing changes if that is so already |
| `SessionComposer.ComposedSession.Replace` | services/api/internal/engine/session_composer.go:510-529 | the running total moves by the difference of the two times |
| `SessionComposer.ComposedSession.EnforceTimeBudget` | services/api/internal/engine/session_composer.go:602-646 | terminates within 115% of the budget, or with at most two items, or with only warmups after the first; the total moves by exactly what the items lose |
| `SessionComposer.ComposedSession.TrimOnce` | services/api/internal/engine/session_composer.go:606-644 | one pass cuts the closing cooldown or removes the last item that is not a warmup |
| `SessionComposer.ComposedSession.LastNonWarmup` | services/api/internal/engine/session_composer.go:622-629 | the last item that may go |
| `SessionComposer.ComposedSession.Renumber` | services/api/internal/engine/session_composer.go:641-644 | positions count from zero again |
| `SessionComposer.ComposedSession.SessionTotalEstTime` | services/api/internal/engine/session_composer.go:649-659 | the sum of the estimated times |
| `SessionComposer.ComposedSession.AdaptAndEnforceBudget` | services/api/internal/engine/session_composer.go:692-706 | what the adaptation left, with its recomputed total, trimmed to the budget: the total is right, whatever it was before |
| `SessionBudget.TrimPreserves` | services/api/internal/engine/session_composer.go:605-645 | whatever every turn of the trimming loop keeps holds when it stops, and it stops only when there is no need or no way to go on |
| `SessionBudget.TrimFits` | services/api/internal/engine/session_composer.go:603-645 | trimming ends within the limit unless two items or only warmups are left, and keeps the total in step with the items |
| `Content.ToleranceIs` | services/api/internal/engine/session_composer.go:603 | the limit is 115 parts in a hundred of the budget, truncated toward zero |
| `SessionBudget.TimeOfEqual` | services/api/internal/engine/session_composer.go:649-659 | and so do items of a session |
| `SessionBudget.TrimRemovesLast` | services/api/internal/engine/session_composer.go:600-646 | exactly the last k items that are not warmups are gone, the others are in order, renumbered and otherwise unchanged but for a cooldown cut to fifteen seconds; where only the last item was a cooldown, putting the last one removed back would break the limit |
| `SessionBudget.RemoveStep` | services/api/internal/engine/session_composer.go:622-644 | removing the last removable survivor turns k removals into k + 1 |
| `SessionComposer.TrimKeepsPlaces` | services/api/internal/engine/session_composer.go:641-644 | after trimming every item still knows its position and difficulty |
| `ContentPool.FilterContent` | services/api/internal/engine/content_selector.go:100-116 | the content for the segment that was not seen recently, in order |
| `ContentPool.FallbackContent` | services/api/internal/engine/content_selector.go:119-155 | the same again if that is at least five, otherwise everything not seen recently |
| `ContentPool.PoolHolds` | services/api/internal/engine/content_selector.go:52-65 | the pool has nothing recently seen, all that suits the segment, and is empty if and only if everything was seen recently |
| `ContentPool.PoolSuits` | services/api/internal/engine/content_selector.go:52-168 | of what was not seen recently, what is untagged, general or for the segment is in the pool, and the rest if and only if that makes less than five |
| `ContentPool.IPlusOneLevels` | services/api/internal/engine/content_selector.go:187-209 | comfort is the current level and the one below, stretch the one above; an unknown level counts as the lowest |
| `ContentPool.EstimateItemCount` | services/api/internal/engine/content_selector.go:212-237 | between five and twenty, and in between as many items of average length as fit |
| `ContentPool.AverageOfEqual` | services/api/internal/engine/content_selector.go:216-228 | the average of equal times is that time, and an unknown time counts as half a minute |
| `ContentPool.AverageIsShare` | services/api/internal/engine/content_selector.go:225 | in general it is the total divided by the number of pieces, rounded down |
| `ContentSelector.CategorizeSkills` | services/api/internal/engine/content_selector.go:171-184 | each skill falls in the first of due, new and weak that applies, in order |
| `ContentSelector.KindsAre` | services/api/internal/engine/content_selector.go:171-184 | a skill is due when past its review, else new when new or tried less than three times, else weak when below half confidence |
| `ContentSelector.KindsInOrder` | services/api/internal/engine/content_selector.go:171-184 | each list keeps the order of the skills |
| `ContentSelector.Selector.IndexContent` | services/api/internal/engine/content_selector.go:248-253 | for each skill, its content in order |
| `ContentSelector.Selector.PickContent` | services/api/internal/engine/content_selector.go:284-353 | the first unused content for the skill with the highest score; nothing only when all is used |
| `ContentSelector.Selector.ScoreOf` | services/api/internal/engine/content_selector.go:300-316 | the score by level, last type and uses so far, from the bookkeeping |
| `SelectionRules.LevelsWeigh` | services/api/internal/engine/content_selector.go:301-307 | what the level of content weighs against another level, with and without a preference for stretch |
| `SelectionRules.TypesWeigh` | services/api/internal/engine/content_selector.go:309-316 | what a type other than the last one weighs, and one used less than three times |
| `ContentSelector.Selector.AddSelection` | services/api/internal/engine/content_selector.go:355-367 | the bookkeeping follows the list; content stays distinct |
| `ContentSelector.Selector.PickAssigned` | services/api/internal/engine/content_selector.go:370-381 | each assigned skill in turn gets its best unused content, whatever the time, and goes without only when the share of 40% is full or its content used up |
| `ContentSelector.Selector.TrySkill` | services/api/internal/engine/content_selector.go:388-410 | a skill's turn: its best unused content at that moment, or nothing because the list is full, the skill used, its content used up, or that best content too long |
| `ContentSelector.Selector.PractiseDue` | services/api/internal/engine/content_selector.go:388-411 | every due skill has its turn, in the order of the rows, with the stretch level preferred at every third place while short of its target |
| `ContentSelector.Selector.PractiseWeak` | services/api/internal/engine/content_selector.go:414-432 | every weak skill has its turn, in the order of the rows |
| `ContentSelector.Selector.PractiseNew` | services/api/internal/engine/content_selector.go:435-457 | every new skill has its turn, in the order of the rows, with the stretch level preferred while short of its target |
| `ContentSelector.Selector.FillUp` | services/api/internal/engine/content_selector.go:468-515 | all general content has its turn, in order, and only then any content, in order |
| `ContentSelector.Selector.TryContent` | services/api/internal/engine/content_selector.go:476-512 | a piece of content is taken unless the list is full, it was used, its level or domain is not wanted, or it is too long at that moment |
| `ContentSelector.SelectWithConstraints` | services/api/internal/engine/content_selector.go:240-518 | distinct content within the maximum; the turns of the assignment, the due, weak and new skills, the general and the other content follow each other, each with what it gets or why it is passed over at exactly that prefix of the list |
| `SelectionCourse.SelectionIsDetermined` | services/api/internal/engine/content_selector.go:240-518 | these turns leave exactly one selection and one place for the end of each phase |
| `SelectionCourse.AnswersAreDetermined` | services/api/internal/engine/content_selector.go:387-456 | a phase that starts from the same list ends with the same list |
| `SelectionCourse.TurnIsDetermined` | services/api/internal/engine/content_selector.go:284-353 | no turn could both be granted and passed over, or granted two things |
| `SelectionCourse.PhasesLeaveNothing` | services/api/internal/engine/content_selector.go:387-515 | review priority: at the end of each phase every one of its skills is served, or was passed over within the list so far; so a due review yields to nothing later; and no general content, and in the end no allowed content, is left that would fit |
| `SelectionCourse.PhasesFit` | services/api/internal/engine/content_selector.go:369-515 | the limit holds unless the assignment alone is longer |
| `SelectionCourse.AssignmentGetsItsShare` | services/api/internal/engine/content_selector.go:369-381 | an assignment gets at most 40% of the items, rounded up, each for one of its skills; less only if each of its skills has a selection or no content unused |
| `SelectionCourse.PhasesPractise` | services/api/internal/engine/content_selector.go:383-457 | each pick of the due, weak and new phases is the best content for a skill of its rows not practised before; due ones prefer the stretch level at every third place and new ones at every place while less than a fifth of the items has it; exactly due and weak picks are reviews |
| `SelectionCourse.SkillsHadTheirTurn` | services/api/internal/engine/content_selector.go:387-457 | every due, weak and new skill has a selection by the end of its phase, or was passed over in it because the session was full, its content used, or the best of it too long |
| `SelectionCourse.StretchInCounts` | services/api/internal/engine/content_selector.go:384-408 | what counts as stretch so far is the number of selections of that level |
| `SelectionCourse.FillsWithinLevels` | services/api/internal/engine/content_selector.go:459-513 | what a session is filled up with is content within the levels for its first skill, general content first |
| `SelectionCourse.NothingLeftToFill` | services/api/internal/engine/content_selector.go:468-515 | in the end no content within the levels is left that would still fit |
| `SelectionCourse.AnswersGrant` | services/api/internal/engine/content_selector.go:387-456 | every selection of a phase was granted to one of its skills, as the best for it at its place |
| `ContentSelector.GenerateContentSet` | services/api/internal/engine/content_selector.go:42-97 | for the pool, the item count and the level zones of the learner, the one selection its plan leaves, rearranged with roles: no content twice, none recently seen, at most twenty items, the assignment with its 40%, total time at most the larger of 115% of the budget and the assignment's time, no allowed content left that would fit, a long run of one type exactly when the counter of the chosen order says so; nothing when everything was seen |
| `ContentSelector.Arrange` | services/api/internal/engine/content_selector.go:86-94 | the chosen selections in varied order with the roles of the arc; a long run is left exactly when the counter of the chosen order says so |
| `ContentSelector.ArrangementHolds` | services/api/internal/engine/content_selector.go:86-94 | reordering and assigning roles change neither content, count, time nor what could still be added |
| `SelectionRules.TimePermutes` | services/api/internal/engine/content_selector.go:355-360 | the total time does not depend on the order |
| `SelectionRules.TimeOfEqual` | services/api/internal/engine/content_selector.go:355-360 | selections that each take as long take that long times their number |
| `Variety.EnforceVariety` | services/api/internal/engine/content_selector.go:528-553 | a permutation in which a run of more than three reaches the end, and the run at the end has the length a one-pass counter computes from the input |
| `Variety.ScanSurvivesSwap` | services/api/internal/engine/content_selector.go:541-547 | the counter gives the same result before and after a swap |
| `Variety.ScanMeasuresLastRun` | services/api/internal/engine/content_selector.go:555-562 | where long runs reach the end, there is one if and only if the counter ends above three |
| `Variety.SwapKeeps` | services/api/internal/engine/content_selector.go:539-549 | a swap settles the position it works on and undoes nothing before it |
| `Variety.VarietyCanFail` | services/api/internal/engine/content_selector.go:527 | a list that keeps a run of four although another order has none |
| `Variety.SelectionsTypeMatch` | services/api/internal/engine/content_selector.go:564-575 | whether the four types ending here are the same |
| `Variety.FindLongRun` | services/api/internal/engine/content_selector.go:555-562 | whether there is a run of four anywhere |
| `Variety.LongRunIsFourAlike` | services/api/internal/engine/content_selector.go:555-575 | a long run is four alike in a row |
| `Variety.SameTypeIff` | services/api/internal/engine/content_selector.go:577-582 | when two selections are of one type |
| `SkillChoice.PickDue` | services/api/internal/engine/session.go:66-85 | the first due skills that may be reviewed, in order, as many as the review share holds; locked ones only if practised before |
| `SkillChoice.PickWeak` | services/api/internal/engine/session.go:92-105 | the first unlocked weak skills not picked yet, in order, as many as the review share has left |
| `SkillChoice.PickNew` | services/api/internal/engine/session.go:108-125 | the first unlocked skills that are new or barely practised and not picked yet, in order, as many as the rest holds |
| `SkillChoice.PicksAreWanted` | services/api/internal/engine/session.go:66-125 | every pick of a phase is one of its rows, wanted by it, not taken before, with the priority the phase gives |
| `SkillChoice.PicksCover` | services/api/internal/engine/session.go:66-125 | every wanted row in the part of the list gone through is picked or was taken before |
| `SkillChoice.PicksAreDistinct` | services/api/internal/engine/session.go:66-125 | a phase picks no skill twice |
| `SkillChoice.ShortPhaseTakesAll` | services/api/internal/engine/session.go:66-125 | a phase with room left has taken every wanted skill of its whole list |
| `SkillChoice.ChoiceIsDistinct` | services/api/internal/engine/session.go:53-126 | no skill is chosen twice when the due ones are distinct |
| `SkillChoice.SelectSkills` | services/api/internal/engine/session.go:53-138 | each phase takes the first rows it may of its list within its share; the result is their choice by falling priority, at most the maximum, nothing cut that ranks above what stays, and nothing cut at all when the ratio is between 0 and 1 |
| `SkillChoice.CutToTop` | services/api/internal/engine/session.go:127-135 | by falling priority, cut at the maximum, and what is cut ranks no higher than what stays |
| `SkillChoice.SharesFit` | services/api/internal/engine/session.go:60-61 | with a ratio between 0 and 1 the shares add up to the maximum |
| `SkillChoice.SharesAreKept` | services/api/internal/engine/session.go:60-125 | reviews take the ratio of the maximum, rounded up, unless every wanted due and weak skill is among less; new skills take the rest, unless every wanted one is among less |
| `SkillChoice.PicksRank` | services/api/internal/engine/session.go:66-125 | up to which confidence a due, locked, fossilised or weak skill ranks with a new one, and a due with a weak one; which picks are reviews |
| `SkillChoice.WantsIff` | services/api/internal/engine/session.go:66-125 | which rows each phase wants, by prerequisites and attempts |
| `SkillChoice.LockedOnlyAgain` | services/api/internal/engine/session.go:73-79 | a locked skill is only ever picked as a due review of a skill practised before |
| `SkillChoice.AssignRoles` | services/api/internal/engine/session.go:142-182 | the roles follow the arc, for every count |
| `SkillChoice.ArcsAre` | services/api/internal/engine/session.go:142-182 | the stretches of the arc for every number of items |
| `SkillChoice.DocumentedArcIff` | services/api/internal/engine/session.go:140-141 | the arc has the documented numbers of core and challenge items if and only if there are eight to ten items |
| `Placement.DeterminePlacementLevel` | services/api/internal/engine/session.go:304-334 | the highest tested level that is passed with 70% together with every tested level below it, or the lowest level |
| `Placement.OneLevelTest` | services/api/internal/engine/session.go:304-334 | a test at one level places there exactly from seven right answers in ten on, and at the lowest level otherwise |
| `Placement.Tally` | services/api/internal/engine/session.go:305-313 | the counts of answers and of correct answers per level |
| `Placement.PlacementIgnoresOrder` | services/api/internal/engine/session.go:308-313 | the placement does not depend on the order of the answers |
| `Placement.PlacementIsMonotone` | services/api/internal/engine/session.go:315-331 | changing a wrong answer to a right one never lowers the placement |
| `Fsrs.GradeFromResult` | services/api/internal/engine/fsrs.go:40-55 | 1 for a wrong answer; for a right one 4, less half a point for each hint level used and for a slow answer, but at least 2: a pass if and only if the answer is right |
| `Fsrs.SkillState.UpdateSkillState` | services/api/internal/engine/fsrs.go:91-194 | the field assignments, step by step, give the state the model describes |
| `Fsrs.SkillState.Recalled` | services/api/internal/engine/fsrs.go:125-150 | the pass branch: streak, stability, confidence and status |
| `Fsrs.SkillState.Lapsed` | services/api/internal/engine/fsrs.go:151-166 | the lapse branch: streak to zero, stability cut but not below its floor, status by lapses and errors |
| `Fsrs.SkillState.Schedule` | services/api/internal/engine/fsrs.go:168-181 | the next review is at once after a lapse or a fossilised error, and otherwise in whole hours of the interval, halved for avoidance |
| `Fsrs.SkillState.CountReview` | services/api/internal/engine/fsrs.go:183-193 | the counters and the list of error types |
| `Fsrs.RunInv` | services/api/internal/engine/fsrs.go:91-194 | after any graded reviews of a new skill: stability in [0.4, 365], difficulty and confidence in [0, 1], reviews, lapses and streak as in the history, new exactly when unreviewed, mastered only after five passes in a row, fossilised only after eleven lapses, error types exactly those of the lapses, once each and in the order in which they came up |
| `Fsrs.ReviewKeepsErrors` | services/api/internal/engine/fsrs.go:183-193 | one review keeps the error types so |
| `Fsrs.RunEndsInLapse` | services/api/internal/engine/fsrs.go:151-166 | after any graded reviews that end in a lapse the skill is fossilised from the eleventh lapse on, and relearned before |
| `Fsrs.FirstReview` | services/api/internal/engine/fsrs.go:91-194 | the numbers after the first review, for each grade: stability, difficulty, confidence, hours to the next, status |
| `Fsrs.ConfidenceIsRecall` | services/api/internal/engine/fsrs.go:82-89 | recall is the curve at the days since the last review in units of stability, and confidence is recall by grade |
| `Fsrs.DifficultyInHundredths` | services/api/internal/engine/fsrs.go:114-119 | what a grade and each kind of error move difficulty by |
| `Fsrs.LapseCutsStability` | services/api/internal/engine/fsrs.go:151-159 | a lapse leaves two fifths of the stability, a fossilised error three tenths, and no less than 0.4 days |
| `Fsrs.SkillsStartUnknown` | services/api/internal/engine/fsrs.go:59-77 | a skill starts without confidence and reviews, and due |
| `Fsrs.ResultsAreGraded` | services/api/internal/engine/fsrs.go:40-55 | every grade a result can earn is one the runs are about |
| `Fsrs.AvoidanceKeepsConfidence` | services/api/internal/engine/fsrs.go:126-140 | a pass that avoids the structure leaves confidence as it was |
| `Fsrs.ForgettingGains` | services/api/internal/engine/fsrs.go:213-218 | what is forgotten adds up to one and a half times to the growth of stability |
| `Fsrs.AvoidanceHalvesGain` | services/api/internal/engine/fsrs.go:126-140 | avoiding the structure halves the gain |
| `Fsrs.StatusAfterLapse` | services/api/internal/engine/fsrs.go:161-166 | a lapse fossilises from the fifth lapse and eleventh error on |
| `Fsrs.StatusAfterPass` | services/api/internal/engine/fsrs.go:125-150 | which status a pass leads to, by confidence, streak and avoidance |
| `Fsrs.ReviewKeepsInv` | services/api/internal/engine/fsrs.go:91-194 | one review keeps all of that |
| `Fsrs.StabilityStaysInRange` | services/api/internal/engine/fsrs.go:121-159 | a pass never lowers stability and a lapse never raises it, inside the range |
| `Fsrs.HigherPassIsNoWorse` | services/api/internal/engine/fsrs.go:125-181 | from one state a higher passing grade never gives lower stability, lower confidence or an earlier review |
| `Fsrs.LaterPassIsNoWorse` | services/api/internal/engine/fsrs.go:125-181 | passing later, with more forgotten, never gives lower stability or an earlier next review |
| `Fsrs.AvoidanceIsDueEarlier` | services/api/internal/engine/fsrs.go:172-176 | a pass that avoids the structure is due strictly before a plain pass with the same grade |
| `Fsrs.PassRaisesStabilityIff` | services/api/internal/engine/fsrs.go:139-140 | a pass raises stability strictly unless it is capped, or is the lowest pass of a skill of full difficulty with full recall |
| `Fsrs.EightLapsesReachTheFloor` | services/api/internal/engine/fsrs.go:151-159 | any eight lapses in a row bring stability to exactly 0.4 |
| `Fsrs.PlainLapsesFromTheCap` | services/api/internal/engine/fsrs.go:158 | seven do not suffice |
| `Fsrs.ZeroStabilityRecoversOnlyByLapse` | services/api/internal/store/skill.go:184-195 | from a row initialised with stability zero, after any graded history: in [0.4, 365] if the history has a lapse, and still zero otherwise |
| `EditDistance.LevenshteinDistance` | services/ml/src/error_classifier/classifier.py:446-464 | the two-row loop with its length swap computes the recursive edit distance |
| `EditDistance.LevZeroIffEqual` | services/ml/src/error_classifier/classifier.py:446-464 | the distance is zero exactly on equal strings |
| `EditDistance.LevSymmetric` | services/ml/src/error_classifier/classifier.py:448-449 | the distance is symmetric, so swapping the arguments is sound |
| `EditDistance.LevTriangle` | services/ml/src/error_classifier/classifier.py:446-464 | the triangle inequality |
| `EditDistance.LevBoundsEveryChain` | services/ml/src/error_classifier/classifier.py:446-464 | no chain of single-character edits is shorter than the distance |
| `EditDistance.ChainOfLevExists` | services/ml/src/error_classifier/classifier.py:446-464 | some chain of single-character edits has exactly that length |
| `EditDistance.DistanceOneLongerIsDeletion` | services/ml/src/error_classifier/classifier.py:246-249 | at distance one and one character longer, deleting one character gives the other string |
| `Spelling.FindExtraCharacter` | services/ml/src/error_classifier/classifier.py:247-249 | the deletion loop always finds the first position that works |
| `Spelling.CheckSpelling` | services/ml/src/error_classifier/classifier.py:212-262 | a verdict exactly for words one edit away, or two from five characters on, whose last two characters agree or that have one character too many; with the kept ending and the distance, or the extra character and its place |
| `Spelling.WrongEndingIsNoTypo` | services/ml/src/error_classifier/classifier.py:228-249 | words that differ in one of their last two characters get a verdict only as one extra character |
| `Spelling.EarlyDeletionKeepsEnding` | services/ml/src/error_classifier/classifier.py:245-249 | an extra character before the last two leaves the ending as it was, so the second reason is only given for one of the last two |
| `Spelling.SpellingErrorIsFewEdits` | services/ml/src/error_classifier/classifier.py:216-226 | a spelling verdict means one or two single-character edits, and one only where the word has at most four characters |
| `Spelling.ClassifyError` | services/ml/src/error_classifier/classifier.py:119-173 | which of the first stages gives the verdict, in their order |
| `Spelling.CountSameError` | services/ml/src/error_classifier/classifier.py:441-443 | the multiplicity of the response in the history |
| `Spelling.StripRemovesSpaces` | services/ml/src/error_classifier/classifier.py:120 | stripping takes spaces off both ends, and all of them |
| `Spelling.SpacesAre` | services/ml/src/error_classifier/classifier.py:120 | which characters count as spaces |
| `Spelling.AlphabetsAre` | services/ml/src/error_classifier/classifier.py:61-75 | which characters count as Cyrillic and as Latin |
| `Spelling.MixesIff` | services/ml/src/error_classifier/classifier.py:176-186 | a response mixes scripts if and only if it has letters of both |
| `RateLimiter.RateLimiter.RateLimit` | services/api/internal/middleware/ratelimit.go:56-97 | the windows map and the response of the request |
| `RateLimiter.AtMostTwiceTheLimit` | services/api/internal/middleware/ratelimit.go:71-94 | for a user of fixed limit, any closed interval as long as the window holds at most 2 * limit - 1 accepted requests, over any history |
| `RateLimiter.TwiceTheLimitLessOneOccurs` | services/api/internal/middleware/ratelimit.go:71-94 | and some history reaches that number |
| `RateLimiter.RetryAfterIsLeastWait` | services/api/internal/middleware/ratelimit.go:83-88 | waiting k whole seconds lands in a fresh window if and only if k is at least the advertised number |
| `RateLimiter.FreshWindowAccepts` | services/api/internal/middleware/ratelimit.go:74-86 | in a fresh window the next request is accepted if the tier allows any |
| `RateLimiter.NthIsAcceptedIff` | services/api/internal/middleware/ratelimit.go:64-86 | within the window it opened, a user's n-th request is accepted if and only if the allowance of its tier covers n, whatever others do; premium and institutional share the larger allowance |
| `RateLimiter.AnonymousLeavesNoTrace` | services/api/internal/middleware/ratelimit.go:57-62 | requests without a user are let through and change nothing |
| `Lockout.LockoutManager.RecordFailedAttempt` | services/api/internal/auth/auth.go:234-258 | the new account entry, and 429 when locked or locking, 401 otherwise |
| `Lockout.LockoutManager.CheckLockout` | services/api/internal/auth/auth.go:283-295 | 429 exactly while locked |
| `Lockout.LockoutManager.ResetAttempts` | services/api/internal/auth/auth.go:298-302 | the account is forgotten |
| `Lockout.CountedAreSpaced` | services/api/internal/auth/auth.go:244-255 | the entry counts exactly the failures outside locks, and from the fifth on each is a lockout after the one before |
| `Lockout.FailuresTakeTime` | services/api/internal/auth/auth.go:205-258 | without a reset, n >= 5 counted failures span at least (n - 5) lockouts from the fifth to the last |
| `Lockout.LockedFailureIsIgnored` | services/api/internal/auth/auth.go:244-247 | a failure during a lock neither counts nor extends it, whatever follows |
| `Lockout.LockHolds` | services/api/internal/auth/auth.go:251-255 | the fifth counted failure and each later one locks the account for the whole lockout, whatever failures and checks follow; for exactly that long if nothing does |
| `Lockout.FourFailuresDoNotLock` | services/api/internal/auth/auth.go:244-255 | without a reset, an account is locked only after five counted failures |
| `Lockout.ResetForgets` | services/api/internal/auth/auth.go:298-302 | after a reset the account stands, whatever follows, as if nothing had been before |

## Left out

- Consumer groups, transactions and locks: a group's offsets are a field of the broker and not an object of their own, and each broker method is one step, except consume, whose three locked steps are interleaved in `ConsumerProtocol`, and publish, whose check and append are in `PublishProtocol`. In the same way `DualWriteProtocol` interleaves the writes of updates and initialisations; the edges, which are made after these, are not part of it.
- Subscriber channels, record timestamps, query plans and update times: lossy or wall-clock effects that no property rests on.
- Re-creating a topic gives a broker with old partitions unreachable; offsets of groups, which are kept per partition number and not per topic, then point into the new logs. The run theorems are about one topic per group.
- Publishing to a topic without partitions and electing for a partition that does not exist: the code panics there, the methods here require otherwise.
- Rows have the fields the properties use; the JSON content, levels and timestamps of users, profiles, sessions and results are left out, as are content queries, which are plain filters.
- DualWriteService: the update time written to the graph node is left out.
- CitusCluster.CitusCluster.TotalUsers: the coefficient of variation of the shard sizes, which uses the square root, is left out.
- WithTolerance: the code multiplies by the floating-point number nearest to 1.15 and truncates, which for some budgets gives one second less than the exact 115% here.
- Spelling.ClassifyError: the checks for avoidance, transfer and overgeneralisation are tables of patterns; which of them speaks is a parameter.
- Placement, grading and the scheduler round nothing; a grade or an interval on the very edge could fall on the other side in floating point.
- ContentSelector.Selector.PickContent: the two fallback searches after the scoring loop are left out, because every unused candidate scores at least zero and is found by the loop.
- ContentPool.EstimateItemCount: the guard against an average of zero is left out, because every item counts at least one second.
- The random choice of content for a single skill, the experience points, the statistics and the CEFR filters: no state and little to prove.
- Sessions built without composition (`BuildSession`) use that random choice.
- HTTP routing, JSON, passwords, tokens and OAuth, the database-backed stores, the clients and the development server are not modelled.
