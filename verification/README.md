# A verified model of the MDRJ-DAG consensus and replication core

MDRJ-DAG is a peer-to-peer event registry. Every node appends events to a shared directed acyclic graph, spreads
copies by gossip, and recomputes a hashgraph-style consensus over its whole store: rounds, witnesses, virtual votes on
which witnesses are famous, the round in which each event counts as received, a median timestamp, and a total order.
This project models that engine together with the machinery that feeds it, and proves what the two promise each other.

How the pieces fit:

* `Dag`, `Rounds`, `Voting`, `FameSafety`, `Received`, `Timestamps`, `Ordering` define the consensus of a history as
  mathematics and hold the theorems about growing histories. `Digest`, with `Layers`, says exactly when the prefix that
  the consistency digest compares is final; `MarginExample` and `MarginRun` show a run in which it is not. A *view* is an
  ancestor-closed, fork-free, acyclic history. The membership is a fixed set; `n` is its size and `Threshold(n)` is
  `2n/3 + 1`.
* `Visibility`, `Assignment`, `Counting`, `Engine` are the loops of the engine. `ConsensusEngine.Recompute` is proved to
  return exactly the state list those definitions prescribe for every topological order of a view; on every acyclic
  store its received rounds follow from its own witness states and respect ancestry.
* `VectorClocks`, `Toposort`, `Storage` are the clock, Kahn's algorithm and the event store. `created_at` is the position
  of a row in the insertion log; the tables are maps, sets and sequences that the methods reassign.
* `Replicas` are the steps one node takes, `Nodes` the object whose methods carry them out, `Cluster` the runs of many
  nodes, and `ClusterTheorems` what every run guarantees. An event id is a function of the event's content, with no
  injectivity assumed: the run theorems say "the invariant holds, or two contents hashed in this run share an id".
  `Scripts` stages runs from schedules of two-parent emissions.
* `Frontiers` is anti-entropy between two stores, `Prioritization` and `Gossip` the batch planner and queue,
  `Checkpoints`, `Merkle`, `Schemes` and `CheckpointAgreement` the checkpoint records, their root, digests without
  clashes, and what settled replicas sign.

Where the code and its documentation part ways the model follows the code. A comment (mdrj/node.py:2130-2135) treats a
margin of two rounds below the newest received round as final. It is not: in the run of `MarginRun.MarginNotFinal` four
nodes and seventeen events move an event out of that prefix, because a coin decision flips. `Digest.PrefixFinalIff`
gives the exact condition, which the stored fame columns and ancestry decide: whatever the round-r witnesses that are
famous by vote or decided by coin would receive, those famous by vote alone receive by round r. There the coin's answers
in rounds the view has not reached count as open, since they hash round numbers not used before. `Received.Finality` is
stated for views in which every witness up to the round is decided by vote. Two tests disagree on whether a witness left
open after two voting rounds is settled by the coin; the code settles it (mdrj/consensus.py:399-407), and so does the
model.

Node names, event ids and payloads are natural numbers that are only compared. Timestamps are reals. The network, the
clock, `random.choice` and `random.sample` appear as parameters or as arbitrary choices.

## Model

| member | source | states |
|---|---|---|
| Quorum.QuorumsMeet | mdrj/consensus.py:215-216 | two supermajorities of one membership share at least 2t-n members, hence one |
| Quorum.MinorityOutside | mdrj/consensus.py:215-216 | nothing disjoint from a supermajority is a supermajority |
| Rounds.RoundMonotone | mdrj/consensus.py:56-68 | an ancestor's round is never above its descendant's |
| Rounds.QuorumBelow | mdrj/consensus.py:63-67 | every event of round r+1 has round-r witnesses of at least t members in its past |
| Rounds.SharedWitnesses | mdrj/consensus.py:63-77 | two events of round r+1 share the very same round-r witnesses of at least 2t-n members |
| Rounds.LowerRounds | mdrj/consensus.py:59-68 | rounds in use are contiguous from 0: below an event of round r lies a member witness of every lower round |
| Rounds.WitnessUnique | mdrj/consensus.py:69-74 | a fork-free history has at most one witness per creator and round |
| Rounds.WitnessBelow | mdrj/consensus.py:69-74 | an event sees a witness of its own creator in its own round |
| Rounds.RoundStable | mdrj/consensus.py:56-68 | adding events never changes the round of a present event; rounds are a function of the history |
| Rounds.RoundsUnique | mdrj/consensus.py:56-68 | the promotion rule has exactly one solution on an ancestor-closed history |
| Rounds.WitnessStable | mdrj/consensus.py:69-76 | adding events never changes who is a witness |
| Visibility.AncestorCache.AncestorIds | mdrj/consensus.py:218-236 | the memoised search returns exactly the ancestors and keeps the cache truthful |
| Visibility.AncestorCache.SeesSupermajority | mdrj/consensus.py:246-259 | true exactly when the visible witnesses' member creators reach the threshold |
| Assignment.AssignRounds | mdrj/consensus.py:56-77 | the pass yields the rounds, witness flags and witness table of the history, whatever the topological order; in any acyclic store exactly one event per creator and round in use is the witness, the one listed |
| Voting.NoOppositeVote | mdrj/consensus.py:318-345 | once t votes agree in one round, no later witness casts the opposite vote |
| Voting.NotBothWays | mdrj/consensus.py:374-398 | no vote history holds supermajorities for both answers |
| Voting.VoteMeaning | mdrj/consensus.py:374-398 | kind "vote" with value b holds exactly when some round of the history carries t votes for b |
| Voting.LaterVotes | mdrj/consensus.py:318-345 | a later witness votes Yes exactly when the round-before witnesses it sees cast t Yes votes, No exactly on t No votes |
| Counting.CollectVotes | mdrj/consensus.py:309-351 | every member witness of a later round votes, and nobody else: in the round after the witness's own it says whether it sees the witness, from then on Yes or No exactly on hearing t votes for that answer in the round before, otherwise neither |
| Counting.ResolveFame | mdrj/consensus.py:356-408 | the fame record, field by field: by vote in the first round with t equal votes, else by coin in the last round once two rounds voted, else pending; tallies of the last round looked at |
| FameSafety.HistoryGrows | mdrj/consensus.py:309-351 | in a larger view every recorded ballot is still there, unchanged |
| FameSafety.Unanimity | mdrj/consensus.py:339-344 | when every member witness of a round answers alike, every member witness of the next round answers the same |
| FameSafety.FameSafe | mdrj/consensus.py:374-398 | a fame value decided by vote is decided by vote with the same value in every larger view |
| FameSafety.FameAgreement | mdrj/consensus.py:374-398 | two replicas never vote-decide one witness differently |
| FameSafety.LateWitnessLoses | mdrj/consensus.py:307-317 | a round-r witness outside a view that reached round r+2 is voted not famous, in round r+1, everywhere |
| FameSafety.QuorumOfWitnesses | mdrj/consensus.py:63-77 | a view that reached round r+1 lists round-r witnesses of at least t members |
| FameSafety.DecisionLag | mdrj/consensus.py:399-407 | a witness at least three rounds below the top is decided |
| Engine.ConsensusEngine.NormalizeMembership | mdrj/consensus.py:202-213 | each named member once, the local node included, blanks dropped |
| Engine.ConsensusEngine.FindRoundReceived | mdrj/consensus.py:261-287 | the first round whose listed witnesses are all decided and the famous ones of t members see the event, or none decided and those of t members see it; a round with some decided only is passed over |
| Engine.ConsensusEngine.ConsensusTimestamp | mdrj/consensus.py:429-446 | none below t observing members; else the middle of their earliest times, halfway between the middle two when their number is even; however the hops are ordered or repeated |
| Engine.ConsensusEngine.TotalOrder | mdrj/consensus.py:162-177 | a permutation in which received events come first, earlier rounds first, in one round earlier timestamps first and missing ones last, and smaller ids first when all else ties |
| Engine.ConsensusEngine.Recompute | mdrj/consensus.py:46-160 | on every acyclic input: each event once, in consensus order; received in exactly the first round whose witness states take it in, never while some of them are decided and some not; a timestamp exactly when received and observed by t members; present ancestors received no later; on a topological order nothing received below its round; for a view exactly the prescribed states |
| Received.CausalCut | mdrj/consensus.py:271-287 | in any acyclic store, whatever witnesses the scan consults, a present ancestor of a received event is received no later |
| Received.ReceivedNotBeforeRound | mdrj/consensus.py:271-287 | in any acyclic store whose rounds do not fall along present parents no event is received below its own round |
| Received.ReceiptRule | mdrj/consensus.py:271-287 | a round takes an event in exactly when its witnesses are all decided and famous ones of t members see it, or none is decided and those of t members see it |
| Ordering.ScanExplained | mdrj/consensus.py:261-287 | the scan over the tables gives the first round that takes the event in according to the published witness states |
| Ordering.CutClosed | mdrj/node.py:1790-1792 | the stored events received up to a target round contain all their present ancestors, in any acyclic store |
| Ordering.CutEntered | mdrj/node.py:1790-1792 | an event enters that cut at the round in which it was received, not before; an unreceived one never |
| Received.Finality | mdrj/consensus.py:261-287 | a view settled at r0 and every larger view receive the same events up to r0 in the same rounds |
| Received.Agreement | mdrj/consensus.py:261-287 | two settled views of one history receive the same events up to r0 in the same rounds |
| Digest.PrefixFinalIff | mdrj/node.py:2130-2148 | the digest's prefix survives every larger view and every later coin toss if and only if no receipt up to the cutoff hangs on a coin |
| Digest.DigestFinal | mdrj/node.py:2137-2148 | in particular where every witness up to the cutoff is decided by vote |
| Digest.ReceiptBetween | mdrj/consensus.py:261-287 | every larger view receives what the vote-famous witnesses suffice for and nothing beyond what the coin-decided ones could add |
| Digest.OpenFrom | mdrj/consensus.py:318-345 | once a round carries no supermajority on a witness no later round does |
| Digest.TossedAgain | mdrj/consensus.py:399-407 | every coin decision below the cutoff is tossed anew in some larger view |
| Layers.CrownExists | mdrj/consensus.py:56-77 | every view has a larger one that adds a round and gives no earlier round a new voter |
| Scripts.PlayRun | mdrj/node.py:807-930 | any schedule of fewer than 256 events of four nodes, each on top of its creator's latest and another node's event, is staged by a collision-free run |
| MarginRun.MarginNotFinal | mdrj/node.py:2130-2148 | a run in which a node's digest covers an event right before an emission that the node no longer receives by that round right after |
| Timestamps.MedianSplits | mdrj/utils.py:59-66 | at least half of the values lie on either side of the median |
| Timestamps.KthUnique | mdrj/utils.py:59-66 | there is only one k-th smallest value, so the middle is determined |
| Timestamps.MedianMiddle | mdrj/utils.py:59-66 | of an odd number of values the median is the middle one, of an even number halfway between the two middle ones |
| Timestamps.TimestampMeaning | mdrj/consensus.py:429-446 | a timestamp exists exactly from t observing members on, and is the middle of their earliest times |
| Timestamps.TimestampComputed | mdrj/consensus.py:429-446 | any listing of the members' earliest times yields the same timestamp |
| Timestamps.TimestampRobust | mdrj/consensus.py:429-446 | with fewer than n/3 arbitrary reporters an honest time lies on either side of the timestamp |
| Ordering.OrderUnique | mdrj/consensus.py:162-177 | a view has one consensus order |
| Ordering.SortedChronological | mdrj/consensus.py:162-177 | sorted keys run by received round, then timestamp, then id, upwards, with missing values last |
| Ordering.OutcomeUnique | mdrj/consensus.py:46-160 | the state list depends on events, membership and observations alone, not on the topological order |
| Ordering.OutcomeDescribed | mdrj/consensus.py:120-160 | every state of a view's outcome has the event's round and witness flag; witnesses have the fame the votes give, other events none |
| Ordering.SamePrefix | mdrj/consensus.py:162-177 | settled replicas whose final observations agree open their total orders identically |
| VectorClocks.Merge | mdrj/vectorclock.py:28-32 | the merge loop yields the least upper bound of two clocks |
| VectorClocks.Compare | mdrj/vectorclock.py:34-51 | the four answers are exactly the cases of the pointwise order |
| VectorClocks.MergeAll | mdrj/vectorclock.py:74-78 | the least upper bound of a list of clocks |
| VectorClocks.LamportRespectsOrder | mdrj/vectorclock.py:63-72 | a clock strictly before another has a strictly smaller total |
| VectorClocks.CompareLamport | mdrj/vectorclock.py:63-72 | the comparison of totals, consistent with the happened-before order |
| Toposort.Sorted | mdrj/storage.py:468-489 | each stored event once, after its stored parents; fails exactly when stored events form a directed cycle |
| Toposort.StuckCycle | mdrj/storage.py:487-488 | events that all wait for each other contain a directed cycle |
| Storage.DagStorage.MergePathMeta | mdrj/storage.py:286-306 | merges a path into the stored one, old hops first, each (node, ts) pair once |
| Storage.MergedPathMeaning | mdrj/storage.py:286-306 | the merged path holds exactly the old and the new (node, ts) pairs, each once |
| Storage.MergedPathOrder | mdrj/storage.py:286-306 | a stored path without repetitions stays in front, the new hops follow in the order reported |
| Storage.DagStorage.StoreEnvelope | mdrj/storage.py:308-340 | inserts once with its edges; a repeat only adds observations and fills a missing timestamp |
| Storage.DagStorage.ReplaceConsensusState | mdrj/storage.py:342-388 | the last state given for a stored event is written; events, edges and paths stay |
| Storage.LastForMeaning | mdrj/storage.py:342-388 | what is written for an event is the state after which no other names it |
| Storage.DagStorage.LatestEventBySource | mdrj/storage.py:397-405 | the newest row of a source |
| Storage.DagStorage.ListRecentEvents | mdrj/storage.py:407-413 | the newest rows, newest first, at most the limit |
| Storage.DeliverHolds | mdrj/storage.py:286-340 | after any deliveries the store holds exactly the delivered events, edges and observations |
| Storage.Convergence | mdrj/storage.py:286-340 | two delivery sequences with the same envelopes leave the same events, edges and observations |
| Storage.ReplicasAgree | mdrj/storage.py:468-489 | and recomputing consensus on both stores returns the same states in the same order |
| Storage.LinearSound | mdrj/node.py:723-724 | a toposort result arranged by id is an input on which the engine gives its full guarantee |
| Nodes.Node.Bootstrap | mdrj/node.py:1066-1116 | a genesis on an empty store or when forced: class C, no parents, an empty clock, observed and final at its time, and the only anchor; otherwise only the anchors are read back |
| Nodes.Node.EmitEvent | mdrj/node.py:807-850 | emits on top of the own latest event, a recent foreign one and anchors, with the merged and incremented clock; the consensus columns are those of the enlarged store |
| Replicas.EmissionMeaning | mdrj/node.py:807-850 | an emitted event is the node's own with the fields asked for; at most two distinct parents, the own latest event first, then the one picked, then anchors in order with none passed over; its clock is after all clocks merged, each entry taken from one of them, the own one up by one |
| Replicas.EmittedMeaning | mdrj/node.py:847-850 | the event is stored with the emitter's own observation and its clock becomes the node's |
| Replicas.PickMeaning | mdrj/node.py:814-821 | the event picked is any other node's among the newest 256 rows; none is picked only when there is none |
| Replicas.AnchorsMeaning | mdrj/node.py:1005-1020 | the anchors are the genesis events among the twenty oldest rows, in order; without one the oldest row; of an empty store none |
| Nodes.Node.IngestEnvelopes | mdrj/node.py:915-930 | the batch stored in order with the sender's timestamps, the new ids reported, and columns recomputed for the enlarged store when anything was new |
| Nodes.NewIdsMeaning | mdrj/node.py:915-924 | the reported ids are those of the batch not stored before, once each, in order of arrival |
| Nodes.IngestedRows | mdrj/node.py:894-924 | a batch appends its new events as rows in order of arrival and changes no stored event |
| Nodes.IngestedClock | mdrj/node.py:905-913 | and lifts the clock to the least one that covers the batch |
| Nodes.Node.RecomputeConsensus | mdrj/node.py:690-759 | every stored event gets columns that respect ancestry, over a view those of its state; raises exactly on a cycle |
| Cluster.RunGood | mdrj/node.py:807-930 | cluster invariant at every moment of every run of boots, emissions, deliveries and restarts, or an id collision |
| Cluster.EmitGood | mdrj/node.py:807-850 | an emission keeps the invariant: fresh id, next counter, chained to the own latest event |
| Cluster.ReceiveGood | mdrj/node.py:894-913 | a delivered copy, new or repeated, keeps the invariant and never extends the receiver's own chain |
| Cluster.RestartGood | mdrj/node.py:1066-1070 | a restart with an empty clock keeps the invariant |
| Cluster.BootGood | mdrj/node.py:1075-1116 | a first start keeps the invariant |
| Cluster.NewCounter | mdrj/node.py:829-834 | a new event's own counter is one more than the node's latest, even right after a restart |
| ClusterTheorems.RunView | mdrj/node.py:807-862 | at every moment of a collision-free run the history is acyclic, ancestor-closed and fork-free |
| ClusterTheorems.RunLatestIsTip | mdrj/storage.py:397-405 | at every moment a node holds all its own events and its latest row sees every one of them |
| ClusterTheorems.RunOwnCounters | mdrj/node.py:834-850 | at every moment a node's events after its genesis carry the counters 1, 2, 3 and so on, across restarts |
| ClusterTheorems.RunClockCondition | mdrj/models.py:105-105 | at every moment an ancestor's clock is strictly before, and its Lamport total below, its descendant's |
| ClusterTheorems.StoresAcyclic | mdrj/node.py:723-724 | every node's store is acyclic at every moment of a collision-free run, so no recomputation raises |
| ClusterTheorems.EmissionNeverRaises | mdrj/node.py:850-862 | the store an emission of a run leaves is acyclic, the case in which emitting does not raise |
| ClusterTheorems.HistoryGrowsAlong | mdrj/node.py:807-930 | without collisions the history only grows along a run |
| ClusterTheorems.ClosedStoreIsView | mdrj/node.py:894-913 | any ancestor-closed store of any node at any moment is a view |
| ClusterTheorems.ClusterAgreement | mdrj/consensus.py:261-287 | any two nodes at any two moments, once settled at r0, have received the same events up to r0 |
| ClusterTheorems.ClusterOrder | mdrj/consensus.py:162-177 | and open their total orders identically where their observations agree |
| Frontiers.HandleEventAncestry | mdrj/api.py:7469-7499 | no duplicates, nearest first, nothing left out that is nearer than a listed event, in any store; where acyclic, exactly min(cap, reachable) events and the whole local ancestry when below the cap |
| Frontiers.LocalFrontier | mdrj/node.py:1643-1656 | per creator the event with the latest local time, of several the one listed first |
| Frontiers.FrontierIsTip | mdrj/node.py:1643-1656 | with increasing local times the frontier entry sees every event of its creator |
| Frontiers.PullComplete | mdrj/node.py:1658-1692 | held or fully pulled frontier entries make the receiver an ancestor-closed superset of the peer |
| Frontiers.UnionAcyclic | mdrj/node.py:1684-1690 | agreeing ancestor-closed stores have an acyclic union, so the pull never makes the recomputation raise |
| Frontiers.FrontierSyncOnce | mdrj/node.py:1658-1692 | one sync step: what is missing and pushed, that exactly the replies to the answered requests are pulled, what the gossip engine then knows, and completeness when replies stay below the cap |
| Prioritization.PlanBatch | mdrj/prioritization.py:58-103 | class A before B before C, earlier local times first, ties in batch order; position by position dropped, deferred or accepted exactly as relay policy and byte cap say |
| Prioritization.DroppedExactly | mdrj/prioritization.py:77-102 | dropped is exactly a class C event, no genesis, that is neither required nor has a required parent, parents of envelopes accepted before it counting as required; the threat level never decides |
| Prioritization.CapMeaning | mdrj/prioritization.py:33-36 | the cap is the configured maximum or the bytes of one period, whichever is less, a period counting for at least 1024 bytes |
| Sorting.SortStable | mdrj/prioritization.py:66-75 | the batch is ordered stably: envelopes that tie in class and time keep their queue order |
| Prioritization.PlanPartitions | mdrj/prioritization.py:77-103 | accepted, deferred and dropped partition the batch |
| Prioritization.PlanWithinCap | mdrj/prioritization.py:76-101 | the accepted envelopes fit the byte cap |
| Prioritization.DeferredWouldNotFit | mdrj/prioritization.py:97-99 | no deferred envelope would still fit |
| Prioritization.OnlyPlainDropped | mdrj/prioritization.py:43-56 | only plain class C events that nothing required are dropped |
| Prioritization.LaterParentKept | mdrj/prioritization.py:102-102 | a parent of an accepted envelope that comes later in priority order is not dropped |
| Gossip.PlanKeeps | mdrj/gossip.py:105-110 | a tick relays, now or later, exactly what is durable, what a class A or B envelope of the batch brings along, and what an envelope accepted sooner makes room for; deferred is what did not fit next to the ones accepted sooner |
| Gossip.GossipEngine.AddPending | mdrj/gossip.py:57-61 | the queue stays duplicate-free and equal to the known set |
| Gossip.GossipEngine.CollectPending | mdrj/gossip.py:88-98 | drains the queue; stored ids come out once each, in queue order, as stored, with the sender's hop, timed when the id came off the queue, appended to their whole stored path |
| Gossip.GossipEngine.Tick | mdrj/gossip.py:100-130 | the collected batch, the plan made of it and what that plan keeps, the queue afterwards (the deferred part, then, when nobody took it, the accepted part, in order), the peers asked and the statistics |
| Gossip.NeverLost | mdrj/gossip.py:100-130 | over any run of ticks on a growing store a queued durable event stays queued until some peer has taken it |
| Checkpoints.CheckpointLedger.RecordProposal | mdrj/node.py:1828-1860 | the new record of the round, all others untouched, a confirmation never undone even under another membership, and the counter kept equal to the number of confirmed rounds |
| Checkpoints.LedgerMeaning | mdrj/node.py:1828-1860 | a round is pinned to the first root proposed; signers are those who proposed it, each with its last signature; confirmed exactly from two thirds of the members on, at the time of the last matching proposal, whose membership digest is kept |
| Checkpoints.LedgerGrows | mdrj/node.py:1828-1860 | a root never changes, signers are never lost, a confirmation is never undone |
| Checkpoints.ConflictNeedsThird | mdrj/checkpoint.py:112-119 | two ledgers confirming different roots name at least a third of the members as signers of both |
| Merkle.ComputeMerkleRoot | mdrj/checkpoint.py:76-97 | the digest of the leaf digests one after another, events without a received round first, then by round, in one round by id |
| Merkle.RootOfPermutation | mdrj/checkpoint.py:86-92 | the root does not depend on the order in which events with distinct ids are listed |
| Merkle.RootBinds | mdrj/checkpoint.py:63-97 | equal roots mean the same events in every hashed field, or two distinct hashed texts with one digest |
| Schemes.RootsTellApart | mdrj/checkpoint.py:63-97 | for any events with digests enough to go round some digest and encodings have no clash, and with them equal roots mean equal events |
| CheckpointAgreement.SameRoot | mdrj/node.py:1790-1826 | settled replicas whose final observations agree compute the same checkpoint root |

## Left out

- Engine.ConsensusEngine.Recompute: the full outcome is prescribed for topologically ordered views only; on stores with missing ancestors or forks rounds, witnesses and fame depend on what is present and in which order, and the contract says how received rounds, timestamps and the order follow from the witness states. It asks for distinct ids and no cycle, which a successful toposort provides; on a cycle the source's ancestor search would not return.
- Digest.PrefixFinalIff: the larger views it ranges over are all views; those that toss a coin again in its proof add events with more than two parents, which arrive by delivery but not from `emit_event`.
- Nodes.Node.EmitEvent: broadcasting, acknowledgement counting, metrics, notification and HMAC signing after the event is stored are not modelled.
- Nodes.Node.RecomputeConsensus: the debounced variant, which may postpone or merge recomputations, is not modelled.
- Storage.DagStorage.LatestEventBySource: rows are ordered by insertion; equal or backward wall-clock readings of `created_at` are not modelled.
- Storage.DagStorage.ListRecentEvents: likewise, insertion order stands for `created_at`.
- Cluster.RunGood: clearing events, pruning under a checkpoint and quota collection delete events and break the invariant, so they are not steps of a run.
- Frontiers.FrontierSyncOnce: the completeness clause asks for replies below the depth cap; a longer ancestry needs further sync steps.
- Gossip.GossipEngine.Tick: the HTTP transfer is a yes or no per peer.
- Checkpoints.CheckpointLedger.RecordProposal: signatures are not verified; the record is about signer names.
- Merkle.RootBinds: the canonical JSON encoding is any encoding that tells the compared events apart, and the digest any function with 64-character values.
- Event ids are an arbitrary function of an event's content; canonical JSON and SHA-256 themselves are not modelled.
- The deterministic coin is an arbitrary fixed function of witness and round; decisions by coin may change as rounds are added, as `MarginRun` shows for any coin that answers yes and then no.
- Stability of received rounds in rounds where no fame is decided: all witnesses are consulted there and the verdict may move.
- Separate self-parent and other-parent columns, `sig`, and the consensus columns an envelope may carry from its sender; the first are copies of the parents list and the last are overwritten by the next recomputation.
- Blank event ids and blank creators, which the store never produces; names that differ only by surrounding blanks.
- Thread races between the event loop and worker threads: each store operation and each emission is one step.
- Collectors, log parsing, notifier, discovery, configuration, metrics, users and sessions, and the web interface: input and output, or easy members.
