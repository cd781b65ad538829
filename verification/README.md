# Cyrene replication engine: a verified model

Cyrene keeps a local database on every device and replicates it between
devices, directly or through a store-and-forward relay. This project models its
replication engine and the layers that must agree with it, and proves what they
promise. `dafny verify dfyconfig.toml` checks all of it.

Each component comes as a value with pure transitions, about which the theorems
are proved (`...State`, `...Proof` and similar files), and, where the program
updates objects in place, as a class whose methods carry the program's loops
and branches and are tied to those transitions (`List`, `Clock`, `Replica`,
`Simulator`, `Store`, `App`, `Mailbox`, `Vault`, `User`).

| files | component | main results |
|---|---|---|
| ListState, Paths, ListWalk, ListOrder, ListEdits, ListSpread, List | replicated list and text | delivery and merging are set union; the depth-first walk lists exactly the reachable, undeleted elements in root-path order, on cyclic input too; order is stable; appends and deletions are exact, and the anchors say exactly where each character of a typed run ends up, and when it lands at its index |
| Clock, Changes, ReplicaState, Replica | replica state machine | winners, frontier, counter and clock are exact in every run; deliveries converge; catching up by frontier is complete |
| Gaps, Reconcile, ReconcileProof, ReconcileRules, AppPeer | paged two-party session, and applications as its parties | a session breaks exactly when a party reads a page it does not take; otherwise both stop together, both targets are covered, and rounds and turns are bounded, whatever is done meanwhile; receipts count what was exchanged and retained |
| SimulatorState, Simulator, Convergence | network of replicas | one content per identity in every run; a network of any size converges; a pair does if and only if nothing was under way to only one of the two |
| Keys, StoreState, StoreReceipts, Store, AppState, AppProof, AppRules, AppClock, App | durable tables and application | tables and replica refine one another through writes, imports, migrations, failures and restarts; for the log and for reopening, whatever the clock; exactly when each operation succeeds, what it leaves and what its receipt says |
| Materialize | merge-enabled documents | a document is the union of the surviving edits and depends only on the retained changes |
| Actors | operation identities | no identity is issued twice from one store unless an actor is copied |
| MailboxState, MailboxProof, MailboxRules, Mailbox | relay service | quotas, sequences, replay defence and paging; exactly which requests are answered, and what each changes |
| RelayPush, RelayDelivery, RelayTurns, RelayDrain | relay client | batching is complete and within bounds; nothing stored is lost; a pull that succeeds has taken everything, whatever others push meanwhile; what exactly stops it, and that undisturbed over welcome changes it succeeds |
| VaultState, VaultRules, Vault, Epochs, EpochRelay | key epochs of a shared space | epochs never go back, keys agree, omitted members stay out; an invitation admits one subject; whom a publication reaches, and exactly whom a relay refresh brings how far |
| UserEvents, UserChain, UserAuthority, User | user device chain | an identity is the replay of its history; every event was signed by a device linked before it; one head, one history, unless two events collide under the hash; imports accept exactly extensions |
| Wrappers, Ids, Sequences | shared notions | |

Where the code and its documentation disagree, the model follows the code:

- Text insertion is documented to place the string before the character at the
  index (`crates/cyrene-crdt/src/text.rs:34`). Siblings are ordered by
  ascending identity, so it can land later: `ListOrder.InsertionAtIndex` and
  `ListEdits.RunLandsExactly` say exactly when,
  `ListEdits.MidInsertCanBeOvertaken` gives an instance. A string inserted there
  may even come out in another order (`ListSpread.TypedOrderExactly`,
  `ListSpread.MidRunCanBeReversed`); `ListSpread.RunSpreads` says where each of
  its characters ends up.
- Reserved counters are documented as never reused
  (`crates/cyrene-store/src/lib.rs:924-926`). That holds of reservations; an
  `Actor` is a copyable value, and a copy repeats identities:
  `Actors.IssueRepeatsExactly`, `Actors.CopiesRepeat`.
- Adding a replica to the simulator is documented to replace no existing
  identity (`crates/cyrene-sync/src/simulator.rs:36`); it replaces it and then
  reports the error: `SimulatorState.RefusedAddKeepsExactly`.
- The number of objects a relay push reports as stored counts an id repeated
  within the batch each time: `MailboxProof.CountIsExactUnlessRepeated`,
  `MailboxProof.RepeatedPushIsOvercounted`.
- A relay nonce is forgotten too early for requests issued ahead of the relay's
  clock: `MailboxProof.RepeatsExactly`, `MailboxProof.PushAheadIsAcceptedTwice`.
- The logical part of the clock saturates, so a local write can lose to an
  older one: `ReplicaState.LocalWriteWins` and
  `AppProof.SingleWriteKeepsExactly` state exactly when,
  `AppClock.UnsaturatedTablesRefine` how a caller can rule it out.

The I/O the model abstracts from enters as parameters: wall-clock readings,
generated keys and nonces, the outcome of a database commit (`commits`), whether
the tables of a party in a session take a page (`stores`, which
`AppPeer.ImportsAsPeer` determines), what a
migration's transformation makes of each row (`payloads`, `outcomes`), and
whether an ignored SQLite insertion uses up a sequence (`burns`).

## Model

| member | source | states |
|---|---|---|
| ListState.ApplyAddsOperation | crates/cyrene-crdt/src/list.rs:297-328 | an application succeeds exactly for a valid operation whose identity is free or already holds that very operation; it then adds that operation to the retained set and nothing else, and reports a duplicate exactly when it was there |
| ListState.OpsDetermineState | crates/cyrene-crdt/src/list.rs:133-138 | a well-formed list is determined by its set of retained operations |
| ListState.FoldIsUnion | crates/cyrene-crdt/src/list.rs:287-328 | a delivery succeeds exactly when it is valid and collision-free, and its effect is set union, whatever its order and repetitions |
| ListState.DeliveryOrderIsIrrelevant | crates/cyrene-crdt/src/list.rs:287-328 | two deliveries of the same operations, in any order and with any duplication, fail together or reach the same state |
| ListState.SortedRetainedIsExact | crates/cyrene-crdt/src/list.rs:348-368 | the sorted export lists each retained operation exactly once, in identity order |
| ListState.FoldMerges | crates/cyrene-crdt/src/list.rs:330-346 | merging succeeds exactly for compatible lists, and the result retains exactly the union of both |
| ListState.MergeReportsFirst | crates/cyrene-crdt/src/list.rs:336-346 | a merge that fails reports the least identity under which the two lists hold different operations |
| ListState.MergeIsCommutative | crates/cyrene-crdt/src/list.rs:330-346 | both directions of a merge fail together or give the same list |
| ListState.MergeIsAssociative | crates/cyrene-crdt/src/list.rs:330-346 | both groupings of three merges fail together or give the same list |
| ListState.MergeIsIdempotent | crates/cyrene-crdt/src/list.rs:330-346 | merging the same list again, or a list with itself, changes nothing |
| Paths.PathUnique | crates/cyrene-crdt/src/list.rs:389-422 | the chain of anchors from the root down to an insertion is unique |
| Paths.ChildIsFresh | crates/cyrene-crdt/src/list.rs:412-415 | a child of the end of a root path is never already on it, even when other insertions anchor in a cycle |
| Paths.PathKept | crates/cyrene-crdt/src/list.rs:127-131 | later operations never change the root path of a retained insertion |
| ListWalk.WalkIsUnguarded | crates/cyrene-crdt/src/list.rs:402-422 | the walk with its re-entry guard, started at the root, lists exactly the ends of all root paths: the guard never fires there |
| ListWalk.PathsUnderExact | crates/cyrene-crdt/src/list.rs:402-422 | the enumeration below a path contains exactly the unhidden root paths that extend it |
| ListWalk.PathsUnderSorted | crates/cyrene-crdt/src/list.rs:389-422 | the enumeration is in lexicographic order of root paths |
| ListOrder.VisibleIdsExact | crates/cyrene-crdt/src/list.rs:389-422 | an identity is visible exactly when its anchor chain reaches the root and no retained deletion targets it; visible identities come in strict lexicographic order of root paths, hence without repetition |
| ListOrder.VisibleIdsUnique | crates/cyrene-crdt/src/list.rs:389-400 | that membership and that order leave only one possible visible sequence |
| ListOrder.OrderIsStable | crates/cyrene-crdt/src/list.rs:389-422 | if one state retains everything another does, elements visible in both stand in the same relative order |
| ListOrder.DeliveryKeepsOrder | crates/cyrene-crdt/src/list.rs:287-328 | so any delivery that succeeds keeps the relative order of what stays visible |
| ListOrder.InsertionAtIndex | crates/cyrene-crdt/src/list.rs:238-261 | an insertion under an unmentioned identity adds one element at or after the index and moves nothing else; it passes exactly the elements that hang off the same anchor through older siblings, and lands at the index if and only if the element there is not one of them |
| ListOrder.RemovalHides | crates/cyrene-crdt/src/list.rs:269-285 | a removal takes out exactly the element at the index |
| ListEdits.InsertAllExact | crates/cyrene-crdt/src/text.rs:44-56 | unless its first character is overtaken, a typed run lands as one block exactly at the index, in identities and in contents; when the reservation runs out, exactly the part that fit stays |
| ListEdits.RunLandsExactly | crates/cyrene-crdt/src/text.rs:34-56 | a typed run stands as one block at the index if and only if no older sibling of its first character stands there; otherwise the element at the index keeps its place |
| ListEdits.AppendConcatenates | crates/cyrene-crdt/src/text.rs:44-56 | inserting at the end concatenates the string |
| ListEdits.RemoveAllExact | crates/cyrene-crdt/src/text.rs:65-75 | deleting a range removes exactly that slice, or exactly the part of it that the remaining identities covered |
| ListEdits.DeletesExactly | crates/cyrene-crdt/src/text.rs:65-75 | a range is deleted, as far as identities last, exactly if all of it is visible; otherwise nothing is touched and no identity spent |
| ListEdits.TypesExactly | crates/cyrene-crdt/src/text.rs:44-56 | wherever a typed run lands, its characters are inserted under the next identities, as far as those last, and nothing else changes |
| ListEdits.InsertsExactly | crates/cyrene-crdt/src/list.rs:238-261 | an insertion within the list spends one identity and is made exactly unless that names another operation; one out of range spends nothing |
| ListEdits.RemovesExactly | crates/cyrene-crdt/src/list.rs:269-285 | the same of a removal |
| ListEdits.MidInsertCanBeOvertaken | crates/cyrene-crdt/src/text.rs:34-37 | counterexample to the documented placement: one author typing "ac" and then "b" between them gets "acb" |
| ListSpread.RunSpreads | crates/cyrene-crdt/src/text.rs:44-56 | where every character of a typed run stands: the anchors before the run decide how many of its first characters drift; those end up behind the others in reverse order, and the others stand as one block right behind the elements drifted past |
| ListSpread.TypedOrderExactly | crates/cyrene-crdt/src/text.rs:44-56 | the first two characters of a run come out in the order they were typed if and only if the first of them lands at the index |
| ListSpread.MidRunCanBeReversed | crates/cyrene-crdt/src/text.rs:34-56 | counterexample to the documented insertion of a string: one author typing "ac" and then "bd" between them gets "acdb" |
| List.WireRoundTrip | crates/cyrene-crdt/src/list.rs:152-193 | reading back the serialised rows of a list restores exactly that list |
| List.ChildrenIndex | crates/cyrene-crdt/src/list.rs:391-394 | the one-pass children index holds, under every parent, exactly its children in identity order |
| List.Visit | crates/cyrene-crdt/src/list.rs:402-422 | the recursive walk over shared collections terminates on every index, cyclic ones included, appends exactly the reference walk and restores the visiting set |
| List.Enter | crates/cyrene-crdt/src/list.rs:412-421 | one turn of the walk skips an element being visited, lists it unless hidden, and descends |
| List.Actor.Reserved | crates/cyrene-crdt/src/list.rs:49-61 | a reservation starting beyond its limit is refused, and no other |
| List.Actor.Next | crates/cyrene-crdt/src/list.rs:68-86 | an actor issues the next counter of its reservation until the reservation or the counters run out |
| List.List.Apply | crates/cyrene-crdt/src/list.rs:297-328 | the mutable list follows the transition; the retained set grows by exactly the operation, and a failure changes nothing |
| List.List.ApplyEach | crates/cyrene-crdt/src/list.rs:183-190 | operations are applied in order up to the first failure, and those before it stay applied |
| List.List.Operations | crates/cyrene-crdt/src/list.rs:349-368 | the returned operations are exactly the retained ones, in identity order |
| List.List.Merge | crates/cyrene-crdt/src/list.rs:336-346 | a merge gives the union when compatible; otherwise it reports the first conflict and leaves the list unchanged |
| List.List.FromWireForm | crates/cyrene-crdt/src/list.rs:177-192 | rows are accepted exactly when valid and collision-free, and the list then retains exactly them |
| List.List.Visible | crates/cyrene-crdt/src/list.rs:389-400 | the computed identities are exactly the visible ones in root-path order |
| List.List.InsertValue | crates/cyrene-crdt/src/list.rs:238-261 | insertion as a transition of list and actor together: refused exactly out of range, without identities or on a collision, and then the list is unchanged |
| List.List.Remove | crates/cyrene-crdt/src/list.rs:269-285 | removal as a transition of list and actor together, refused in the same cases |
| List.Text.Insert | crates/cyrene-crdt/src/text.rs:34-56 | the insertion loop inserts the characters in order under the next identities; beyond the end it is refused; under identities the text does not mention, the string stands exactly at the index if and only if no older sibling is in the way, and in any case every character stands where the anchors before the call say |
| List.Text.Delete | crates/cyrene-crdt/src/text.rs:65-75 | a range not fully visible is refused before anything changes; otherwise, under fresh identities, exactly that slice disappears, or the part of it that the identities covered |
| List.Text.Merge | crates/cyrene-crdt/src/text.rs:92-94 | text merges as the union of operations, or not at all |
| Clock.TickDominates | crates/cyrene-sync/src/clock.rs:34-42 | a local event is never earlier than the clock or the given instant, and strictly later than the clock exactly when the clock is not saturated with its physical time ahead |
| Clock.ObserveDominates | crates/cyrene-sync/src/clock.rs:45-58 | observing a timestamp leaves the clock at or beyond both, strictly beyond below saturation |
| Clock.TickIsLeast | crates/cyrene-sync/src/clock.rs:34-42 | a local event reads the greatest physical time known, restarts the logical part when that advances, and is otherwise the least reading after the clock |
| Clock.ObserveIsLeast | crates/cyrene-sync/src/clock.rs:45-58 | an observation reads the greatest of the three physical times and is the least reading after clock and timestamp |
| Clock.Clock.TickAt | crates/cyrene-sync/src/clock.rs:34-42 | the mutable clock: the stamp returned is the new clock reading, and dominates the old one |
| Clock.Clock.ObserveAt | crates/cyrene-sync/src/clock.rs:45-58 | the mutable clock ends at or beyond its old reading and the observed one |
| Changes.ReadingIsLargest | crates/cyrene-sync/src/frontier.rs:6-23 | a contiguous frontier reading is the largest n with changes 1 to n all present |
| Changes.FrontierUnique | crates/cyrene-sync/src/frontier.rs:6-35 | a set of change identities has one contiguous frontier, zero being represented by absence |
| Changes.FrontierGrows | crates/cyrene-sync/src/frontier.rs:6-35 | more retained changes never lower any reading |
| ReplicaState.AcceptableExactly | crates/cyrene-sync/src/replica.rs:226-272 | the ordered validation checks accept exactly the changes of the space with a valid author counter, timestamp, name, payload and registered schema |
| ReplicaState.AuthorsExactly | crates/cyrene-sync/src/replica.rs:104-125 | a change is authored exactly within bounds, under a registered schema, while counters last; it carries the next counter and the ticked clock |
| ReplicaState.FrontierAdvances | crates/cyrene-sync/src/replica.rs:314-326 | advancing one author past a new change keeps every reading the largest gap-free prefix |
| ReplicaState.RetainInv | crates/cyrene-sync/src/replica.rs:274-312 | retaining a new acceptable change keeps the replica invariant: each document is its greatest retained change, the frontier is exact, the next counter is the greatest own one, the clock is at least every retained timestamp |
| ReplicaState.AuthorInv | crates/cyrene-sync/src/replica.rs:104-125 | a locally authored change carries an identity never retained before, is retained, and keeps the invariant |
| ReplicaState.ReceiveExactly | crates/cyrene-sync/src/replica.rs:134-151 | a received change is accepted exactly when it is acceptable and does not collide |
| ReplicaState.ReceivesExactly | crates/cyrene-sync/src/replica.rs:134-151 | a change already held changes nothing; a new one is shown exactly if it is later than every retained change of its document |
| ReplicaState.ReceiveInv | crates/cyrene-sync/src/replica.rs:134-151 | an accepted change is added, or recognised as held, and the invariant is kept |
| ReplicaState.RunsKeepInv | crates/cyrene-sync/src/replica.rs:83-151 | every run of registrations, writes and deliveries in any order keeps the invariant |
| ReplicaState.ChangesDetermineView | crates/cyrene-sync/src/replica.rs:274-312 | documents, frontier and next counter are functions of the retained changes alone |
| ReplicaState.ImportIsUnion | crates/cyrene-sync/src/replica.rs:134-151 | a batch is applied exactly when every change is acceptable and nothing collides, and its effect is the union of logs |
| ReplicaState.ReorderedDeliveriesConverge | crates/cyrene-sync/src/replica.rs:134-151 | any reordering with duplication of the same changes, at any time, ends with the same changes, documents and frontier |
| ReplicaState.LocalWriteWins | crates/cyrene-sync/src/replica.rs:104-125 | a local write becomes the visible winner exactly when the saturated clock is not outranked by the standing winner |
| ReplicaState.AuthoredAfterRetained | crates/cyrene-sync/src/replica.rs:104-125 | an authored timestamp is at least every retained one, strictly greater below saturation: timestamps respect causality |
| ReplicaState.StuckWriteCanLose | crates/cyrene-sync/src/clock.rs:38-40 | a reachable replica whose saturated clock makes its own write lose |
| ReplicaState.MissingForExactly | crates/cyrene-sync/src/replica.rs:159-165 | the changes sent to a peer are exactly the retained ones beyond its frontier |
| ReplicaState.CatchUp | crates/cyrene-sync/src/replica.rs:159-165 | applying what a peer lacks makes it hold everything the sender holds, whatever gaps lie beyond its frontier |
| Replica.Replica.Register | crates/cyrene-sync/src/replica.rs:91-96 | registration accepts a schema beside the earlier ones, or refuses the name and changes nothing |
| Replica.Replica.AuthorChange | crates/cyrene-sync/src/replica.rs:104-125 | the mutable write follows the transition, under an identity never seen before, and keeps the invariant |
| Replica.Replica.ApplyChange | crates/cyrene-sync/src/replica.rs:134-151 | the mutable delivery succeeds exactly as specified and otherwise changes nothing |
| Replica.Replica.ApplyValidated | crates/cyrene-sync/src/replica.rs:274-312 | the update of documents, counter, log and frontier, and whether the change became visible |
| Replica.Replica.AdvanceFrontier | crates/cyrene-sync/src/replica.rs:314-326 | the loop stops at the first counter whose successor is absent |
| Replica.Replica.MissingForPeer | crates/cyrene-sync/src/replica.rs:159-165 | the filter returns exactly the changes beyond the peer frontier, in identity order |
| Replica.Replica.MissingPage | crates/cyrene-sync/src/replica.rs:172-191 | the bounded filter returns the least missing changes up to the limit and whether more remain |
| Gaps.PageFixed | crates/cyrene-sync/src/replica.rs:167-191 | writes made after a target was captured do not change any page toward it |
| Gaps.PageIsInitial | crates/cyrene-sync/src/replica.rs:172-191 | a page that carries a change carries every earlier missing one of the same author |
| Gaps.PageClosesGap | crates/cyrene-sync/src/replica.rs:172-191 | importing a page takes the limit off the remaining gap, and the page without a successor closes it |
| Gaps.EmptyGapCovers | crates/cyrene-sync/src/replica.rs:172-191 | an empty gap means the frontier covers the target |
| ReconcileProof.GrowthKeepsPhase | crates/cyrene/src/network.rs:523-684 | local writes, registrations and imports on either side leave the joint state of a session intact |
| ReconcileProof.PageImportable | crates/cyrene/src/replication.rs:107-133 | a page is imported exactly when its reader accepts every change on it under the schemas it currently writes and its tables take what is new |
| ReconcileProof.ImportedPageProgress | crates/cyrene/src/network.rs:561-566 | an imported page advances the receiver by a full page of the initial gap, and a last page completes it |
| ReconcileProof.RoundFollows | crates/cyrene/src/network.rs:652-682 | the responder imports the reply exactly when it takes the page; it then completes exactly when both sides have nothing left, and otherwise a further round is due |
| ReconcileProof.EventKeeps | crates/cyrene/src/network.rs:523-684 | a turn breaks a session exactly when it reads a page its reader does not take; every other turn and every local step keeps the session invariant |
| ReconcileProof.RunKeeps | crates/cyrene/src/network.rs:523-684 | the same over whole runs, with the targets captured when each party reads its frontier |
| ReconcileProof.StumbleStopsBoth | crates/cyrene/src/network.rs:545-598 | a session that breaks stops on both sides |
| ReconcileProof.NewPeersMeet | crates/cyrene/src/network.rs:505-509 | peers new to a space meet all that a session asks of its surroundings, and hold nothing under the name of the other |
| ReconcileProof.OwnWorkDisturbsNothing | crates/cyrene/src/network.rs:507-509 | one write, opening or migration of a peer that alone writes under its name never disturbs a session |
| ReconcileProof.OwnWorkUnrolls | crates/cyrene/src/network.rs:505-509 | nor do any number of them on both sides, interleaved with any turns: imports of pages forge nothing |
| ReconcileProof.ReconciliationIsComplete | crates/cyrene/src/network.rs:523-684 | for any two sound replicas of a space and every interleaving with local work and imports: the session breaks exactly when a party reads a page it does not take; otherwise, when a party stops, both agree on it and on the number of rounds, each frontier covers both fixed targets, and the rounds are at least one and at most one per page of 4096 of the larger gap |
| ReconcileProof.OwnSessionsAreComplete | crates/cyrene/src/network.rs:505-684 | the same of every session of two replicas that hold nothing forged and do their own work meanwhile: a condition on the start and on the kind of events alone |
| ReconcileProof.FittingGapsNeverBreak | crates/cyrene/src/network.rs:505-509 | if each side could import what the other held beyond its own target when the targets were captured, and its tables take it, the session does not break, whatever else the logs hold and whatever is written, imported or newly opened meanwhile |
| ReconcileProof.CompletionTransfersGaps | crates/cyrene/src/network.rs:590-597 | a completed session has handed over both gaps, and each receiver accepts everything in its own |
| ReconcileProof.CompletedSessionsAccept | crates/cyrene/src/network.rs:523-684 | at the end of every completed session, whatever was done meanwhile, each side holds and accepts all that the other held beyond its own target when the targets were captured |
| ReconcileProof.TotalsAgree | crates/cyrene/src/network.rs:538-543 | at the end of every completed session what one side counts as sent the other counts as received |
| ReconcileRules.PageTakenExactly | crates/cyrene/src/network.rs:545-566 | whoever sent it, the initiator takes a message for its page exactly if it is one, of its space, within the limit, toward the same target, and importable |
| ReconcileRules.AckTakenExactly | crates/cyrene/src/network.rs:586-598 | the initiator goes on exactly after an acknowledgement of its space that agrees on being done |
| ReconcileRules.ReplyTakenExactly | crates/cyrene/src/network.rs:652-682 | the responder takes a reply exactly if it is a page, of its space, within the limit, toward the target of the greeting, and importable |
| ReconcileRules.RetainedIsGrowth | crates/cyrene/src/network.rs:566-668 | what either receipt of a completed session counts as retained is what the log of that side grew by |
| ReconcileProof.SomeTurnMoves | crates/cyrene/src/network.rs:544-684 | while a session is not over, one of the parties reads a page it does not take or takes an effective turn |
| ReconcileProof.ReconciliationEnds | crates/cyrene/src/network.rs:523-684 | however much local work is interleaved, a session that does not break has at most two effective turns and five per round of the bound, and is stuck only when over |
| ReconcileProof.Drive | crates/cyrene/src/network.rs:523-684 | left to itself, every session comes to its end |
| ReconcileProof.RefusedHistoryNeverCompletes | crates/cyrene/src/replication.rs:207-231 | if either side holds, within its captured gap, a change that the other does not accept at all, no run of turns completes the session |
| ReconcileProof.RefusedHistoryBreaks | crates/cyrene/src/replication.rs:207-231 | and left to itself such a session breaks |
| AppPeer.ImportsAsPeer | crates/cyrene/src/replication.rs:107-204 | the exact success condition of an import: a page of legal size whose changes are acceptable under opened schemas and collide with none, whose affected documents merge, whose collections the tables know under no other schema, whose counters fit, and whose commit succeeds; exactly then the party it plays in a session takes the page, with the same outcome |
| AppPeer.MaterializesAllExactly | crates/cyrene/src/replication.rs:160-172 | the affected documents materialise exactly when each live winner of a merging collection merges |
| AppPeer.WritesExactly | crates/cyrene-store/src/lib.rs:1305-1354 | rows are written exactly when the tables know no collection among them under another schema |
| AppPeer.CallIsLabour | crates/cyrene/src/network.rs:507-509 | every write, transaction, migration, opening, compaction and reservation of an application, failed ones included, is a run of its own local work beside a session; an import from elsewhere is a run of deliveries |
| SimulatorState.RefusedAddKeepsExactly | crates/cyrene-sync/src/simulator.rs:36-50 | adding an identity already present reports an error, and leaves the network unchanged only if the replicas are equal, against its documentation |
| SimulatorState.BroadcastsExactly | crates/cyrene-sync/src/simulator.rs:63-75 | a broadcast queues exactly one copy for each replica other than the sender and moves nothing else |
| SimulatorState.DeliversExactly | crates/cyrene-sync/src/simulator.rs:128-144 | a delivery leaves a partitioned envelope queued; any other leaves the queue, and the recipient changes exactly if it is there and accepts the change |
| SimulatorState.ReordersExactly | crates/cyrene-sync/src/simulator.rs:156-169 | an order is taken exactly if it has no repetition and no gap, and then rearranges the queue by it |
| SimulatorState.RunKeepsWorld | crates/cyrene-sync/src/simulator.rs:41-169 | in every run of joins, writes, broadcasts, reconciliations, duplicates, partitions, reorderings and deliveries, whatever any replica holds or any envelope carries is held by its author |
| SimulatorState.OneContentPerIdentity | crates/cyrene-sync/src/simulator.rs:63-144 | hence a change identity has one content across all replicas and the queue |
| SimulatorState.DeliveryNeverCollides | crates/cyrene-sync/src/simulator.rs:128-144 | no delivery in any run from an empty network fails with a collision |
| Convergence.EmptiedQueueDelivers | crates/cyrene-sync/src/simulator.rs:128-169 | whatever the network does on its own, once the queue is empty a replica that accepts what it holds and what was on its way to it holds exactly that |
| Convergence.AgreeExactly | crates/cyrene-sync/src/simulator.rs:128-169 | two replicas then hold the same changes, documents and frontier if and only if they were bound to hold the same identities |
| Convergence.CanDeliverAll | crates/cyrene-sync/src/simulator.rs:118-144 | from every state the whole queue can be delivered |
| Convergence.HealedPairConverges | crates/cyrene-sync/src/simulator.rs:82-144 | in a network of any size, after healing, reconciling both ways and delivering everything in any order, two replicas agree if and only if nothing was under way to only one of them |
| Convergence.ThirdPartyDivides | crates/cyrene-sync/src/simulator.rs:82-96 | a run in which a third replica has sent its change to only one of the two, and they end apart |
| Convergence.EveryPairRunConverges | crates/cyrene-sync/src/simulator.rs:82-144 | in a network of two they agree at the end of every run |
| Convergence.NetworkConverges | crates/cyrene-sync/src/simulator.rs:82-144 | in a network of any size, reconciling everyone with everyone and delivering everything makes all replicas hold the union of all logs, the same documents and the same frontier |
| Convergence.EveryRunConverges | crates/cyrene-sync/src/simulator.rs:41-169 | the same from the end of every run from an empty network |
| Simulator.Simulator.AddReplica | crates/cyrene-sync/src/simulator.rs:41-50 | the mutable addition, its replacement of a present identity included |
| Simulator.Simulator.BroadcastChange | crates/cyrene-sync/src/simulator.rs:63-75 | one envelope for every replica but the sender; genuine changes keep the network invariant |
| Simulator.Simulator.ReconcilePair | crates/cyrene-sync/src/simulator.rs:82-96 | what the recipient lacks is queued, or a missing replica is reported |
| Simulator.Simulator.DuplicateAt | crates/cyrene-sync/src/simulator.rs:103-110 | an envelope is queued again, or the index is refused |
| Simulator.Simulator.PartitionLink | crates/cyrene-sync/src/simulator.rs:113-115 | the link is cut in both directions |
| Simulator.Simulator.HealLink | crates/cyrene-sync/src/simulator.rs:118-120 | the link is restored in both directions |
| Simulator.Simulator.DeliverAt | crates/cyrene-sync/src/simulator.rs:128-144 | a partitioned envelope stays, any other leaves the queue; the recipient never refuses it for a collision |
| Simulator.Simulator.ReorderQueue | crates/cyrene-sync/src/simulator.rs:156-169 | an order is accepted exactly when it is a permutation of the indexes |
| Simulator.PermutationByIndexSet | crates/cyrene-sync/src/simulator.rs:157-163 | collecting the indexes into a set and comparing its size and greatest element recognises exactly the permutations |
| StoreState.CheckedAllFit | crates/cyrene-store/src/lib.rs:613-621 | the row checks of a migration pass exactly when every transformed row fits its document and schema |
| StoreState.ApplyKeepsJournal | crates/cyrene-store/src/lib.rs:1155-1236 | a transaction numbers what it applied strictly upwards from everything before it |
| StoreState.RewriteKeepsJournal | crates/cyrene-store/src/lib.rs:627-649 | a migration numbers its rows consecutively |
| StoreState.FrontierIsLastSequence | crates/cyrene-store/src/lib.rs:741-755 | the greatest retained journal sequence is the last one assigned |
| StoreState.CompactExact | crates/cyrene-store/src/lib.rs:848-885 | compaction keeps exactly the newest rows, at least one, touches nothing else and does not move the frontier |
| StoreReceipts.AppliedExactly | crates/cyrene-store/src/lib.rs:1155-1236 | a transaction reports and journals exactly the puts and the deletes of rows present, in order and numbered from the last sequence on |
| StoreReceipts.LastMutationStands | crates/cyrene-store/src/lib.rs:1155-1236 | the last mutation of a document decides its row; every other row stays |
| StoreReceipts.ApplyTells | crates/cyrene-store/src/lib.rs:1155-1236 | the last word of the journal on a row is the row |
| StoreReceipts.InsertedExactly | crates/cyrene-store/src/lib.rs:1238-1303 | a change is reported as new exactly if its identity was in neither the log nor an earlier place of the batch |
| StoreReceipts.AppendsExactly | crates/cyrene-store/src/lib.rs:1238-1303 | a batch is appended exactly when nothing in it collides |
| StoreReceipts.MigratesExactly | crates/cyrene-store/src/lib.rs:567-669 | a migration leaves every row of the collection with its new payload, all other rows as they were, the collection under the new schema and the changes in the log |
| StoreReceipts.MigrationSucceedsExactly | crates/cyrene-store/src/lib.rs:567-669 | it is carried out exactly from the stored schema, to another, when every row was transformed and no change collides |
| StoreReceipts.MigratedSchemaGoverns | crates/cyrene-store/src/lib.rs:567-669 | from then on a write passes exactly under the new schema |
| StoreReceipts.CompactsExactly | crates/cyrene-store/src/lib.rs:848-885 | compaction succeeds exactly within bounds and leaves the newest rows, as many as asked for and at least one |
| Store.Transaction.ApplyAll | crates/cyrene-store/src/lib.rs:1155-1236 | the loop writes and drops rows and numbers what it applied in ascending order; deleting an absent row is silent |
| Store.Transaction.AppendLog | crates/cyrene-store/src/lib.rs:1238-1303 | each change is inserted, recognised as an exact duplicate, or refused as a collision |
| Store.Transaction.Rewrite | crates/cyrene-store/src/lib.rs:627-649 | the loop rewrites each row under its new payload and sequence |
| Store.Store.CommitLocalWrites | crates/cyrene-store/src/lib.rs:413-445 | rows and log change together, or nothing does |
| Store.Store.CommitRemoteChanges | crates/cyrene-store/src/lib.rs:459-485 | visible rows and the whole batch are committed together, or nothing is |
| Store.Store.MigrateRows | crates/cyrene-store/src/lib.rs:567-669 | all rows, the schema and the log move together, or nothing does |
| Store.Store.CompactJournal | crates/cyrene-store/src/lib.rs:848-885 | the mutable compaction; the journal frontier does not move |
| Store.Store.ReserveCounters | crates/cyrene-store/src/lib.rs:932-980 | a reservation advances the high-water mark by its size and returns the range in between, or changes nothing |
| AppProof.AppendFollows | crates/cyrene-store/src/lib.rs:1238-1303 | appending what a staged replica newly retained cannot collide, and afterwards the durable log equals its changes |
| AppProof.InsertedCountsGrowth | crates/cyrene-store/src/lib.rs:1262-1302 | the number of insertions reported is the growth of the log |
| AppProof.CommitKeeps | crates/cyrene/src/transaction.rs:137-193 | a committed transaction that loses no write to the collections followed keeps the durable log equal to the changes of the replica and the rows of those collections equal to the live winners |
| AppProof.SingleWriteKeepsExactly | crates/cyrene/src/collection.rs:86-114 | one committed put or delete keeps that agreement if and only if it is not lost to a saturated clock |
| AppProof.StageImportIsImport | crates/cyrene/src/replication.rs:139-159 | staging a batch reaches the state of importing it |
| AppProof.ImportKeeps | crates/cyrene/src/replication.rs:138-191 | every committed import keeps the agreement |
| AppProof.MigrateKeeps | crates/cyrene/src/migration.rs:72-124 | a committed migration keeps the agreement unless it rewrites rows followed and one of them is outranked |
| AppProof.OpenKeeps | crates/cyrene/src/app.rs:155-179 | opening a collection keeps the agreement |
| AppProof.CompactKeeps | crates/cyrene/src/app.rs:312-323 | compaction keeps the agreement |
| AppProof.ReserveKeeps | crates/cyrene/src/app.rs:199-216 | reserving counters keeps the agreement |
| AppRules.CommitsExactly | crates/cyrene/src/transaction.rs:127-218 | a transaction succeeds exactly if every mutation is within bounds, every collection keeps the one schema the tables know, counters fit their column and the commit succeeds |
| AppRules.CommitLeaves | crates/cyrene/src/transaction.rs:127-218 | afterwards each row is what the last mutation of its document says, and log and replica hold one change for each mutation under consecutive counters |
| AppRules.MigratesAppExactly | crates/cyrene/src/migration.rs:53-124 | a migration succeeds exactly from the stored schema to another when every row was transformed within bounds, counters fit and the commit succeeds |
| AppProof.LoadedExactly | crates/cyrene-store/src/lib.rs:1009-1039 | the changes loaded from the durable log are exactly the retained ones |
| AppProof.RebuildReplays | crates/cyrene/src/app.rs:123-142 | reopening replays the durable log into an empty replica that has registered every schema in it |
| AppProof.ReopenRestores | crates/cyrene/src/app.rs:123-152 | reopening always succeeds and rebuilds the same changes, documents, frontier and next counter from the durable tables |
| AppProof.CallKeeps | crates/cyrene/src/app.rs:54-60 | every call, failed ones and restarts included, keeps the agreement |
| AppProof.AlwaysFair | crates/cyrene-sync/src/clock.rs:34-58 | where no rows are followed no call needs a condition on the clock |
| AppProof.TablesRefineReplica | crates/cyrene/src/replication.rs:138-191 | in every run of an application from an empty database, whatever its clock, durable log and replica agree; and the rows of the collections followed are exactly the live winners if no write to them was lost to a saturated clock and none was opened with merging |
| AppProof.EveryRunReopens | crates/cyrene/src/app.rs:123-152 | at any point of every such run a restart succeeds and rebuilds the same changes, documents, frontier and next counter |
| AppClock.UnsaturatedIsFair | crates/cyrene-sync/src/clock.rs:34-58 | an application whose clock events are fewer than what is left above the greatest logical reading it has seen loses no local write, in any run |
| AppClock.UnsaturatedTablesRefine | crates/cyrene/src/replication.rs:138-191 | hence from an empty database, under a bound that a caller can count beforehand, log and rows agree with the replica throughout |
| App.App.Write | crates/cyrene/src/collection.rs:77-124 | a put or delete stages a copy, commits, then replaces the replica; a failure changes neither tables nor replica; a put answers with one applied row, a delete with one exactly if the row was there |
| App.App.CommitTransaction | crates/cyrene/src/transaction.rs:127-218 | all mutations are authored and committed together, or nothing changes; the answer numbers exactly the mutations that took effect |
| App.App.StageBatch | crates/cyrene/src/replication.rs:139-159 | the loop collects exactly the documents with a new winner and those of merging collections with a new change |
| App.App.MaterializeKeys | crates/cyrene/src/replication.rs:160-172 | one mutation per affected document, in key order |
| App.App.ImportChanges | crates/cyrene/src/replication.rs:107-204 | a batch is imported as a whole, or changes neither tables nor replica; the answer says of each change whether it was new, and as many were new as the changes of the replica grew by |
| App.App.MigrateCollectionRows | crates/cyrene/src/migration.rs:53-124 | tables, replica and opened schema move together, or nothing does |
| App.App.OpenCollection | crates/cyrene/src/app.rs:155-179 | a collection opened under another schema leaves everything as it was |
| App.App.OpenStore | crates/cyrene/src/app.rs:123-152 | the replica rebuilt from durable schemas and log |
| Materialize.ConcurrentExactly | crates/cyrene/src/replication.rs:249-265 | comparing with the latest delete alone selects exactly the same-schema puts, other than the winner, that are later than every delete |
| Materialize.MaterializeDependsOnChanges | crates/cyrene/src/replication.rs:233-297 | what a document materialises to is a function of the retained changes |
| Materialize.MaterializeIgnoresBatching | crates/cyrene/src/replication.rs:233-297 | hence of no import order, repetition or time |
| Materialize.MergeBodiesUnites | crates/cyrene-macros/src/lib.rs:96-103 | merge fields are merged one by one: exactly when all are compatible, each becoming the union |
| Materialize.MergeIntoUnites | crates/cyrene-macros/src/lib.rs:94-104 | merging succeeds exactly when every payload decodes and no identity names two operations in one field; plain fields stay those of the winner, each merge field becomes the union |
| Materialize.MaterializedIsUnion | crates/cyrene/src/replication.rs:246-281 | a merge-enabled document has the plain fields of the winner and, in each merge field, exactly the operations of the winner and of every same-schema put newer than all deletes |
| Actors.RunKeeps | crates/cyrene/src/app.rs:199-216 | in every run reservations coincide or do not meet, and exactly the counters spent by some actor have been issued |
| Actors.IssueRepeatsExactly | crates/cyrene-crdt/src/list.rs:15-21 | actors are copyable values: an issue repeats an identity if and only if another holder of the same reservation has gone further |
| Actors.IssueWithinReservation | crates/cyrene/src/app.rs:199-216 | an issued identity lies inside the durable reservation of its actor |
| Actors.IdentitiesNeverRepeat | crates/cyrene-store/src/lib.rs:922-980 | across reservations, failed commits, edits, crashes and restarts no operation identity is issued twice, provided no actor value is copied |
| Actors.CopiesRepeat | crates/cyrene-crdt/src/list.rs:15-16 | a run in which a copied actor issues an identity twice |
| MailboxProof.RequestKeepsInv | crates/cyrene-relay/src/lib.rs:137-184 | every request keeps the three quotas, the order and uniqueness of rows, and that sequences are never reused |
| MailboxProof.QuotasAlwaysHold | crates/cyrene-relay/src/lib.rs:260-327 | from an empty relay under a clock that never runs backwards, per-mailbox objects and bytes and the total bytes stay within limits in every reachable state |
| MailboxProof.RequestFollows | crates/cyrene-relay/src/lib.rs:137-184 | a request only removes rows and adds rows under sequences above all earlier ones |
| MailboxProof.CountIsExactUnlessRepeated | crates/cyrene-relay/src/lib.rs:277-297 | the reported count is at least what was stored, and equal to it if and only if the batch does not repeat an id new to the mailbox |
| MailboxProof.RepeatedPushIsOvercounted | crates/cyrene-relay/src/lib.rs:277-327 | an empty relay answers a push of one object twice with a count of two and stores one object |
| MailboxProof.NeverAcceptedAgain | crates/cyrene-relay/src/lib.rs:157-172 | a request accepted no earlier than it was issued is never accepted again, whatever arrives in between |
| MailboxProof.RepeatsExactly | crates/cyrene-relay/src/lib.rs:157-172 | a request once accepted can be accepted again exactly when it was issued ahead of the clock of the relay and is still within bounds when its nonce is forgotten |
| MailboxProof.PushAheadIsAcceptedTwice | crates/cyrene-relay/src/lib.rs:157-172 | a push issued as far ahead of the clock of an empty relay as is tolerated is accepted a second time |
| MailboxProof.PagingNeverSkips | crates/cyrene-relay/src/lib.rs:329-372 | in every walk by last cursor from the start of a mailbox, with any requests before and in between: deliveries come in strictly rising order, and every object still in the mailbox up to the cursor has been delivered |
| MailboxProof.ShortPageFinishes | crates/cyrene-relay/src/lib.rs:329-372 | a page shorter than its limit means that everything in the mailbox has been delivered by such a walk |
| MailboxProof.PullNeverCorrupt | crates/cyrene-relay/src/lib.rs:363-365 | a stored object always validates again, so a pull never reports corruption |
| MailboxProof.RefusedRequestsChangeNothing | crates/cyrene-relay/src/lib.rs:137-156 | a request without a valid signature, out of time or out of bounds is refused and changes no table |
| MailboxProof.OtherMailboxesStay | crates/cyrene-relay/src/lib.rs:137-184 | a request touches no mailbox but its own, except that the expired leave all |
| MailboxRules.PushesExactly | crates/cyrene-relay/src/lib.rs:260-327 | a push is answered with a count exactly for one to 256 envelopes within the sizes, lifetimes and quotas, from an admissible request |
| MailboxRules.PushedIsHeld | crates/cyrene-relay/src/lib.rs:312-323 | afterwards the mailbox holds what it held and had not expired, and an object under every identity pushed |
| MailboxRules.PullsExactly | crates/cyrene-relay/src/lib.rs:329-372 | a pull is answered with the next page exactly within bounds and when everything on it validates |
| MailboxRules.AcknowledgesExactly | crates/cyrene-relay/src/lib.rs:374-390 | an acknowledgement is answered exactly within bounds; it leaves exactly the objects not named that have not expired and counts what it removed |
| MailboxRules.UnadmittedChangesNothing | crates/cyrene-relay/src/lib.rs:137-172 | a request under a remembered nonce, too, changes no table |
| Mailbox.Transaction.CountNew | crates/cyrene-relay/src/lib.rs:277-297 | the counting loop counts each envelope against the table before the batch |
| Mailbox.Transaction.InsertNew | crates/cyrene-relay/src/lib.rs:312-323 | the insertion loop stores each new id once and leaves present ones alone |
| Mailbox.Transaction.DeleteEach | crates/cyrene-relay/src/lib.rs:374-390 | the deletion loop removes exactly the named objects of the mailbox and counts them |
| Mailbox.RelayStore.HandleRequest | crates/cyrene-relay/src/lib.rs:137-184 | the mutable service answers and changes its tables as specified and keeps the quotas; a refused nonce also undoes the expiry |
| RelayPush.Batches | crates/cyrene/src/relay.rs:394-417 | the batches carry exactly the history in order, each within the request bounds, and none ends before the next object would not fit |
| RelayDelivery.RequestMoves | crates/cyrene-relay/src/lib.rs:137-184 | a request removes an object only by expiry or acknowledgement and adds only what it pushes |
| RelayDelivery.ImportMakesDurable | crates/cyrene/src/relay.rs:461-465 | after a committed import, everything on the page is in the durable log of the recipient |
| RelayDelivery.EventKeepsWorld | crates/cyrene/src/relay.rs:432-488 | every push, pull, import, acknowledgement, crash and local call keeps each stored change safe |
| RelayDelivery.NothingIsLost | crates/cyrene/src/relay.rs:421-488 | in every run from an empty relay and a new database, whatever the clock of the recipient, each change once stored in the mailbox is still there, has expired, or is in the durable log of the recipient, also across crashes between import and acknowledgement |
| RelayDrain.PullAnswers | crates/cyrene-relay/src/lib.rs:329-372 | an answered pull hands over the next unexpired objects of the mailbox, in order, up to the limit |
| RelayDrain.AckAnswers | crates/cyrene-relay/src/lib.rs:374-390 | an answered acknowledgement leaves no named object in the mailbox and counts what it removed |
| RelayDrain.PageCleared | crates/cyrene/src/relay.rs:466-487 | acknowledging a page clears the mailbox up to its last object, and of everything that was there when it was read if the page was short |
| RelayDrain.Fetch | crates/cyrene/src/relay.rs:448-457 | pulling the next page from the cursor: there is one exactly if the relay answers with deliveries; anything else stops the loop with nothing lost |
| RelayDrain.Settle | crates/cyrene/src/relay.rs:461-483 | a page succeeds exactly if every packet opens, the import commits and the acknowledgement covers all of it; it is acknowledged only after its import committed |
| RelayDrain.TakePage | crates/cyrene/src/relay.rs:448-486 | one turn of the loop, with requests of others before the pull and between pull and acknowledgement: it fails exactly if the pull is not answered, or its page not imported, or not acknowledged |
| RelayDrain.PullAll | crates/cyrene/src/relay.rs:432-488 | whatever others request in between, a loop that reports success has taken everything stored when its last page was read: all of it is durable with the recipient or has expired; it is stopped exactly by a turn that fails; undisturbed it ends and leaves the mailbox empty, and with new nonces and welcome changes it succeeds and everything that was in the mailbox is durable |
| RelayTurns.FavourableTurn | crates/cyrene/src/relay.rs:448-486 | no turn fails while nobody else is active, nonces are new, commits succeed and the recipient would import everything in the mailbox |
| RelayTurns.WelcomeImports | crates/cyrene/src/relay.rs:461-465 | a page of changes that the recipient accepts under opened and stored schemas, and holds no others for, is imported |
| RelayTurns.WelcomeMailboxExists | crates/cyrene/src/relay.rs:421-488 | a recipient, a mailbox and a loop of that kind |
| RelayDelivery.RedeliveryIsIdempotent | crates/cyrene/src/relay.rs:423-425 | importing changes already held leaves changes, documents and frontier as they are |
| RelayDelivery.CrashRestores | crates/cyrene/src/relay.rs:423-425 | after a crash the recipient holds what it held, abandons the page and has nothing opened |
| VaultState.RotationKeepsExactly | crates/cyrene-trust/src/lib.rs:1667-1726 | a rotation keeps exactly the members not revoked, each with a fresh grant of its old permission for the next epoch, and stores the new key in a free slot |
| VaultState.RotationSucceedsExactly | crates/cyrene-trust/src/lib.rs:1667-1726 | it succeeds exactly for the issuer, before the end of time and epochs, on a free key slot |
| VaultState.RedeemsExactly | crates/cyrene-trust/src/lib.rs:1522-1597 | an invitation on offer admits its first subject, with the permission it offers, and afterwards that subject only, to the grant first given |
| VaultState.RedeemedOnce | crates/cyrene-trust/src/lib.rs:1546-1594 | after a redemption every later one is by the same subject, returns the same grant and changes nothing |
| VaultRules.AcceptsSharedExactly | crates/cyrene-trust/src/lib.rs:1010-1060 | a first share is taken exactly from its issuer, for this device, in force, into a vault with neither access nor a key for the epoch |
| VaultRules.AcceptsEpochExactly | crates/cyrene-trust/src/lib.rs:1734-1785 | a newer epoch is taken exactly from the present issuer, for this device, in force, on a free key slot |
| VaultRules.SharedRefusals | crates/cyrene-trust/src/lib.rs:1010-1060 | what a refused first share is refused for |
| VaultRules.EpochRefusals | crates/cyrene-trust/src/lib.rs:1734-1785 | what a refused newer epoch is refused for |
| VaultRules.CommitsExactly | crates/cyrene-trust/src/lib.rs:1799-1877 | an epoch is committed exactly if it is newer, its grants are in force under it, its key slot is free and no member occurs twice |
| VaultRules.InitializesExactly | crates/cyrene-trust/src/lib.rs:966-1003 | a space is initialised exactly in a vault without one, with a full grant for its device |
| VaultRules.OffersExactly | crates/cyrene-trust/src/lib.rs:1465-1520 | an invitation is recorded exactly for the present issuer and epoch and under a new name |
| Vault.TrustStore.CommitSpaceEpoch | crates/cyrene-trust/src/lib.rs:1799-1877 | authority, key and roster change together, or nothing does |
| Vault.TrustStore.RotateOwnedSpace | crates/cyrene-trust/src/lib.rs:1667-1726 | the mutable rotation and the roster it leaves |
| Vault.TrustStore.AcceptSharedSpace | crates/cyrene-trust/src/lib.rs:1010-1060 | a first share is installed with its key, or nothing changes |
| Vault.TrustStore.AcceptSpaceEpoch | crates/cyrene-trust/src/lib.rs:1734-1785 | only a newer epoch from the same issuer is installed, and no retained key is overwritten |
| Vault.TrustStore.RedeemInvitation | crates/cyrene-trust/src/lib.rs:1522-1597 | an invitation admits one subject; it succeeds exactly while the invitation is current and open or that subject's, and repeating the redemption returns the committed grant and changes nothing |
| Epochs.OnceKeeps | crates/cyrene/src/relay.rs:328-358 | one turn of the relay refresh advances a device by exactly one epoch, to a roster it was on, also when a crash comes between the installation and its acknowledgement |
| Epochs.RefreshStopsExactly | crates/cyrene/src/relay.rs:320-359 | the refresh goes on exactly while the mailbox of the current key holds an update the device may use |
| Epochs.TurnsExactly | crates/cyrene/src/relay.rs:328-358 | a turn takes the update that awaits the device exactly if it is for the next epoch, from issuer and owner, for this device and in force, whatever else the mail holds |
| Epochs.RefreshReachesExactly | crates/cyrene/src/relay.rs:309-359 | the refresh brings a device to an epoch exactly when every transition up to it was published to the device and still awaits it |
| Epochs.SkippedMembersAreStranded | crates/cyrene/src/relay.rs:257-307 | a member whose update was not published before the next rotation, or has expired, is never brought past that epoch by any later publication or refresh |
| Epochs.PublishKeeps | crates/cyrene/src/relay.rs:257-307 | publishing, whole or cut short, changes no vault, puts only sound updates into mailboxes, and bridges only the latest transition |
| Epochs.PublishesExactly | crates/cyrene/src/relay.rs:286-304 | a publication puts exactly one update for each member reached into the mailbox of the previous key, with the epoch and key of the owner and the grant of the member, and leaves filled slots and other mail alone |
| Epochs.RetainedMembersFollow | crates/cyrene/src/relay.rs:257-358 | a retained member that is up to date follows a rotation, once its update is published and it refreshes, to the new epoch and key |
| Epochs.InvitationAdmitsOne | crates/cyrene-trust/src/lib.rs:1522-1597 | in every run an invitation admits at most one subject, always to the same grant |
| Epochs.DirectReachesMembers | crates/cyrene/src/network.rs:687-777 | a direct session moves a device exactly when it is behind and holds a current grant, and then to the epoch of the owner |
| EpochRelay.PublishEach | crates/cyrene/src/relay.rs:286-305 | the publishing loop offers exactly one update to each current member up to the push that fails, and leaves filled slots alone |
| EpochRelay.PublishUpdates | crates/cyrene/src/relay.rs:257-307 | a publication reaches all members, or the first of them if the relay fails: each of those has its update in the mail; the world stays sound either way |
| EpochRelay.RefreshEpochs | crates/cyrene/src/relay.rs:320-359 | the undisturbed refresh loop ends; the device has advanced by exactly the epochs counted, was on the roster of each of them, and nothing usable awaits it |
| Epochs.RunKeeps | crates/cyrene-trust/src/lib.rs:1667-1877 | in every run of rotations, invitations, whole and partial publications, expiries, and refreshes that may crash at any turn, no epoch of any vault goes back and no retained key is lost or replaced |
| Epochs.MemberKeysAgree | crates/cyrene-trust/src/lib.rs:1728-1785 | any key a member holds for an epoch is the one the owner holds |
| Epochs.SpaceStarts | crates/cyrene-trust/src/lib.rs:966-1003 | a freshly initialised space is where such runs start |
| Epochs.OmittedMembersStay | crates/cyrene/src/relay.rs:309-313 | a member that a rotation omits and that is not invited again never gets past the omitted epoch through the relay, in any run |
| UserEvents.BigEndianInjective | crates/cyrene-identity/src/user.rs:386-389 | fixed-width big-endian encoding is injective |
| UserEvents.DigestInputInjective | crates/cyrene-identity/src/user.rs:85-118 | the signed and digested encoding of an event determines the event |
| UserChain.UserIdInputInjective | crates/cyrene-identity/src/user.rs:378-384 | the name of a user is derived from its first device and nonce under the domain, and different ones give different inputs |
| UserChain.ReplaySound | crates/cyrene-identity/src/user.rs:158-170 | a replayed history yields an identity with exactly that history, at least one device, contiguous positions and linked digests |
| UserChain.ReplayExtends | crates/cyrene-identity/src/user.rs:158-170 | replaying a longer history continues the replay of the shorter one |
| UserChain.ApplyKeepsVerified | crates/cyrene-identity/src/user.rs:216-270 | an applied event keeps an identity the replay of its own events |
| UserChain.GenesisVerifies | crates/cyrene-identity/src/user.rs:135-151 | a created root verifies and has its creator as only device |
| UserChain.LinkTakesEffect | crates/cyrene-identity/src/user.rs:179-188 | a linked device can link exactly the devices not yet linked, and the event then applies and adds that device |
| UserChain.RemovalTakesEffect | crates/cyrene-identity/src/user.rs:196-208 | a linked device can remove exactly a linked device that is not the last, and the event then applies and removes it |
| UserChain.CompetitorForks | crates/cyrene-identity/src/user.rs:220-243 | of two valid events for one position, whichever comes second is reported as a fork, and the first again as a duplicate |
| UserChain.HeadDeterminesIdentity | crates/cyrene-identity/src/user.rs:85-118 | two verified chains with the same head digest are the same identity, unless an event of one and an event of the other hash alike although their encodings differ |
| UserChain.ConstantHashForks | crates/cyrene-identity/src/user.rs:85-90 | with a hash of one value, two different verified users share their head |
| UserChain.DistinctHeads | crates/cyrene-identity/src/user.rs:85-90 | two different verified users without such a collision exist |
| UserChain.LoadsReplay | crates/cyrene-trust/src/lib.rs:1138-1174 | a stored chain loads as the verified replay of its rows |
| UserChain.ApplyUserEventExactly | crates/cyrene-trust/src/lib.rs:1121-1131 | after a stored event the vault loads the identity it produced; a refused event is not stored |
| UserAuthority.ReplaysExactly | crates/cyrene-identity/src/user.rs:135-270 | a history replays exactly when it is a signed root followed by events each of which is addressed to the user, in place, linked to its predecessor, signed by a device linked so far, and links a new device or removes one of several; its devices are then exactly those last linked |
| UserAuthority.ActorsWereLinked | crates/cyrene-identity/src/user.rs:242-250 | in a verified identity every event was signed by a device linked before it |
| UserAuthority.RemovedDevicesAreSilent | crates/cyrene-identity/src/user.rs:242-265 | once removed a device signs nothing until it is linked again |
| UserAuthority.OutsidersAreRefused | crates/cyrene-identity/src/user.rs:242-244 | a device never linked, or removed since, adds nothing |
| UserAuthority.AppliesExactly | crates/cyrene-identity/src/user.rs:216-270 | a verified identity takes an event exactly when it may come next |
| UserAuthority.RefusalsExactly | crates/cyrene-identity/src/user.rs:216-244 | which event is reported as a duplicate, a fork, out of sequence or unauthorised |
| UserAuthority.StoresExactly | crates/cyrene-trust/src/lib.rs:1121-1131 | an event is stored exactly when it may come next in the stored history |
| UserAuthority.InstallsExactly | crates/cyrene-trust/src/lib.rs:1090-1113 | a complete chain is installed exactly into a vault without a user, on a device that it has linked |
| UserAuthority.LoadsExactly | crates/cyrene-trust/src/lib.rs:1138-1174 | whatever the tables hold, an identity is loaded exactly from a valid history of the user of the vault |
| UserChain.ImportExactly | crates/cyrene-trust/src/lib.rs:1183-1214 | an import succeeds exactly for an extension of the local history, which it adopts; everything else is a fork |
| UserChain.DivergenceIsMutual | crates/cyrene-trust/src/lib.rs:1183-1202 | divergent histories are refused as forks in both directions |
| User.UserIdentity.ApplyEvent | crates/cyrene-identity/src/user.rs:216-270 | the mutable application takes an event exactly when it may come next in the history; a rejected event changes nothing, and a verified identity stays verified |
| User.Replay | crates/cyrene-identity/src/user.rs:158-170 | the replay loop returns the identity exactly of a valid history, and otherwise the first error |
| User.UserTables.LoadUser | crates/cyrene-trust/src/lib.rs:1138-1174 | the loading loop returns no identity, the verified one, or the first error |
| User.UserTables.InstallUser | crates/cyrene-trust/src/lib.rs:1090-1113 | a complete chain is installed once, only where the local device is a member |
| User.UserTables.Append | crates/cyrene-trust/src/lib.rs:1121-1131 | an event is appended exactly when it may come next; a rejected event never changes the tables, and the stored chain stays verified |
| User.UserTables.ImportIdentity | crates/cyrene-trust/src/lib.rs:1183-1214 | the comparing loop adopts extensions and refuses forks without changing the tables |

## Left out

- QUIC, TCP framing, mDNS discovery, timeouts, tasks and lock poisoning: messages are atomic steps, locks serialise.
- SQLite itself, write-ahead logging, online backup and file handling: tables are maps, and a transaction commits or rolls back as a whole; exhaustion of its 63-bit row sequence is not modelled.
- Cryptography: signatures verify what was signed, opening undoes sealing, nothing is assumed of the digest of a user event, and the names that a key gives to changes differ; attackers are not modelled.
- Serialisation formats: a payload codec is a decoder that undoes its encoder, and the list's wire form is its rows.
- Procedural macros, the command line, the OS keyring, recovery bundles, wrapping-key rotation, templates and benchmarks.
- Pairing, peer records and the space links of a peer, which no modelled property depends on.
- Message byte limits inside sync pages and relay responses: messages are assumed to fit.
- Protocol version fields, and capability time windows and permissions inside reconciliation sessions and relay packets; authorisation is modelled in the vault and in epoch refreshes.
- Unicode segmentation and formatting: text is a sequence of characters.
- Subscriber notifications, and the counts in the receipts of relay pushes and pulls as a whole (those of a single import are `App.App.ImportChanges`).
- Compatibility of reading an older database file (schema upgrades of the store and of the vault).
- Spaces other than the application's own, and vaults with several spaces: a vault is modelled for one space; its direct writes of a grant or a key (`store_space_access`, `store_space_key`) are not part of the model.
- The digest column beside each stored user event, which is written from the event and compared on loading.
- Reconcile.InitiatorTurn: reading a page, importing it and preparing the answer are separate steps of one party, between which local work may happen; a page is taken in one step, which Gaps.PageFixed justifies.
- ReconcileProof.ReconciliationIsComplete: two sound replicas whose logs never name two different changes alike, which SimulatorState.OneContentPerIdentity gives, which ReconcileProof.OwnWorkUnrolls keeps whatever the two do themselves, and which an import from a third party during the session has to keep.
- ReconcileProof.FittingGapsNeverBreak: for sessions during which no opened collection is migrated; a migration in between is covered by ReconcileProof.ReconciliationIsComplete.
- SimulatorState.RunKeepsWorld: does not cover a replica added under an identity already present, for which one content per identity fails, nor arbitrary edits through a mutable replica reference, of which writes and registrations are covered.
- AppProof.CommitKeeps: several mutations are shown to keep agreement when none is lost to a saturated clock; the converse is stated for one mutation (AppProof.SingleWriteKeepsExactly), because a later mutation of the same document can repair the row.
- AppProof.TablesRefineReplica: says nothing about rows of merge-enabled collections, into which a local put writes its payload unmerged; Materialize.MaterializedIsUnion states what materialising them gives.
- RelayDelivery.NothingIsLost: one mailbox and its one recipient; others may push and pull, and only the recipient acknowledges.
- Epochs.OmittedMembersStay: the relay path only; a direct session is Epochs.DirectReachesMembers.
- EpochRelay.RefreshEpochs: the loop undisturbed at one instant; its single turns, crashes between installation and acknowledgement, and whatever happens in between are steps of Epochs.RunKeeps.
- AppPeer.CallIsLabour: not of a restart, which ends the process and with it the session.
