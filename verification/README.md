# A verified model of stlab's forest and of its concurrency protocols

This project models two parts of stlab and proves what they promise.

**The forest.** `forest<T>` stores an ordered forest as a threaded, circular structure: every node has four links, to
the next and the prior node on its leading and on its trailing edge, and no link says which edge it leads to. A
`Forest` here owns a ghost *walk*: the word of (node, edge) visits that `++` makes from the root's leading to its
trailing edge. The invariant is that the word is well nested, visits nothing twice, and agrees with the links. Each
operation is the imperative code on the links, proved to turn the walk into a stated other word; `TreeWalks` shows
that a word is well nested exactly when it is the walk of a tree-shaped forest, and then of only one, and `TreeEdits`
says what each operation does to those trees. On top stand the size cache, comparison, flattening and rebuilding, and
the iterator adaptors.

**The protocols.** Serial queue, shared state with promises and packaged tasks, `when_all`/`when_any`, timed wait,
channels. Each is a state machine whose events are one locked region, or one step of a thread outside the lock. A run
is any interleaving of events that can happen in their turn, and the theorems are about all runs. Beside each machine
stands a class whose methods are the locked regions in the source's own imperative form, proved to do what the machine
says.

| file | content |
|---|---|
| `Walks`, `Edits`, `Rings` | words of visits, cutting and pasting them, and when links agree with a word |
| `Nodes`, `Container`, `Ranges`, `Laws` | the nodes and their links, the forest and its operations, range erase, what undoes what |
| `TreeWalks`, `TreeEdits` | the trees that a walk encodes, and what the operations do to them |
| `Flat`, `Algorithms`, `Rebuild`, `Decode` | flattening, comparing, copying, rebuilding |
| `Adaptors`, `Filters` | edge and child iterators; the filter iterator |
| `SerialQueues` | the serial queue |
| `SharedStates`, `Ownership`, `Graphs` | one shared state; who keeps states alive; graphs of continuations |
| `Joins`, `TimedWaits` | `when_all` and `when_any`; `await_for` |
| `MergeQueues`, `Processes`, `Channels` | merge strategies, one process, flow control in a net |
| `Flows`, `Settling` | what flows through a net, and that a net left alone comes to rest |

Helper methods such as `Forest.Rehang` or `Forest.EraseStep` are parts of one function of the source, taken out so that
each proof stays small.

## Where the code and its documentation differ

- `equal_shape` is documented to compare whole edge sequences. When a cached size is not valid it answers yes as soon
  as the first sequence is a prefix of the second (include/stlab/forest_algorithms.hpp:46-51). `EqualShape` follows the
  code. `EqualShapeRightExactly`: for given sizes the answer is right for every second forest exactly when both sizes
  are cached or the second forest has no more nodes than the first. `EqualShapeGoesWrong` makes two forests for which
  it is wrong.
- The range form of `erase` is documented to remove each node in the range. A node with only one of its edges in the
  range stays (include/stlab/forest.hpp:1061-1072). `WholeNodesGo`: a node that the range visits goes exactly when both
  its edges are in the range. `HalfCoveredStays` erases a range that visits a node, and erases nothing.
- `skip_forward` states as its precondition that the end of the range is on a leading edge, but the range it is used
  for ends on the root's trailing edge (include/stlab/forest.hpp:366-367, 1266-1270). `FilterRange` is proved for that
  use.
- A filtered range is documented to skip what the predicate rejects. Its end iterator has an empty range of its own
  (include/stlab/forest.hpp:1268-1270), leaves it with the first `--`, and skips nothing on the way back.
  `FilterRangeBackward` says what is visited, `BackwardRightExactly` that this is right exactly when nothing is
  rejected behind the trees skipped at the beginning, and `BackwardWrongOnce` gives an input on which it is not.
  `FilterThereAndBack`: an iterator that has come from the beginning does go back right.
- `when_any` is documented to take the first successful input. It takes the one whose observer first gets the lock,
  which need not be the input that completed first (include/stlab/concurrency/future.hpp:1428-1448).
  `AnyTakesFirstReport` is a run in which it is not; `PromptAnyTakesFirst`: it is, in every run in which each input that
  completes is reported before another completes.
- Releasing the last future is documented to cancel its producer (include/stlab/concurrency/future.hpp:64-65). States
  that hold each other in a ring, as when a task returns a continuation of its own future, outlive every future
  (include/stlab/concurrency/future.hpp:1297-1308): `RingOutlivesFutures`. `CanceledIffUnsustained` says which states end, rings included.
- Inserting a copied range (include/stlab/forest.hpp:1123-1131) behind its own first position, and not behind its end,
  never comes to the end of the range. `CopyRounds` proves that, and `CopyWithin` is about every other position.
- `broadcast` suspends a process when a downstream queue has at most one place left, as the least free room of all. The
  room of a queue with more messages than its buffer wraps around (include/stlab/concurrency/channel.hpp:678-679):
  `SuspendsExactly`. In the runs modelled it is never asked of such a queue: `BroadcastSuspends`.

## Model

| member | source | states |
|---|---|---|
| Nodes.StepsFollowRing | include/stlab/forest.hpp:665-685 | on links that agree with a well-nested circular word, `++` and `--` go to the neighbouring visit, from every position |
| Nodes.SetNext | include/stlab/forest.hpp:803-809 | changes the two links between two positions and no other |
| Nodes.HasChildrenIff | include/stlab/forest.hpp:139-142 | `has_children` is true exactly when something is visited between the two edges of the node |
| Nodes.LinkIn | include/stlab/forest.hpp:1157-1158 | two `set_next` calls put a loose well-nested segment into the walk |
| Nodes.Unlink | include/stlab/forest.hpp:1079-1103 | the one or two `set_next` calls of `erase` take both visits of a node out of the walk and leave the rest threaded |
| Nodes.MoveSiblings | include/stlab/forest.hpp:1153-1158 | the three `set_next` calls of `splice` cut a segment out of one ring and put it into another, or elsewhere into the same |
| Rings.Threads.Detach | include/stlab/forest.hpp:1155 | one `set_next` leaves the rest a ring and the segment a chain |
| Rings.Threads.PutAtRing | include/stlab/forest.hpp:1157-1158 | two `set_next` calls make one ring of a ring and a chain |
| Container.Forest.constructor | include/stlab/forest.hpp:866 | an empty forest: the root's two visits, threaded |
| Container.Forest.EmptyIffNoNodes | include/stlab/forest.hpp:899-901 | `begin() == end()` exactly when there is no node |
| Container.Forest.SizeValidIff | include/stlab/forest.hpp:898 | the size is known exactly when a number is cached or there is no node, and then it is the cached number |
| Container.Forest.Insert | include/stlab/forest.hpp:953-962 | a new node's two visits before the position, everything else in place; the cached size is exact afterwards if one was cached or the forest was empty, and 0 if not |
| Container.Forest.Erase | include/stlab/forest.hpp:1079-1103 | the node's two visits are gone, so its children take its place; the result is the position after it |
| Container.Forest.EraseRange | include/stlab/forest.hpp:1056-1074 | exactly the nodes with both visits in the range are gone, the rest keeps its order, `last` stays in the walk, and the loop ends although the walk shrinks under it |
| Ranges.PassErasesCovered | include/stlab/forest.hpp:1058-1072 | a pass that only counts open nodes removes exactly the nodes that a stack of open nodes would find covered |
| Ranges.WholeNodesGo | include/stlab/forest.hpp:1056-1074 | a node visited in the range goes exactly when both its visits are in it; all nodes visited go exactly when none is visited there only once |
| Container.HalfCoveredStays | include/stlab/forest.hpp:1061-1072 | a range from a node's leading to its trailing edge, erased from a forest of that node: nothing goes |
| Ranges.LastStays | include/stlab/forest.hpp:1073 | the end of the range is not erased |
| Container.Forest.Clear | include/stlab/forest.hpp:935-938 | only the root's visits remain |
| Container.Forest.Splice | include/stlab/forest.hpp:1135-1161 | within one forest or between two: the range's visits, in order, before the position, everything else as it was; nothing at all if the range is empty or already there; with a count each size that was known is known and exact afterwards, without one both are unknown |
| Container.Forest.MoveCount | include/stlab/forest.hpp:1143-1151 | the size caches of both forests after a splice with a known or an unknown count are 0 or exact |
| Container.Forest.SpliceAll | include/stlab/forest.hpp:1107-1111 | all trees move and the other forest is empty, whether or not its size was known |
| Container.Forest.SpliceNode | include/stlab/forest.hpp:1115-1119 | the subtree of one node moves; the count passed is 0 or exact |
| Container.Forest.SubtreeIsRange | include/stlab/forest.hpp:1117-1118 | from a node's leading position to the child iterator after it is a child range, the visits of its subtree |
| Container.Forest.InsertParent | include/stlab/forest.hpp:1175-1182 | the new node's visits around the range, also around an empty one |
| Container.Forest.Size | include/stlab/forest.hpp:1042-1052 | the number of nodes, cached afterwards, also when it has to be counted by walking past `end()` to the root's leading position |
| Container.Forest.NodesCounted | include/stlab/forest.hpp:1042-1052 | half the visits, without the root's, is the number of nodes |
| Container.FindEdge | include/stlab/forest.hpp:208-214 | the first visit with the wanted edge from here on, going round past the end |
| Container.Forest.Shape | include/stlab/forest.hpp:819-828 | the forest whose walk the links encode |
| Container.Forest.ShapeIsUnique | include/stlab/forest.hpp:819-828 | no other forest has this walk |
| Container.Forest.VisitedOnceEach | include/stlab/forest.hpp:823-824 | every node is visited once leading and once trailing, and never again |
| Container.Forest.RunOfIncrements | include/stlab/forest.hpp:665-674 | any run of `++` from the root is the walk, round and round |
| Container.Forest.DecrementInvertsIncrement | include/stlab/forest.hpp:665-685 | `--` undoes `++` and `++` undoes `--` at every position, the root's and `end()` included |
| TreeWalks.WalkIsWellNested | include/stlab/forest.hpp:823-824 | the walk of a forest is well nested |
| TreeWalks.WalkIsInjective | include/stlab/forest.hpp:823-824 | different forests have different walks, whatever follows them |
| TreeWalks.OneForestPerWalk | include/stlab/forest.hpp:823-824 | a word is well nested exactly when it is the walk of a forest, and then of one only |
| TreeEdits.PlaceIsPaste | include/stlab/forest.hpp:953-962 | pasting a walk before a position is putting its trees before the tree at, or after the last child of, the position |
| TreeEdits.PastedTrees | include/stlab/forest.hpp:1135-1161 | once a walk has been pasted into it the forest is the old one with those trees placed there |
| TreeEdits.InsertedTrees | include/stlab/forest.hpp:953-962 | an inserted node stands without children where the position was: before its tree, or as the last child |
| TreeEdits.DissolveIsWithout | include/stlab/forest.hpp:940-945 | dropping the visits of nodes is replacing each by its children |
| TreeEdits.ErasedTrees | include/stlab/forest.hpp:829-832 | after either `erase` the forest is the old one with the nodes dissolved |
| TreeEdits.RangeIsTrees | include/stlab/forest.hpp:1155-1158 | a child range is a row of whole trees, and the forest is the rest of it with that row placed before the end of the range |
| TreeEdits.SplicedTrees | include/stlab/forest.hpp:1135-1161 | a splice between two forests takes whole trees out of one and places the same trees, with their shape, in the other |
| TreeEdits.MovedTrees | include/stlab/forest.hpp:1135-1161 | a splice within one forest takes whole trees from one place to another |
| TreeEdits.WrappedTrees | include/stlab/forest.hpp:1175-1182 | `insert_parent` puts a node with the row of trees as its children where the row was |
| Laws.EraseUndoesInsert | include/stlab/forest.hpp:940-962 | erasing a node just inserted restores the walk |
| Laws.EraseUndoesWrap | include/stlab/forest.hpp:989 | erasing a parent just inserted around a range restores the walk |
| Laws.SpliceToOwnEnd | include/stlab/forest.hpp:1135-1161 | splicing a range before its own end changes nothing |
| Laws.SpliceBack | include/stlab/forest.hpp:1135-1161 | splicing a range back undoes a splice within one forest |
| Laws.SpliceConserves | include/stlab/forest.hpp:1135-1161 | a splice between two forests conserves their combined visits |
| Algorithms.Flatten | include/stlab/forest_algorithms.hpp:148-159 | the encoding of the walk: the value at each leading visit, nothing at each trailing one |
| Flat.EncodeIsInjective | include/stlab/forest_algorithms.hpp:146-147 | the encoding is lossless |
| Flat.FlatIsEncoding | include/stlab/forest_algorithms.hpp:146-159 | reading the walk gives the recursive encoding of the trees of values |
| Rebuild.Transcriber.Assign | include/stlab/forest_algorithms.hpp:83-91 | inserts before the current position and stands on the new node |
| Rebuild.Transcriber.Advance | include/stlab/forest_algorithms.hpp:73-76 | steps over the first of the visits it has written and not yet passed |
| Rebuild.Transcriber.Close | include/stlab/forest_algorithms.hpp:93 | `trailing()` and `++`: past a node's own closing, past the whole tree that stands there, or from the end round to the root |
| Decode.Unflatten | include/stlab/forest_algorithms.hpp:108-120 | which visit stands where afterwards, new or old, for every code, also one that closes more than it opens or leaves nodes open; a code that closes only what it opens is decoded in front of what the forest held |
| Decode.UnflattenInvertsFlatten | include/stlab/forest_algorithms.hpp:144-170 | what flattening gives is balanced, and a forest with that encoding is the same trees of the same values |
| Decode.RoundTrip | include/stlab/forest_algorithms.hpp:144-170 | decoding in an empty forest what was flattened gives the same trees of the same values |
| Rebuild.CopyRange | include/stlab/forest.hpp:1123-1131 | inserts a copy of a child range of another forest, values and shape, and leaves the other as it is |
| Rebuild.CopyWithin | include/stlab/forest.hpp:1123-1131 | the same when the range is of the forest itself, and the position is not behind its first position, or is behind its end |
| Rebuild.CopyRounds | include/stlab/forest.hpp:1126-1128 | for the other positions: after any number of rounds of the loop the end of the range is as far ahead as it was |
| Rebuild.Copy | include/stlab/forest.hpp:869-871 | copy construction gives the same trees of the same values in new nodes |
| Algorithms.Equal | include/stlab/forest.hpp:1006-1016 | true exactly when the encodings are equal; at most the size caches change |
| Algorithms.EqualFlatEqualTrees | include/stlab/forest.hpp:1006-1016 | equal encodings are equal trees of equal values |
| Algorithms.EqualShape | include/stlab/forest_algorithms.hpp:44-52 | when each forest is empty or has a cached size: equal edge sequences; otherwise: whether the first is a prefix of the second; never reads past the end of the second |
| Algorithms.OpensWherePrefixEnds | include/stlab/forest_algorithms.hpp:48-50 | where the second walk ends first, the first opens a node, so the loop stops there |
| Algorithms.EqualShapeRightExactly | include/stlab/forest_algorithms.hpp:39-52 | for a given first forest and size of the second the answer is right for every second forest exactly when both are counted or the second has no more nodes |
| Algorithms.EqualShapeGoesWrong | include/stlab/forest_algorithms.hpp:39-51 | two forests, one left uncounted by a splice, on which the answer is wrong |
| Adaptors.FindEdgeReverse | include/stlab/forest.hpp:217-222 | the last visit with the wanted edge from here back |
| Adaptors.EdgeIterator.Increment | include/stlab/forest.hpp:274 | the next visit with the edge |
| Adaptors.EdgeIterator.Decrement | include/stlab/forest.hpp:276 | the visit with the edge before this one |
| Adaptors.EdgeDecrementUndoesIncrement | include/stlab/forest.hpp:274-276 | at every visit of the range `--` undoes `++` |
| Adaptors.EdgeRange | include/stlab/forest.hpp:226-280 | stepping from the beginning visits exactly the visits with the edge, in their order |
| Adaptors.EdgeRangeIsOrder | include/stlab/forest.hpp:861-864 | those are the preorder and the postorder of the trees |
| Filters.FilterIterator.constructor | include/stlab/forest.hpp:296-297 | starts at the first visit that is not skipped, whatever its range |
| Filters.FilterIterator.Increment | include/stlab/forest.hpp:356-364 | goes to the next visit, over rejected subtrees while it is inside its range; when it leaves the range, and when it enters it again |
| Filters.FilterIterator.Decrement | include/stlab/forest.hpp:386-394 | the same backwards, for every range, the empty one of a range's end included |
| Filters.SkipForward | include/stlab/forest.hpp:366-374 | steps over whole rejected subtrees, and asks the predicate only about values |
| Filters.SkipBackward | include/stlab/forest.hpp:376-384 | the same backwards |
| Filters.SkipBackUndoesSkip | include/stlab/forest.hpp:366-384 | skipping forward and then back over the same gap ends where skipping back from its beginning would |
| Filters.FilterDecrementUndoesIncrement | include/stlab/forest.hpp:356-394 | at a kept visit, inside a range that begins on a leading edge, `--` undoes `++` |
| Filters.UnskippedIsPruned | include/stlab/forest.hpp:366-374 | what is not skipped of the walk of a forest is the walk of the forest without rejected subtrees |
| Filters.FilterRange | include/stlab/forest.hpp:1264-1271 | the filtered range is the walk of the pruned forest, whichever top-level trees are pruned |
| Filters.FilterRangeBackward | include/stlab/forest.hpp:386-394 | going back from the end of the filtered range visits everything, but for rejected trees at the beginning |
| Filters.BackwardRightExactly | include/stlab/forest.hpp:1264-1271 | that is the filtered range exactly when nothing is rejected in the trees that remain |
| Filters.BackwardWrongOnce | include/stlab/forest.hpp:1264-1271 | a forest on which it is not |
| Filters.BackwardRightOnce | include/stlab/forest.hpp:1264-1271 | a forest on which it is, although something is rejected |
| Filters.FilterThereAndBack | include/stlab/forest.hpp:356-394 | an iterator that has gone from the beginning of the range to its end goes back over the same visits |
| Adaptors.ChildVisits | include/stlab/forest.hpp:194-197 | the child iterators of a node visit the roots of its children, in order, for every node and for the root |
| SerialQueues.SerialInstance.Append | include/stlab/concurrency/serial_queue.hpp:141-157 | the locked region of `enqueue`: the caller that finds the queue idle gets the right to drain |
| SerialQueues.SerialInstance.SwapQueue | include/stlab/concurrency/serial_queue.hpp:101-104 | `all` takes the whole queue |
| SerialQueues.SerialInstance.PopTask | include/stlab/concurrency/serial_queue.hpp:113-116 | `single` takes one, without looking whether there is one |
| SerialQueues.SerialInstance.FindEmpty | include/stlab/concurrency/serial_queue.hpp:87-99 | a drain that finds nothing gives up the right to drain under the same lock |
| SerialQueues.EveryRunIsSerial | include/stlab/concurrency/serial_queue.hpp:87-121 | in both modes and every run: executed, running, taken and queued make up the order of enqueuing; one drain exactly while `_running` is set; a queue with something in it has a drain |
| SerialQueues.SingleNeverPopsEmpty | include/stlab/concurrency/serial_queue.hpp:113-116 | the unchecked pop of `single` always finds something |
| SerialQueues.DrainsProgress | include/stlab/concurrency/serial_queue.hpp:101-121 | a drain can always take a step, and each step brings the end nearer |
| SerialQueues.EveryTaskRuns | include/stlab/concurrency/serial_queue.hpp:101-121 | once nothing more is enqueued only so many steps remain, after which everything enqueued has run in order; the modes do not differ in this |
| SerialQueues.CanRunAll | include/stlab/concurrency/serial_queue.hpp:87-121 | from every state the drain can go on until everything enqueued has run |
| SerialQueues.TakesItsBatch | include/stlab/concurrency/serial_queue.hpp:101-121 | in every run `all` takes the whole queue, and `single` one task, of a queue that is not empty |
| SerialQueues.EnqueueNeverWaits | include/stlab/concurrency/serial_queue.hpp:141-157 | a task can be enqueued at any time, and comes last |
| SharedStates.SharedBase.Proceed | include/stlab/concurrency/future.hpp:1762-1772 | the locked region of a completion publishes the result and takes the continuations |
| SharedStates.SharedBase.AttachContinuation | include/stlab/concurrency/future.hpp:422-442 | the locked region of `recover` and `on_completion`: queued before publication, left to the caller after it |
| SharedStates.Promise.Assign | include/stlab/concurrency/future.hpp:714-722 | move assignment breaks the promise it overwrites, and nothing happens on self-assignment |
| SharedStates.Promise.SetOutcome | include/stlab/concurrency/future.hpp:729-745 | setting an outcome uses the claim up, and completes the state with that outcome if it is held |
| SharedStates.Promise.Destroy | include/stlab/concurrency/future.hpp:706-711 | a handle dropped with its claim breaks the promise |
| SharedStates.OneClaimStays | include/stlab/concurrency/future.hpp:706-749 | at most one handle has a claim on the state, none once completion has begun, one until then while a future is held |
| SharedStates.EveryRunKeepsFaith | include/stlab/concurrency/future.hpp:422-502 | in every run of moves, assignments, drops, completions and attachments the state is completed at most once and every continuation is accounted for, never submitted before publication |
| SharedStates.AllSubmitted | include/stlab/concurrency/future.hpp:1762-1772 | in the end each continuation has been submitted exactly once, those attached before publication in the order of attachment |
| SharedStates.ResultIsFinal | include/stlab/concurrency/future.hpp:490-502 | a published result never changes |
| SharedStates.PublishedIsWhatWasSet | include/stlab/concurrency/future.hpp:706-745 | in every run the published result is the outcome with which the claim was first used, read off the events: what was set, or a broken promise if the handle was dropped or overwritten |
| SharedStates.UseIsPublished | include/stlab/concurrency/future.hpp:1762-1777 | setting, dropping or overwriting the handle that has the claim, while a future is held, decides what is published, whatever follows |
| SharedStates.CanDeliver | include/stlab/concurrency/future.hpp:1762-1772 | from every state the threads can go on by themselves, for a known number of steps, after which a completed state is published and every continuation has been submitted |
| SharedStates.CallersNeverWait | include/stlab/concurrency/future.hpp:422-442 | handles can be made, moved, set and dropped at any time, and continuations attached while a future is held |
| Ownership.Owners.Release | include/stlab/concurrency/future.hpp:699-702 | giving up references ends exactly the states that nothing sustains any more, and leaves what the others hold |
| Ownership.Owners.DropFuture | include/stlab/concurrency/future.hpp:903-908 | the same for a future that is dropped |
| Ownership.Owners.Hold | include/stlab/concurrency/future.hpp:1297-1308 | a reduction holds the inner future; a detached future is held by its own state |
| Ownership.Owners.Forget | include/stlab/concurrency/future.hpp:1314-1318 | completion gives up exactly the futures named, and ends exactly the states that nothing sustains without them |
| Ownership.CanceledIffUnsustained | include/stlab/concurrency/future.hpp:747-749 | a producer is canceled exactly when no path of captured and held futures leads to its state from a future, or from a state held along that path; rings of states included |
| Ownership.CanceledIffUnreachable | include/stlab/concurrency/future.hpp:747-749 | without rings of several states: exactly when no future and no detached state reaches it |
| Ownership.SustainedBy | include/stlab/concurrency/future.hpp:747-749 | a state is sustained exactly if a future refers to it, or a state that is sustained holds it |
| Ownership.RingOutlivesFutures | include/stlab/concurrency/future.hpp:1297-1308 | a task that returns a continuation of its own future, all futures dropped: its state lives, though nothing outside reaches it |
| Ownership.DetachedLivesUntilForgotten | include/stlab/concurrency/future.hpp:443-462 | a detached state lives while it holds its own future, and is not sustained without it if it was the last |
| Ownership.CompleteDetached | include/stlab/concurrency/future.hpp:443-462 | completion of a detached state ends it if nothing else refers to it, and whatever only it sustained |
| Ownership.ReleaseRunsUpChain | include/stlab/concurrency/future.hpp:747-749 | a release ends a chain of states, each held by the one before alone, up to the first that something else sustains, and none from there on |
| Graphs.EveryScheduleAgrees | include/stlab/concurrency/future.hpp:422-441 | under every schedule each ready future of a finite graph has the outcome of direct recursive evaluation, nested futures flattened |
| Graphs.FinishedIsEvaluated | include/stlab/concurrency/future.hpp:1282-1336 | a schedule that cannot go on has completed every future so |
| Graphs.SchedulesEnd | include/stlab/concurrency/future.hpp:1282-1336 | a schedule takes at most three steps for each future |
| Graphs.ThenSkipsFailures | include/stlab/concurrency/future.hpp:928-934 | `then` hands a failure on |
| Graphs.EveryNodeDoes | include/stlab/concurrency/future.hpp:422-441 | in every run each ready future has the result of what its kind of node does with the futures it continues, and nothing is submitted before those are ready |
| Graphs.ThenApplies | include/stlab/concurrency/future.hpp:928-934 | a ready `then` has the outcome of its function on the value upstream, or of the future which that returned, or the failure upstream |
| Graphs.RecoverApplies | include/stlab/concurrency/future.hpp:422-441 | a ready `recover` has the outcome of its function on the outcome upstream, value or failure, or of the future which that returned |
| Graphs.PackageApplies | include/stlab/concurrency/future.hpp:1282-1336 | a ready package has the outcome of its function, or of the future which that returned |
| Joins.WhenShared.Done | include/stlab/concurrency/future.hpp:1427-1449 | the locked region of `done` |
| Joins.WhenShared.FinishRegistration | include/stlab/concurrency/future.hpp:1453-1461 | the locked region that ends registration |
| Joins.WhenShared.ReleaseInput | include/stlab/concurrency/future.hpp:1416-1422 | `dispatch` lets go of an input that is not needed |
| Joins.RightStays | include/stlab/concurrency/future.hpp:1433-1446 | counting down `_remaining` decides as an independent reading of the reports does |
| Joins.EveryRunIsSound | include/stlab/concurrency/future.hpp:1397-1474 | the invariants of the join hold in every interleaving of completion, attachment, report, registration, dispatch and cancellation |
| Joins.DispatchedOnce | include/stlab/concurrency/future.hpp:1416-1461 | the final task is submitted at most once, never undecided or while registering, and exactly once when decided, registered, dispatched, and still wanted |
| Joins.DispatchEnds | include/stlab/concurrency/future.hpp:1416-1422 | once decided and registered a join of n inputs has at most n + 2 steps of dispatching, and after them the final task has been submitted, if its result is wanted; until then there is a next step |
| Joins.DispatchSubmits | include/stlab/concurrency/future.hpp:1416-1422 | and those steps can be taken from every such state |
| Joins.UnneededAreReleased | include/stlab/concurrency/future.hpp:1418-1420 | when the final task is submitted the inputs let go are exactly all of them after a failure, and for `when_any` all but the chosen one |
| Joins.RunsEnd | include/stlab/concurrency/future.hpp:1397-1474 | a run of a join of n inputs has at most 5n + 4 events |
| Joins.StuckIsSubmitted | include/stlab/concurrency/future.hpp:1397-1474 | when all inputs are complete, the result is wanted, and no thread can take a step, the final task has been submitted: nothing leaves a join hanging |
| Joins.HeldUntilReleased | include/stlab/concurrency/future.hpp:1467-1471 | the result is wanted until its future goes away, and no observer finds the join gone before that |
| Joins.DecisionExplained | include/stlab/concurrency/future.hpp:1428-1446 | in terms of the inputs themselves: `when_any` takes an input that succeeded and reported first among those, and fails only if every input has failed; `when_all` fails with an input that failed, and succeeds only if every input has succeeded |
| Joins.AnyTakesFirstReport | include/stlab/concurrency/future.hpp:1428-1448 | a run in which input 0 completes first, and input 1 is taken |
| Joins.PromptAnyTakesFirst | include/stlab/concurrency/future.hpp:1428-1448 | when each completion is reported before the next, the first success to complete is taken |
| Joins.DecisionIsFinal | include/stlab/concurrency/future.hpp:1426-1432 | a decision never changes |
| Joins.ReportsDecide | include/stlab/concurrency/future.hpp:1433-1446 | when every input has reported there is a decision |
| Joins.ObserversReadKeptInputs | include/stlab/concurrency/future.hpp:1395-1396 | no input is released before every observer is attached, nor while an undecided join may read it |
| Joins.TaskReadsKeptInputs | include/stlab/concurrency/future.hpp:1639-1657 | without a failure, every input that the final task reads is kept, ready, and a value |
| TimedWaits.BlockingGetGuarded.SetResult | include/stlab/concurrency/await.hpp:109-124 | hands the outcome to the waiter, or back if the waiter has timed out |
| TimedWaits.BlockingGetGuarded.WaitFor | include/stlab/concurrency/await.hpp:126-131 | takes the outcome if it is there, and says that it timed out if not |
| TimedWaits.EveryRunIsFair | include/stlab/concurrency/await.hpp:103-152 | in every interleaving of completion with timeout the outcome is in one place |
| TimedWaits.OneHasTheOutcome | include/stlab/concurrency/await.hpp:140-152 | in the end exactly one of the result and the held future has the original outcome, and that is the one returned |
| TimedWaits.StoredIsTaken | include/stlab/concurrency/await.hpp:126-131 | a result that is there when the wait ends is what it brings back, even if the time is up |
| TimedWaits.AlwaysReturns | include/stlab/concurrency/await.hpp:103-152 | once the future is complete both sides can come to their end, without the time running out |
| TimedWaits.RunsAreShort | include/stlab/concurrency/await.hpp:103-152 | a run has at most five events |
| MergeQueues.MergeQueue.FrontAndPop | include/stlab/concurrency/channel.hpp:491-499 | takes the next message of any of the three strategies, in place |
| MergeQueues.MergeQueue.IsEmpty | include/stlab/concurrency/channel.hpp:482-484 | whether the strategy has a next message |
| MergeQueues.MergeQueue.Sizes | include/stlab/concurrency/channel.hpp:548-559 | the sizes that decide who may send again, without the queues not taken from |
| MergeQueues.ZipPairsUp | include/stlab/concurrency/channel.hpp:472-515 | for every interleaving of appends the k-th zipped message is the k-th message of every sender |
| MergeQueues.RoundRobinTakesTurns | include/stlab/concurrency/channel.hpp:520-569 | the k-th message is message k div n of sender k mod n |
| MergeQueues.UnorderedConserves | include/stlab/concurrency/channel.hpp:574-624 | nothing is lost or repeated, and the order of each sender is kept |
| MergeQueues.MayTake | include/stlab/concurrency/channel.hpp:472-624 | there is a next message exactly when every sender has sent more than was taken, when the sender whose turn it is has sent its next value, or when anything waits |
| MergeQueues.AppendNeverWaits | include/stlab/concurrency/channel.hpp:655-668 | a sender can append at any time, and what it appends is the last it has sent |
| Processes.SharedProcess.Enqueue | include/stlab/concurrency/channel.hpp:655-668 | a message starts an idle process |
| Processes.SharedProcess.RemoveSender | include/stlab/concurrency/channel.hpp:641-653 | the last sender closes the queue, and starts an idle process |
| Processes.SharedProcess.PopFromQueue | include/stlab/concurrency/channel.hpp:897-914 | a message and whom to clear, or the close |
| Processes.ClearsWhatItTook | include/stlab/concurrency/channel.hpp:908-911 | exactly the senders whose message was taken, and have no other waiting, are cleared |
| Processes.SharedProcess.FinishTask | include/stlab/concurrency/channel.hpp:849-857 | runs on exactly when there is a message or a close |
| Processes.SharedProcess.ClearToSend | include/stlab/concurrency/channel.hpp:870-894 | counts down, and at zero runs on or goes idle |
| Processes.SharedProcess.Suspend | include/stlab/concurrency/channel.hpp:1187-1197 | suspends for the receivers and itself if the least free room is at most 1, and else for itself |
| Processes.SuspendsExactly | include/stlab/concurrency/channel.hpp:674-726 | with a buffer of 1, and room subtracted as a `size_t`, it suspends for all its receivers unless every downstream queue has two messages or more, and then only for itself |
| Channels.InvStays | include/stlab/concurrency/channel.hpp:641-1207 | every event keeps the invariant of every process and of every edge |
| Channels.EveryRunIsSound | include/stlab/concurrency/channel.hpp:641-1207 | so it holds in every run |
| Channels.CreditsBalance | include/stlab/concurrency/channel.hpp:1186-1206 | the suspend count is the number of outstanding downstream messages, plus one while broadcasting |
| Channels.OneMessagePerEdge | include/stlab/concurrency/channel.hpp:655-668 | each edge between processes holds at most one message, which is unsent, or queued, or popped and not yet cleared |
| Channels.OneStepAtATime | include/stlab/concurrency/channel.hpp:1133-1171 | steps of one process never overlap; a process with something to do has a step scheduled or executing, or is suspended |
| Channels.BroadcastSuspends | include/stlab/concurrency/channel.hpp:1174-1197 | in every run the downstream queues of a process that broadcasts are empty, so that it suspends for all its receivers and itself |
| Channels.OneZeroPerBroadcast | include/stlab/concurrency/channel.hpp:870-894 | of the clear-to-sends that answer one broadcast exactly one reaches zero |
| Channels.NeverRunsAndCloses | include/stlab/concurrency/channel.hpp:858-860 | the assertion in `task_done` holds |
| Flows.EveryRunFlows | include/stlab/concurrency/channel.hpp:1134-1207 | what arrives over an edge is what was broadcast into it, in order; results come in the order of the messages |
| Flows.ClosesAfterDrain | include/stlab/concurrency/channel.hpp:849-868 | a process on a single-upstream chain becomes final only after it has passed on every message put into the chain |
| Flows.NoneRuns | include/stlab/concurrency/channel.hpp:870-914 | in a net of chains where nothing can happen nothing is suspended |
| Flows.RestIsDelivered | include/stlab/concurrency/channel.hpp:655-914 | and everything put in has been delivered through to every end: no wakeup is lost |
| Flows.OpenUntilClosed | include/stlab/concurrency/channel.hpp:641-653 | an edge from outside is open until its sender goes away |
| Flows.RestIsClosed | include/stlab/concurrency/channel.hpp:641-868 | in a net of chains where nothing can happen a process has ended, and let go of every queue downstream, exactly if the sender at the head of its chain has gone |
| Settling.EveryStepCosts | include/stlab/concurrency/channel.hpp:641-1207 | every event that is not from outside lowers a weight of the messages, steps and closings in the net |
| Settling.SettlesWithin | include/stlab/concurrency/channel.hpp:641-1207 | so a net left alone makes no more such events than its state allows, in whatever order |
| Settling.ComesToRest | include/stlab/concurrency/channel.hpp:641-1207 | from every state of every run it can go on by itself to a state of rest |
| Settling.LeftAloneDelivers | include/stlab/concurrency/channel.hpp:655-914 | a net of chains left alone comes to rest within that bound, and then has delivered everything that was put in, and has closed every process of a chain whose sender has gone, and no other |

## Left out

- Container.Forest.Insert: a position at the root's leading edge is excluded, where the source would corrupt the links without a check; the same holds for the destination of a splice, and for a range that ends there in `insert_parent`.
- Container.Forest.Splice: requires what the source leaves to its callers: a child range of `x`, a position outside it, and an exact count if one is given between two forests.
- Decode.Unflatten: excludes a value after the code has gone past the end round to the root, where the source would insert in front of the root and corrupt the links without a check.
- Rebuild.CopyWithin: excludes the positions for which the loop of the source does not end; `Rebuild.CopyRounds` is about those.
- Algorithms.EqualShape: weaker than its documentation when a size is not cached, as the code is; see above.
- Filters.FilterIterator.Decrement: excludes what would ask the predicate about the root, which has no value: a step back from the root that filters; and Filters.FilterIterator.Increment: the same of a step forward from `end()`. A range that begins or ends at the root's leading position is excluded for both.
- Joins.WhenShared.Done: the observer is called with a strong reference; that the join may be destroyed before it looks is the event `Ignore`.
- Processes.SharedProcess.ClearToSend: one step in the runs of a net, where the source takes the lock twice; a process that still waits for a clear-to-send is not final, so the first look changes nothing.
- Processes.SharedProcess.RemoveSender: counting down and closing are one step in the runs of a net, where the source counts down before it takes the lock; until it does, no sender is left that could tell the difference.
- Flows.ClosesAfterDrain: says nothing about processes with several upstream ones, whose leftover unpaired messages the source drops.
- Values are constants in the nodes: writing through iterators, and moving out of nodes, are not modelled. Nodes are dropped, not freed.
- `forest::reverse` and `unsafe::reverse_nodes`: the loop behind them copies the end of the range where its contract needs the beginning (include/stlab/algorithm/reverse.hpp:49), so it corrupts the links; nothing is claimed of it.
- Move construction, assignment and swap of forests, which are a splice of everything; `child_adaptor`, `find_parent`, and the reverse and depth iterators, which add little to the iterators modelled.
- A forest is used by one thread; its atomic size cache is a plain field.
- Executors are multisets of submitted steps that run in any order. The serial queue, the graphs of continuations and the channels assume that each is run; a join allows its result to be given up.
- `await_for` of a future that is ready already returns it at once; only the wait itself is modelled.
- Move-only futures, coroutine adapters, task groups, timers and the default executors.
- Graphs models tasks as functions on values; the locked regions that submit them are in SharedStates.
- Ownership counts references one at a time; it does not model threads that release at once.
- Channels: buffer sizes other than 1, processes with `await` and `yield`, timeouts, errors and exceptions, receivers attached or dropped while messages flow, and senders from outside into a queue that a process feeds.
