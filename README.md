# Donation bundles, subtables and CART index lists

This project models three pieces of the fastlib/mlpack code base in Dafny.

**The donation bundle builder** is `DistributedDualtreeTaskList` in
`core/parallel/distributed_dualtree_task_list.h`. Module
`DistributedDualtreeTaskLists` (`task_list.dfy`) models it.
- One rank uses it to collect (query, references) work for another rank.
- Subtables are kept in a budgeted cache. The cache is a vector of
  (subtable, is-query, reference-count) slots plus an identity→position map.
  The identity is (rank, begin, count), ordered by `ComparatorType`.
- Admission charges the point budget and eviction refunds it. Eviction is
  swap-and-pop.
- `push_back` packs a query's reference tasks greedily: first fit, stopping
  at the first one that does not fit. It withdraws a query none of whose
  references fit, and otherwise locks the query for the destination.
- `Export` rebuilds the donated lists in the receiving queue.
- `save`/`load` write and read a length-prefixed integer image.
- The distributed task queue's source is not part of this model. Module
  `TaskQueues` (`task_queue.dfy`) stands in for the part of its interface
  that the builder calls.

**The subtable handle** is `SubTable` in `core/table/sub_table.h`.
Modules `SubTables` (`sub_table.dfy`) and `SubTableTree`
(`sub_table_tree.dfy`) model it.
- Its identity is (rank, begin, count), and it has a lock state.
- It is either an alias or the owner of its table. `Alias` copies without
  taking ownership, `operator=` steals ownership, and `Destruct` is
  idempotent.
- Its image is written by `save` and read by `load`. The tree is flattened
  by `FillTreeNodes_` into a pre-order (node, parent index) list. `load`
  re-links that list into a tree, choosing the left or right child slot by
  comparing `begin`.
- Proved, for well-formed trees (every inner node has both children, the
  left one starting at its parent's begin and the right one elsewhere):
  flatten-then-rebuild gives back the same tree, and the whole image
  round-trips through `save` and `load`. The task list's image round-trips
  when its cache holds at least one subtable.

**The CART training set index** is `TrainingSet` in
`fastlib2/contrib/jim/cart/training_set.h`. Modules `SortedLists`
(`sorted_lists.dfy`), `Partitions` (`partitions.dfy`) and `TrainingSets`
(`training_set.dfy`) model it.
- For each ordinal feature it keeps a singly linked list of point indices in
  value order (`order_`), built by the linked-list merge sort
  `SortOrdinalFeature_`, and back links (`back_order_`).
- `MatrixPartition` partitions the points of a node in place, Hoare-style.
  First it cuts every feature's list into a left list and a right list. Then
  it swaps points across the split. Each swap moves the data columns, the
  split entries and `old_from_new` together and relinks every list.
- Feature values are integers, with `None` standing for a missing (NaN)
  value.

Objects whose fields the C++ updates in place are Dafny classes:
- `SubTable`, `DistributedDualtreeTaskList` and `TrainingSet`;
- the queue's interface, `TaskQueue`.

Their methods state the whole new state. They are proved against value-level
specification functions:
- `Admit`, `Release`, `Pack`, `Exported`, `EncodeTaskList` and `ParseTaskList`
  for the builder;
- `Flatten`, `Links`, `EncodeImage` and `ParseImage` for the subtable;
- `Side`, `Relinked`, `Moved` and `SortRange` for the training set.

The lemmas beside them prove what the source promises:
- consistency of the map and the vector;
- budget conservation;
- first-fit and early-stop packing;
- round trips;
- that the partitioned lists index the two halves of the block.

Where the code and its comments disagree, the model follows the code. For
example, `has_same_subtable_id` ignores the rank although the identity
includes it. The first pick of the merge goes to the right list on a tie,
while later picks go to the left list.

## Model

Paths are relative to the repository root:
- TL is `fastlib/trunk/contrib/dongryel/thesis_research/core/parallel/distributed_dualtree_task_list.h`;
- ST is `fastlib/trunk/contrib/dongryel/thesis_research/core/table/sub_table.h`;
- TS is `fastlib2/contrib/jim/cart/training_set.h`.

Each row gives the full path.

| member | source | states |
|---|---|---|
| DistributedDualtreeTaskLists.ComparatorIsStrictTotalOrder | fastlib/trunk/contrib/dongryel/thesis_research/core/parallel/distributed_dualtree_task_list.h:46-53 | the identity comparator is irreflexive, asymmetric, transitive and total on identities |
| DistributedDualtreeTaskLists.Append | fastlib/trunk/contrib/dongryel/thesis_research/core/parallel/distributed_dualtree_task_list.h:219-236 | appending a slot of a new identity and mapping it to the last index keeps the map and vector consistent and conserves budget plus held points |
| DistributedDualtreeTaskLists.Admit | fastlib/trunk/contrib/dongryel/thesis_research/core/parallel/distributed_dualtree_task_list.h:192-242 | `push_back_` keeps the cache consistent and conserves budget plus held points; it returns -1 exactly when the identity is new and its count exceeds the remaining budget, and otherwise the position the identity maps to; it only adds map entries and never removes slots |
| DistributedDualtreeTaskLists.AdmitExisting | fastlib/trunk/contrib/dongryel/thesis_research/core/parallel/distributed_dualtree_task_list.h:195-212 | a held identity returns its existing position with budget and map unchanged; a reference admission adds one to its count, a query admission sets the query flag and aliases the handle; other slots are untouched |
| DistributedDualtreeTaskLists.AdmitNew | fastlib/trunk/contrib/dongryel/thesis_research/core/parallel/distributed_dualtree_task_list.h:215-237 | a new identity that fits appends a slot (query, 0) or (reference, 1), maps the identity to the last index, deducts its count and returns that index |
| DistributedDualtreeTaskLists.AdmitRejects | fastlib/trunk/contrib/dongryel/thesis_research/core/parallel/distributed_dualtree_task_list.h:214-241 | a new identity that does not fit returns -1 and leaves slots, map and budget unchanged |
| DistributedDualtreeTaskLists.Release | fastlib/trunk/contrib/dongryel/thesis_research/core/parallel/distributed_dualtree_task_list.h:138-187 | `pop_` (corrected) keeps the cache consistent and conserves budget plus held points |
| DistributedDualtreeTaskLists.Evict | fastlib/trunk/contrib/dongryel/thesis_research/core/parallel/distributed_dualtree_task_list.h:163-185 | eviction refunds the slot's count, moves the last slot into the hole and drops the last, erases the evicted identity and remaps the moved one to the hole (only when a slot actually moved); the cache stays consistent |
| DistributedDualtreeTaskLists.EvictConsistent | fastlib/trunk/contrib/dongryel/thesis_research/core/parallel/distributed_dualtree_task_list.h:163-185 | the swap-and-pop state is consistent: every slot maps to its own position and every entry names a slot |
| DistributedDualtreeTaskLists.ReleaseKeeps | fastlib/trunk/contrib/dongryel/thesis_research/core/parallel/distributed_dualtree_task_list.h:150-159 | releasing a claim that is not the last clears the query flag or lowers the count of that slot only |
| DistributedDualtreeTaskLists.ReleaseEvicts | fastlib/trunk/contrib/dongryel/thesis_research/core/parallel/distributed_dualtree_task_list.h:163-185 | releasing the last claim refunds the slot's points, erases its identity, moves the last slot into the hole and remaps it, and keeps every other identity's position |
| DistributedDualtreeTaskLists.WithdrawNewQuery | fastlib/trunk/contrib/dongryel/thesis_research/core/parallel/distributed_dualtree_task_list.h:372-377 | withdrawing a query that was just admitted as a new identity restores the cache exactly |
| DistributedDualtreeTaskLists.ReleaseAsWritten | fastlib/trunk/contrib/dongryel/thesis_research/core/parallel/distributed_dualtree_task_list.h:138-187 | `pop_` as written never grows the slot vector |
| DistributedDualtreeTaskLists.ReleaseAsWrittenLeavesStaleEntry | fastlib/trunk/contrib/dongryel/thesis_research/core/parallel/distributed_dualtree_task_list.h:166-184 | `pop_` as written, evicting the last of two slots, leaves the evicted identity mapped to position 1 of a one-slot vector: the cache is inconsistent |
| DistributedDualtreeTaskLists.WithdrawKeepsPositions | fastlib/trunk/contrib/dongryel/thesis_research/core/parallel/distributed_dualtree_task_list.h:372-377 | withdrawing a query that was not already donated keeps the vector's length and the position map, so earlier donated lists still name the same slots |
| DistributedDualtreeTaskLists.WithdrawDonatedQueryEvicts | fastlib/trunk/contrib/dongryel/thesis_research/core/parallel/distributed_dualtree_task_list.h:163-185 | withdrawing a query that was already donated, with no reference use, evicts its slot: the vector shrinks by one and the identity leaves the map |
| DistributedDualtreeTaskLists.BundleDonate | fastlib/trunk/contrib/dongryel/thesis_research/core/parallel/distributed_dualtree_task_list.h:340-388 | appending a donated list of held positions after the cache only grew keeps the invariant: consistency, conserved budget, every recorded position names a held slot, no empty list |
| DistributedDualtreeTaskLists.ReleaseWithdrawsLastSlot | fastlib/trunk/contrib/dongryel/thesis_research/core/parallel/distributed_dualtree_task_list.h:163-185 | the corrected `pop_` on the same input leaves one slot, maps only the remaining identity to 0 and refunds the points |
| DistributedDualtreeTaskLists.Pack | fastlib/trunk/contrib/dongryel/thesis_research/core/parallel/distributed_dualtree_task_list.h:344-368 | packing keeps the cache consistent, conserves budget plus held points, returns in-range positions, at most one per task, and changes nothing when no task is taken; `PackNamesReferences` states what each position names |
| DistributedDualtreeTaskLists.PackNamesReferences | fastlib/trunk/contrib/dongryel/thesis_research/core/parallel/distributed_dualtree_task_list.h:351-361 | the j-th packed position is the slot the final cache maps the j-th task's reference to, the position `push_back` records for the task it pops at that step |
| DistributedDualtreeTaskLists.PackStopsAtFirstMisfit | fastlib/trunk/contrib/dongryel/thesis_research/core/parallel/distributed_dualtree_task_list.h:351-354 | the first task not taken, if any, is a new identity that does not fit the budget left |
| DistributedDualtreeTaskLists.PackIgnoresLaterTasks | fastlib/trunk/contrib/dongryel/thesis_research/core/parallel/distributed_dualtree_task_list.h:344-354 | tasks after the first misfit are never tried: replacing them does not change the result |
| DistributedDualtreeTaskLists.PackStep | fastlib/trunk/contrib/dongryel/thesis_research/core/parallel/distributed_dualtree_task_list.h:351-361 | a taken task is admitted as a reference from where the previous one left the cache, and the rest is packed from there |
| DistributedDualtreeTaskLists.PackStepsDone | fastlib/trunk/contrib/dongryel/thesis_research/core/parallel/distributed_dualtree_task_list.h:344-368 | the loop's steps, once all tasks are taken or the next one misfits, equal the packing |
| DistributedDualtreeTaskLists.BudgetExample | fastlib/trunk/contrib/dongryel/thesis_research/core/parallel/distributed_dualtree_task_list.h:329-368 | with 100 points: a 40-point query leaves 60, a 30-point reference fits, a 50-point one does not, and the 10-point one behind it is never tried |
| DistributedDualtreeTaskLists.DonationTasks | fastlib/trunk/contrib/dongryel/thesis_research/core/parallel/distributed_dualtree_task_list.h:300-307 | one task per listed reference position |
| DistributedDualtreeTaskLists.Exported | fastlib/trunk/contrib/dongryel/thesis_research/core/parallel/distributed_dualtree_task_list.h:292-308 | one new query list per donated list |
| DistributedDualtreeTaskLists.ExportedTaskCount | fastlib/trunk/contrib/dongryel/thesis_research/core/parallel/distributed_dualtree_task_list.h:292-308 | the number of tasks pushed equals the sum of the reference-list lengths |
| DistributedDualtreeTaskLists.SaveSlotList | fastlib/trunk/contrib/dongryel/thesis_research/core/parallel/distributed_dualtree_task_list.h:415-425 | the save loop writes the slots' image and leaves the slots as saved |
| DistributedDualtreeTaskLists.LoadedSlots | fastlib/trunk/contrib/dongryel/thesis_research/core/parallel/distributed_dualtree_task_list.h:450-459 | one loaded slot per saved slot |
| DistributedDualtreeTaskLists.ParseEncodeSlots | fastlib/trunk/contrib/dongryel/thesis_research/core/parallel/distributed_dualtree_task_list.h:450-459 | reading the written slots gives the loaded slots and the rest of the stream |
| DistributedDualtreeTaskLists.ParseEncodeDonated | fastlib/trunk/contrib/dongryel/thesis_research/core/parallel/distributed_dualtree_task_list.h:462-473 | reading the written donated lists gives them back unchanged and the rest of the stream |
| DistributedDualtreeTaskLists.TaskListRoundTrip | fastlib/trunk/contrib/dongryel/thesis_research/core/parallel/distributed_dualtree_task_list.h:407-475 | `load` of what `save` wrote returns the donated lists unchanged and one slot per saved slot with the same identity, tree, count and saved point ranges, owning cache block i |
| DistributedDualtreeTaskLists.EmptyTaskListRoundTrip | fastlib/trunk/contrib/dongryel/thesis_research/core/parallel/distributed_dualtree_task_list.h:407-475 | with no subtables `save` writes only the count 0, and `load` reads that as nothing to load, so the donated lists are not carried |
| DistributedDualtreeTaskLists.LoadedSlotsAt | fastlib/trunk/contrib/dongryel/thesis_research/core/parallel/distributed_dualtree_task_list.h:452-458 | loaded slot i comes from saved slot i with cache block id first + i |
| DistributedDualtreeTaskLists.EncodeSlotsAppend | fastlib/trunk/contrib/dongryel/thesis_research/core/parallel/distributed_dualtree_task_list.h:416-418 | the image of one more slot is the old image followed by that subtable and its count |
| DistributedDualtreeTaskLists.EncodeDonatedAppend | fastlib/trunk/contrib/dongryel/thesis_research/core/parallel/distributed_dualtree_task_list.h:430-437 | the image of one more donated list is the old image followed by query, length and positions |
| DistributedDualtreeTaskLists.DistributedDualtreeTaskList.constructor | fastlib/trunk/contrib/dongryel/thesis_research/core/parallel/distributed_dualtree_task_list.h:254-259 | destination 0, no queue, zero budget, empty cache and lists |
| DistributedDualtreeTaskLists.DistributedDualtreeTaskList.FindSubTable_ | fastlib/trunk/contrib/dongryel/thesis_research/core/parallel/distributed_dualtree_task_list.h:119-133 | found exactly when the identity is mapped, with the live slot of that identity; -1 otherwise |
| DistributedDualtreeTaskLists.DistributedDualtreeTaskList.PushBack_ | fastlib/trunk/contrib/dongryel/thesis_research/core/parallel/distributed_dualtree_task_list.h:192-242 | the new cache and result are those of `Admit` |
| DistributedDualtreeTaskLists.DistributedDualtreeTaskList.Pop_ | fastlib/trunk/contrib/dongryel/thesis_research/core/parallel/distributed_dualtree_task_list.h:138-187 | the new cache is that of `Release` |
| DistributedDualtreeTaskLists.DistributedDualtreeTaskList.EvictSlot_ | fastlib/trunk/contrib/dongryel/thesis_research/core/parallel/distributed_dualtree_task_list.h:163-185 | the in-place swap-and-pop gives the cache of `Evict` |
| DistributedDualtreeTaskLists.DistributedDualtreeTaskList.Init | fastlib/trunk/contrib/dongryel/thesis_research/core/parallel/distributed_dualtree_task_list.h:313-322 | sets destination, queue and remaining budget; the invariant holds with that budget |
| DistributedDualtreeTaskLists.DistributedDualtreeTaskList.PushBack | fastlib/trunk/contrib/dongryel/thesis_research/core/parallel/distributed_dualtree_task_list.h:329-389 | a query that does not fit: false, nothing changes; no reference fits: false, query withdrawn, lists and queue unchanged; otherwise true, the cache is `Pack`'s, one list (query position, packed positions) is appended, the taken tasks are removed from the queue top, their work is deducted and the query is locked for the destination; the invariant (consistency, conserved budget, every donated position names a held slot, no empty list) is kept |
| DistributedDualtreeTaskLists.DistributedDualtreeTaskList.DonateQuery_ | fastlib/trunk/contrib/dongryel/thesis_research/core/parallel/distributed_dualtree_task_list.h:340-388 | the same three outcomes once the query is admitted |
| DistributedDualtreeTaskLists.DistributedDualtreeTaskList.TakeTop_ | fastlib/trunk/contrib/dongryel/thesis_research/core/parallel/distributed_dualtree_task_list.h:345-367 | one turn of the packing loop: a misfit ends packing with nothing changed; a fit pops the task, records the position and deducts the work |
| DistributedDualtreeTaskLists.DistributedDualtreeTaskList.TakeReferences | fastlib/trunk/contrib/dongryel/thesis_research/core/parallel/distributed_dualtree_task_list.h:344-368 | the loop computes `Pack`: cache, positions, queue suffix and work deducted equal to the taken tasks' total |
| DistributedDualtreeTaskLists.DistributedDualtreeTaskList.Export | fastlib/trunk/contrib/dongryel/thesis_research/core/parallel/distributed_dualtree_task_list.h:265-309 | the queue gains one cache block per slot (with its count) and the query lists of `Exported` |
| DistributedDualtreeTaskLists.DistributedDualtreeTaskList.ExportSlots_ | fastlib/trunk/contrib/dongryel/thesis_research/core/parallel/distributed_dualtree_task_list.h:274-289 | cache blocks appended in slot order; slot k gets block old size + k |
| DistributedDualtreeTaskLists.DistributedDualtreeTaskList.ExportDonation_ | fastlib/trunk/contrib/dongryel/thesis_research/core/parallel/distributed_dualtree_task_list.h:292-308 | one new list for the query's cache copy holding `DonationTasks` |
| DistributedDualtreeTaskLists.DistributedDualtreeTaskList.ReleaseCache | fastlib/trunk/contrib/dongryel/thesis_research/core/parallel/distributed_dualtree_task_list.h:391-402 | hands back `CacheReleases` of the slots, in order |
| DistributedDualtreeTaskLists.DistributedDualtreeTaskList.Save | fastlib/trunk/contrib/dongryel/thesis_research/core/parallel/distributed_dualtree_task_list.h:407-439 | writes `EncodeTaskList` of the slots and lists; slots become `SavedSlots` |
| DistributedDualtreeTaskLists.DistributedDualtreeTaskList.SaveSlots_ | fastlib/trunk/contrib/dongryel/thesis_research/core/parallel/distributed_dualtree_task_list.h:415-425 | writes the slots' image; slots become `SavedSlots` |
| DistributedDualtreeTaskLists.DistributedDualtreeTaskList.SaveDonated_ | fastlib/trunk/contrib/dongryel/thesis_research/core/parallel/distributed_dualtree_task_list.h:428-437 | writes the donated lists' image |
| DistributedDualtreeTaskLists.DistributedDualtreeTaskList.Load | fastlib/trunk/contrib/dongryel/thesis_research/core/parallel/distributed_dualtree_task_list.h:443-475 | succeeds exactly when the input parses; a positive count replaces slots and lists by the parsed ones; otherwise nothing changes |
| DistributedDualtreeTaskLists.DistributedDualtreeTaskList.LoadSlots_ | fastlib/trunk/contrib/dongryel/thesis_research/core/parallel/distributed_dualtree_task_list.h:450-459 | the loop reads what `ParseSlots` reads |
| DistributedDualtreeTaskLists.DistributedDualtreeTaskList.LoadSlot_ | fastlib/trunk/contrib/dongryel/thesis_research/core/parallel/distributed_dualtree_task_list.h:454-458 | one subtable loaded into a fresh owning handle of that cache block, then its count; fails exactly when the image or the count is missing |
| DistributedDualtreeTaskLists.DistributedDualtreeTaskList.LoadDonated_ | fastlib/trunk/contrib/dongryel/thesis_research/core/parallel/distributed_dualtree_task_list.h:462-473 | the loop reads what `ParseDonated` reads |
| TaskQueues.TotalWorkPrefix | fastlib/trunk/contrib/dongryel/thesis_research/core/parallel/distributed_dualtree_task_list.h:347-366 | the work deducted over one more task grows by that task's work |
| TaskQueues.TaskQueue.Pop | fastlib/trunk/contrib/dongryel/thesis_research/core/parallel/distributed_dualtree_task_list.h:359 | removes the top task of that list only |
| TaskQueues.TaskQueue.DecrementRemainingLocalComputation | fastlib/trunk/contrib/dongryel/thesis_research/core/parallel/distributed_dualtree_task_list.h:365-366 | lowers the rank's remaining work by the amount |
| TaskQueues.TaskQueue.LockQuerySubTable | fastlib/trunk/contrib/dongryel/thesis_research/core/parallel/distributed_dualtree_task_list.h:385-386 | the list's query becomes locked for the rank |
| TaskQueues.TaskQueue.PushSubTable | fastlib/trunk/contrib/dongryel/thesis_research/core/parallel/distributed_dualtree_task_list.h:283-285 | a new cache block at the end holding the subtable and its count; returns its id |
| TaskQueues.TaskQueue.PushNewQueue | fastlib/trunk/contrib/dongryel/thesis_research/core/parallel/distributed_dualtree_task_list.h:297-299 | appends an empty list for the query, tagged with the rank; returns its index |
| TaskQueues.TaskQueue.PushTask | fastlib/trunk/contrib/dongryel/thesis_research/core/parallel/distributed_dualtree_task_list.h:305-306 | appends one task weighted by the metric to that list |
| TaskQueues.TaskQueue.ReleaseCache | fastlib/trunk/contrib/dongryel/thesis_research/core/parallel/distributed_dualtree_task_list.h:397-400 | records the (block, count) pair handed back |
| SubTableTree.FillTreeNodes | fastlib/trunk/contrib/dongryel/thesis_research/core/table/sub_table.h:185-217 | appends the pre-order list `Flatten` of the subtree and appends the (begin, count) flag exactly when the node is the start node (parent < 0) and the flag is requested |
| SubTableTree.FlattenParents | fastlib/trunk/contrib/dongryel/thesis_research/core/table/sub_table.h:185-217 | the first entry carries the given parent and every later entry's parent lies strictly before it, within the subtree |
| SubTableTree.StartNodeFlattening | fastlib/trunk/contrib/dongryel/thesis_research/core/table/sub_table.h:338-341 | from the start node: entry 0 is the start node with parent -1, every later parent index is smaller than its own |
| SubTableTree.LeafHasNoChildren | fastlib/trunk/contrib/dongryel/thesis_research/core/table/sub_table.h:205-215 | a leaf contributes no children: no entry names it as parent |
| SubTableTree.Links | fastlib/trunk/contrib/dongryel/thesis_research/core/table/sub_table.h:418-429 | child links after attaching entries point forward |
| SubTableTree.LinksStep | fastlib/trunk/contrib/dongryel/thesis_research/core/table/sub_table.h:418-429 | one attachment changes a slot exactly when that entry is a left (same begin) or right candidate child of its parent |
| SubTableTree.LinksUniqueChild | fastlib/trunk/contrib/dongryel/thesis_research/core/table/sub_table.h:418-429 | a slot with exactly one candidate child holds it |
| SubTableTree.LinksNoChild | fastlib/trunk/contrib/dongryel/thesis_research/core/table/sub_table.h:418-429 | a slot with no candidate child stays null |
| SubTableTree.InnerChildren | fastlib/trunk/contrib/dongryel/thesis_research/core/table/sub_table.h:205-215 | an inner node's only left candidate is its left subtree's root and its only right candidate its right subtree's root |
| SubTableTree.DecodeFlatten | fastlib/trunk/contrib/dongryel/thesis_research/core/table/sub_table.h:418-431 | a well-formed subtree laid out in a closed range is decoded exactly from the final links |
| SubTableTree.RebuildFlatten | fastlib/trunk/contrib/dongryel/thesis_research/core/table/sub_table.h:418-431 | rebuilding the flattened list of a well-formed tree gives back the tree, so reflattening gives the same node count and parent list |
| SubTableTree.RelinkNodes | fastlib/trunk/contrib/dongryel/thesis_research/core/table/sub_table.h:418-429 | the pointer-correction loop produces the child arrays `Links` describes |
| SubTables.ParseImage | fastlib/trunk/contrib/dongryel/thesis_research/core/table/sub_table.h:397-484 | an accepted image has a node list `load` can re-link |
| SubTables.ParseEncodeNodes | fastlib/trunk/contrib/dongryel/thesis_research/core/table/sub_table.h:406-414 | reading n written nodes gives them back and the rest of the stream |
| SubTables.ParseEncodeFlags | fastlib/trunk/contrib/dongryel/thesis_research/core/table/sub_table.h:440-448 | reading n written ranges gives them back and the rest of the stream |
| SubTables.ParseEncodeImage | fastlib/trunk/contrib/dongryel/thesis_research/core/table/sub_table.h:326-394 | what `save` writes, `load` reads back exactly, leaving what follows untouched |
| SubTables.LoadedState | fastlib/trunk/contrib/dongryel/thesis_research/core/table/sub_table.h:591-611 | a handle prepared by `Init(id, false)` and loaded owns its table, is unlocked, has that block id and the image's identity |
| SubTables.SaveLoadState | fastlib/trunk/contrib/dongryel/thesis_research/core/table/sub_table.h:326-484 | save then load keeps identity, start tree, saved ranges and the new-from-old flag |
| SubTables.SubTable.constructor | fastlib/trunk/contrib/dongryel/thesis_research/core/table/sub_table.h:493-506 | unlocked, no table or start node, an alias, new-from-old flag set, block id 0 |
| SubTables.SubTable.SubTableId | fastlib/trunk/contrib/dongryel/thesis_research/core/table/sub_table.h:224-227 | the handle's identity is its value's identity |
| SubTables.SubTable.HasSameSubTableId | fastlib/trunk/contrib/dongryel/thesis_research/core/table/sub_table.h:584-587 | true exactly when begin and count match; the rank is not compared |
| SubTables.SubTable.Lock | fastlib/trunk/contrib/dongryel/thesis_research/core/table/sub_table.h:533-535 | records the rank; locked exactly when that rank is non-negative |
| SubTables.SubTable.Unlock | fastlib/trunk/contrib/dongryel/thesis_research/core/table/sub_table.h:529-531 | rank -1, unlocked |
| SubTables.SubTable.SetStartNode | fastlib/trunk/contrib/dongryel/thesis_research/core/table/sub_table.h:229-234 | the ranges become the single (begin, count) of the new start node |
| SubTables.SubTable.Destruct | fastlib/trunk/contrib/dongryel/thesis_research/core/table/sub_table.h:258-269 | frees exactly when an owner of a non-null table; afterwards an alias of nothing, so a second call frees nothing |
| SubTables.SubTable.Alias | fastlib/trunk/contrib/dongryel/thesis_research/core/table/sub_table.h:278-293 | copies every field of the source and is an alias |
| SubTables.SubTable.Assign | fastlib/trunk/contrib/dongryel/thesis_research/core/table/sub_table.h:298-315 | copies every field, takes the source's ownership flag and marks the source an alias, so at most one of the two owns |
| SubTables.SubTable.InitFromTable | fastlib/trunk/contrib/dongryel/thesis_research/core/table/sub_table.h:616-629 | an alias of the table with its rank as originating rank and the given start node and flag |
| SubTables.SubTable.InitOwned | fastlib/trunk/contrib/dongryel/thesis_research/core/table/sub_table.h:591-611 | owns a fresh table, records the block id, no start node |
| SubTables.SubTable.Save | fastlib/trunk/contrib/dongryel/thesis_research/core/table/sub_table.h:326-394 | writes `EncodeImage` of the saved value; ranges become `SavedFlags` |
| SubTables.SubTable.Load | fastlib/trunk/contrib/dongryel/thesis_research/core/table/sub_table.h:397-484 | fails without change exactly when the input does not parse; otherwise sets rank, rebuilt tree as tree and start node, ranges (registered with the table) and flag |
| SortedLists.Merge | fastlib2/contrib/jim/cart/training_set.h:33-62 | splices two sorted lists over disjoint points into one list of exactly their points, without repeats, ascending, rewriting only links of points on them |
| SortedLists.MergePick | fastlib2/contrib/jim/cart/training_set.h:46-56 | one pick keeps the merged prefix linked, ascending and no greater than both next values |
| SortedLists.MergeFinish | fastlib2/contrib/jim/cart/training_set.h:57-61 | linking the prefix to the rest of the unfinished list completes the merge |
| SortedLists.SortRange | fastlib2/contrib/jim/cart/training_set.h:18-73 | from the head, `order` visits each present point of [start, stop) exactly once in non-decreasing order and ends at -1; missing points are -2; a one-point range answers its index or -2; a longer range with no present value answers -1; links outside the range are unchanged |
| SortedLists.CoversHalves | fastlib2/contrib/jim/cart/training_set.h:63-72 | when one half has no present value, the other half's head and list serve the whole range |
| SortedLists.BackLinksUpTo | fastlib2/contrib/jim/cart/training_set.h:110-116 | the back-link writes keep the array's length |
| SortedLists.BackLinksComplete | fastlib2/contrib/jim/cart/training_set.h:110-116 | writing all back links of a list gives its back links and changes nothing else |
| SortedLists.ReachedAsWritten | fastlib2/contrib/jim/cart/training_set.h:112 | the loop as written stops at the first later entry equal to point 0 |
| SortedLists.BackLinksAsWritten | fastlib2/contrib/jim/cart/training_set.h:110-116 | the loop as written writes only the back links up to that stop |
| SortedLists.BackLinksAsWrittenMissesPointZero | fastlib2/contrib/jim/cart/training_set.h:112 | for the list 1, 0 the loop as written leaves point 0's back link at -2 instead of 1 |
| SortedLists.AllMissingHeadIsNegative | fastlib2/contrib/jim/cart/training_set.h:109-111 | a feature with no present value sorts to an empty list with a negative head, which lines 110-111 use as an index |
| SortedLists.BackLinks | fastlib2/contrib/jim/cart/training_set.h:110-116 | the corrected loop writes the back links of the whole list (head -1) and nothing else |
| SortedLists.FeatureIndexedIntro | fastlib2/contrib/jim/cart/training_set.h:106-116 | a sorted list with back links over an all -2 array indexes the feature |
| Partitions.SideUpTo | fastlib2/contrib/jim/cart/training_set.h:141-158 | the entries sent to one side so far lie in the block and have split 1 exactly for the left side |
| Partitions.Side | fastlib2/contrib/jim/cart/training_set.h:137-168 | the entries of the whole list on one side, same property |
| Partitions.OpenAppend | fastlib2/contrib/jim/cart/training_set.h:143-149 | appending a point to a list under construction keeps it linked and back linked |
| Partitions.OpenClose | fastlib2/contrib/jim/cart/training_set.h:161-166 | ending a list with -1 makes it a threaded list |
| Partitions.SidesSoFar | fastlib2/contrib/jim/cart/training_set.h:141-158 | the two sides so far do not repeat, do not share entries and hold no later entry |
| Partitions.VisitLeft | fastlib2/contrib/jim/cart/training_set.h:142-149 | an entry with split 1 goes to the end of the left list (as head when empty), keeping order and frame |
| Partitions.VisitRight | fastlib2/contrib/jim/cart/training_set.h:150-158 | any other entry goes to the end of the right list |
| Partitions.SplitClose | fastlib2/contrib/jim/cart/training_set.h:161-166 | both lists ended with -1 are the two sides of the whole list |
| Partitions.SplitList | fastlib2/contrib/jim/cart/training_set.h:139-166 | one feature's list becomes the left side (split 1) and the right side, each in the original order, threaded both ways and ended by -1, heads returned (-1 when empty); points off the list keep their links |
| Partitions.SplitPartitions | fastlib2/contrib/jim/cart/training_set.h:137-168 | splitting an indexed block's list gives the two-list state |
| Partitions.PartitionedHalves | fastlib2/contrib/jim/cart/training_set.h:241-247 | once split is 1 exactly before `left`, the left list indexes [start, left) and the right list [left, stop) |
| Partitions.Relink | fastlib2/contrib/jim/cart/training_set.h:199-227 | the relinking gives the lists with l and r exchanged throughout the block, heads following, nothing changed outside |
| Partitions.ForwardRelinked | fastlib2/contrib/jim/cart/training_set.h:205-216 | every successor after the writes is the old one with l and r exchanged |
| Partitions.BackwardRelinked | fastlib2/contrib/jim/cart/training_set.h:210-227 | every predecessor after the writes is the old one with l and r exchanged |
| Partitions.PartitionedReady | fastlib2/contrib/jim/cart/training_set.h:199-227 | in the two-list state, a right-bound l and a left-bound r meet the relinking's assumptions |
| Partitions.ListLinks | fastlib2/contrib/jim/cart/training_set.h:199-203 | a threaded list's successor is the next entry, predecessor the one before, and only the head has -1 |
| Partitions.RightPointLinks | fastlib2/contrib/jim/cart/training_set.h:215-219 | a right-bound point's successor is right-bound; it is the right head exactly when it has no predecessor |
| Partitions.LeftPointLinks | fastlib2/contrib/jim/cart/training_set.h:222-226 | a left-bound point's successor is left-bound; it is the left head exactly when it has no predecessor |
| Partitions.ThreadedRename | fastlib2/contrib/jim/cart/training_set.h:196-228 | exchanging two points in a list and its links keeps it threaded |
| Partitions.PartitionedSwap | fastlib2/contrib/jim/cart/training_set.h:196-228 | relinking keeps the two-list state for the renamed lists under the swapped split |
| Partitions.SplitLists | fastlib2/contrib/jim/cart/training_set.h:137-169 | every ordinal feature's list is split by side; a feature with an empty list is untouched |
| Partitions.RelinkAll | fastlib2/contrib/jim/cart/training_set.h:197-229 | every ordinal feature is relinked for the swap; a feature with an empty list is untouched |
| Partitions.ScanLeft | fastlib2/contrib/jim/cart/training_set.h:174-176 | left moves past split entries above 0, at most to right + 1, and stops at one that is not above 0 |
| Partitions.ScanRight | fastlib2/contrib/jim/cart/training_set.h:177-179 | right moves down past entries below 1, at least to left - 1, and stops at one that is not below 1 |
| Partitions.LeftScanReadsAsWritten | fastlib2/contrib/jim/cart/training_set.h:174 | the scan as written reads consecutive positions, every one but the last above 0 |
| Partitions.LeftScanAsWrittenOverreads | fastlib2/contrib/jim/cart/training_set.h:174 | with every point from left on bound left, its last read is one past the end of split |
| Partitions.LeftScanAsWrittenOnePoint | fastlib2/contrib/jim/cart/training_set.h:174 | a one-point block bound left: it reads positions 0 and 1 of a one-entry split |
| Partitions.PlacementSwap | fastlib2/contrib/jim/cart/training_set.h:188-194 | a swap keeps every point at a distinct place in the block |
| Partitions.MovedSwap | fastlib2/contrib/jim/cart/training_set.h:231-235 | swapping two entries of old_from_new follows the swap of the points |
| Partitions.SwapColumns | fastlib2/contrib/jim/cart/training_set.h:188-191 | every feature of the matrix has its two columns exchanged |
| Partitions.MatrixSwap | fastlib2/contrib/jim/cart/training_set.h:185-191 | the data matrix moves with the points under the swap |
| Partitions.ScanSwap | fastlib2/contrib/jim/cart/training_set.h:192-194 | swapping split at left (0) and right (1) extends the 1s before left and the 0s after right |
| Partitions.ScanDone | fastlib2/contrib/jim/cart/training_set.h:181-183 | when the scans cross, split is 1 on [start, left) and 0 after, and a point ends before left exactly when its original split is 1 |
| Partitions.TrackedSwap | fastlib2/contrib/jim/cart/training_set.h:196-228 | one swap keeps a feature's lists, with each point at its new place |
| Partitions.AllTrackedSwap | fastlib2/contrib/jim/cart/training_set.h:196-229 | one swap keeps every feature's lists |
| Partitions.AllPartitioned | fastlib2/contrib/jim/cart/training_set.h:241-247 | at the end every ordinal feature's left side indexes [start, left) and right side [left, stop) |
| Partitions.SwapLoopStep | fastlib2/contrib/jim/cart/training_set.h:185-238 | one swap keeps the loop's state with right one lower |
| Partitions.SwapLoopDone | fastlib2/contrib/jim/cart/training_set.h:241-247 | the loop's exit gives the partition: placement, the side condition, the moved matrix and the two indexed halves |
| Partitions.SwapPoints | fastlib2/contrib/jim/cart/training_set.h:171-239 | the swap loop returns left with split 1 exactly before it, the matrix, split and old_from_new moved together, and every feature's lists relinked |
| TrainingSets.TrainingSet.SortOrdinalFeature | fastlib2/contrib/jim/cart/training_set.h:18-73 | sorts the range of a feature in place as `SortRange` says, other features untouched |
| TrainingSets.TrainingSet.IndexFeature_ | fastlib2/contrib/jim/cart/training_set.h:105-116 | one ordinal feature gets its sorted list, its head and its back links |
| TrainingSets.TrainingSet.Init | fastlib2/contrib/jim/cart/training_set.h:90-122 | every ordinal feature is indexed (sorted list, head, back links); every nominal one has empty lists and head -1 |
| TrainingSets.TrainingSet.MatrixPartition | fastlib2/contrib/jim/cart/training_set.h:126-248 | returns left in [start, stop] with the points whose split is 1 moved before it; data and old_from_new moved with the points; each ordinal feature's left list indexes [start, left) from firstsL and right list [left, stop) from firstsR; features with empty lists untouched |

## Left out

- The MPI communicator and all `printf`/`Print_` logging are left out. The communicator only carries messages, and logging has no effect on state.
- The distributed task queue's source is not part of this model. `TaskQueue` keeps only the state the builder touches, with the simplest bodies that meet its contracts.
- Slots and queue entries hold subtable values (`SubTableState`), not shared pointers. So aliasing between a slot and the queue's handle is not modelled, and neither is `intrusive_ptr` reference counting.
- Boost archives are modelled as a flat sequence of integers.
- `SubDenseMatrix` data and weights, and the `IndexUtil` mapping slices of `save`/`load`, are foreign code and are not part of the image. Only the rank, the tree, the point ranges and the new-from-old flag are modelled.
- `global_m_file_`, `offset_ptr` and the allocation of tables and nodes are modelled as plain allocation.
- DistributedDualtreeTaskLists.DistributedDualtreeTaskList.Load: like the source, it does not rebuild the position map, so a loaded list is not `Valid`. A parse failure leaves the state unchanged, where the source would throw partway. Each slot's subtable is parsed with `ParseImage`, so it also inherits every `ParseImage` rejection above, forward-parent node lists and empty node lists included.
- DistributedDualtreeTaskLists.DistributedDualtreeTaskList.Load: every loaded slot has its query flag cleared. The source resizes the existing vector (line 451), so entries that were already present keep their old query flags.
- SubTableTree.RebuildFlatten: requires a well-formed tree. Trees with a missing child of an inner node, which `FillTreeNodes_` skips, are not covered. Neither are trees with a right child starting at its parent's begin, which `load` attaches to the left slot.
- SubTables.SaveLoadState: requires the same well-formed tree as `RebuildFlatten`.
- DistributedDualtreeTaskLists.DistributedDualtreeTaskList.PushBack: requires that the probed query is not already held as a query slot, that is, not already donated in this bundle. The source does not check this (distributed_dualtree_task_list.h:329-389). Its caller probes only queries it has not locked, and `PushBack` locks every query it donates. Re-pushing a donated query that no reference slot shares, with no reference fitting, would evict that query's slot on the withdrawal. The last slot would move into the hole, and the positions recorded in earlier donated lists would go stale (`WithdrawDonatedQueryEvicts`).
- DistributedDualtreeTaskLists.TaskListRoundTrip: requires well-formed trees and a non-empty cache. With no subtables, `save` writes only the count 0 and no donated lists (line 415), and `load` then changes nothing; `EmptyTaskListRoundTrip` states this case.
- DistributedDualtreeTaskLists.DistributedDualtreeTaskList.Export: the order of tasks within each new query list is the order of its reference list. That order belongs to the stand-in queue; the real queue keeps tasks in a priority queue (`TaskPriorityQueueType`), so only the multiset and the count of tasks per list carry over.
- SubTables.SubTable.InitOwned: the fresh table (and so the table of `LoadedState`) gets the fixed rank `FreshTableRank`, 0. The real table's `rank()` comes from the communicator, which is not part of this model.
- SubTables.ParseImage: accepts strictly fewer images than `load` (sub_table.h:397-484). It rejects a node list in which some entry's parent index is not strictly before that entry, a forward or self parent that `load` links all the same (lines 418-429), for example `[7, 4, 0,10,0,-1, 0,2,1,2, 0,5,0,0, 2,3,1,2, 0, 1]`. It rejects an empty node list, on which `load` reads entry 0 out of range (line 430). It rejects a negative count of nodes, of points in a node or of point ranges, and a boolean word other than 0 or 1. On input that ends early it answers `None`, where boost throws after `set_rank` has already run (line 402).
- SubTables.SubTable.Load: inherits every `ParseImage` rejection above. On any of them it leaves the table unchanged, including its rank, where `load` would have set the rank (line 402) and then either thrown or linked the forward-parent tree.
- TrainingSets.TrainingSet.Init: takes the data already loaded, with each feature's type flag. Dataset file I/O and metadata are left out. It requires at least one point, which lines 110-111 need in order to index.
- TrainingSets.TrainingSet.Init: an ordinal feature gets the corrected back-link loop (see Findings). A nominal feature's `firsts` entry is -1, where the source leaves it uninitialised.
- TrainingSets.TrainingSet.SortOrdinalFeature: requires `start < stop`, because on an empty range the source recurses without end.
- TrainingSets.TrainingSet.MatrixPartition: requires every split entry to be 0 or 1.
- TrainingSets.TrainingSet.MatrixPartition: the heads in `firstsL`/`firstsR` are -1 for an empty side or a nominal feature, where the source leaves them uninitialised.
- TrainingSets.TrainingSet.MatrixPartition: `split` is passed by value, as in the source, so its swapped copy is not returned.
- TrainingSets.TrainingSet.MatrixPartition: `old_from_new` is an optional integer array.
- Features are stored as `values[dim][point]`, and the `Vector` views of columns are plain sequences.
- `GetVariableType`, `GetFeatures`, `GetPointSize`, `GetTargetType`, `GetOrder` and `Get` are thin accessors over the dataset and are not modelled.

## Findings

| source | as written | input that shows it | evidently intended | confidence | as-written member | corrected member |
|---|---|---|---|---|---|---|
| fastlib/trunk/contrib/dongryel/thesis_research/core/parallel/distributed_dualtree_task_list.h:166-184 | after swap-and-pop, the former last slot's identity is mapped to the hole whenever any slot remains, even when the evicted slot was itself the last one | slots [A (reference 1), Q (query)]; `pop_(Q, true)` leaves Q's identity mapped to position 1 of a one-slot vector | remap only when a slot actually moved (remove position < last) | not executed | DistributedDualtreeTaskLists.ReleaseAsWrittenLeavesStaleEntry | DistributedDualtreeTaskLists.ReleaseWithdrawsLastSlot |
| fastlib2/contrib/jim/cart/training_set.h:112 | the back-link loop runs `while (j_cur > 0)`, so it stops at point 0 as if the list ended there | two points where point 1 has the smaller value: the list is 1, 0 and point 0's back link stays -2 | `while (j_cur >= 0)` | not executed | SortedLists.BackLinksAsWrittenMissesPointZero | SortedLists.BackLinks |
| fastlib2/contrib/jim/cart/training_set.h:110-111 | the head returned by the sort is used as an index without a check | an ordinal feature whose values are all missing: the head is negative (-1, or -2 for one point) | write no back links when the head is negative | not executed | SortedLists.AllMissingHeadIsNegative | SortedLists.BackLinks |
| fastlib2/contrib/jim/cart/training_set.h:174 | the left scan reads `split[left - start]` before checking `left <= right` | a block whose points from `left` on are all bound left, e.g. one point with split [1]: it reads split[1] | test `left <= right` first | not executed | Partitions.LeftScanAsWrittenOverreads | Partitions.ScanLeft |
