# Text regions, highlighting, edits, diagnostics and word motions of an IDE

A verification project in Dafny for the editor core of `src/libide/code`. It models the parts of that library that keep a text
and what is known about it in step, and proves what they are for.

**The region** (`Runs`, `RegionTree` and the other `Region...` modules, `TextRegions`, `RegionHistory`, `SortedArrays`). A region
gives every character of a text a datum, as a list of runs in a B+tree whose nodes are updated in place: fixed capacities, parent
links, the length of every subtree in its parent, sibling chains in every row, and one remembered leaf. `TextRegion` is that
object. Its methods are proved against edits on a plain sequence (`InsertFlat`, `RemoveFlat`), and every one of them keeps the
whole tree invariant (`Whole`): all leaves in one row, links in agreement both ways, sums right, siblings in order, every node
that has a sibling with at least eight entries, only the root ever a single child over a branch. The methods are split into what
they do to the heap and what that does to a snapshot of all nodes (`Tree`), about which the lemmas speak. `SortedArray` is the
index-linked array in which a node keeps its entries; it refines a sequence.

Where the program asserts something that can fail, the method returns `ok`, and not ok means that the program stops there. When
that happens is proved. There are two ways. A removal strictly inside a run of a full leaf needs a slot that the leaf does not have
(`Jammed`), and then the program stops. A compaction that has to split a neighbour under a full parent finds no room for it; of the
tree in which it starts `ClashesFrom` says exactly when that happens, and `Headroom`, which every tree of at most three rows and
every tree of fewer than 2176 runs has, excludes it. So insertions never stop the program; removals do, as long as there are fewer
than 2176 runs, exactly when they jam, and beyond that in no other way than by a jam or a clash.

When a whole run of operations stops can be computed without the tree. `RegionLists` has the region as a plain list of leaves, each
a list of runs, and what insertions and removals make of it: leaves that are split, filled and merged, but no branches. The methods
of `TextRegion` are proved to leave exactly these leaves (`Leaves`), for any joining callback. `RegionOps` folds them over runs of
operations: with fewer than 2176 runs the program stops exactly if one of the operations jams in the list model
(`RegionHistory.Play`). With a callback that joins all equal neighbours none does (`EagerNeverJams`); without one none does if each
removal meets fewer than 26 runs, or a place where two runs meet, in the list of all runs that plain cuts give (`CalmNeverJams`).
That edits reach a jam is shown by a run of the highlight engine (`HighlightJam.Jam`). No run is given that reaches a clash: it
would take a tree of at least 2176 runs, and whether the operations lead to one is left open.

**The highlight engine** (`HighlightMarks`, `HighlightEngines`, `HighlightHistory`, `HighlightJam`) keeps such a region in step with
a buffer: a mark for every character, checked or unchecked, and one more exactly after a rebuild of a buffer that was not empty.
Edits and invalidations uncheck whole identifiers and schedule work, if there is a highlighter and it is enabled; work goes through the unchecked ranges from left to right and ends. Its region
joins no runs, so that deletions and invalidations can stop the program; insertions, work and rebuilds do not while there are not
very many characters. What the engine does to its region over a run of events is a list of operations that is computed from the
events alone (`OpsOfAll`), and so is whether it stops (`HighlightHistory.Play`).

**Edits through marks** (`TextEdits`, `EditTurns`, `EditTouching`, `EditBuffers`, `ApplyEdits`). A list of edits over several buffers is applied by
placing marks with gravity at the ends of all ranges and then replacing range after range. What that comes to is proved for all
ranges, be they apart, touching or overlapping (`InTurn`): each edit is carried out on the range that the earlier ones have moved it
to. It is the substitution of all ranges at once, in whatever order they are listed, if the ranges of a file are at least one
character apart; and for any list of ranges that do not overlap it is proved exactly when that holds (`TouchingAll`): the text of an
edit is lost if a later one touches its range. `EditState` is the protocol by which the edits wait for their
buffers to be loaded, and by which exactly the buffers that were loaded for them are closed in the end.

**The diagnostics manager** (`DiagnosticTables`, `DiagnosticsProtocol`, `DiagnosticsEffects`, `DiagnosticsManagers`, `DiagnosticsRuns`,
`DiagnosticsHistory`) runs asynchronous
providers over files that are opened, changed and closed, with one timer for all of them. `DiagnosticsProtocol` says what every
event does to the state; `Manager` does it step by step on its tables and is proved to do exactly that; `DiagnosticsRuns` has what
holds over every run. `DiagnosticsEffects` says what each event means to those outside, and `DiagnosticsHistory` what that comes to
over runs: a file shows, of every provider, its last answer about it (`KeptLast`), and providers are asked about the contents and the
language that were told last (`RequestsSent`). One thing that one would expect does not hold: a file that is closed while one of its providers still works
is never diagnosed again, because the answer then finds no group to be counted off from. It is shown by a run (`Wedged`), for all
runs (`ClosedMidRound`), and a round starts exactly when no answer was lost (`RoundStarts`).

**Word motions** (`WordMotions`) are loops over an iterator, proved to reach the least or greatest place of their kind, and to
return to where they came from; and what they do on names, punctuation, blanks and newlines is stated character by character.

## Notes on the model

- A node's tagged parent pointer is a reference and a flag (`isLeaf`). The entries of a node are a sequence in the tree model and
  the index-linked array in `SortedArrays`; the two meet in the contents of the array. A freed node is one that the snapshot does
  not hold any more.
- `split_func` is not given, as in the one place that makes a region. `join_func` is a pure predicate that accepts only equal data;
  not giving it is the predicate that accepts nothing.
- Offsets and lengths are unbounded. `guint` counters (`sequence`, `in_diagnose`, `n_active`) are unbounded too, and it is proved
  that those that are counted down do not fall below 0.
- A callback that walks over runs is a pure function on a state, which it returns with whether to stop.
- The highlighter is an arbitrary function that stays within the range it is offered; what counts as alphanumeric is a parameter,
  and a newline does not.
- Line ends are `'\n'`. Locations of edits are offsets, in range and in order. An edit is listed once.
- An entry of a diagnostics table without a list and one with an empty list are the same. Adapters are values with an identity and
  a set of providers; a provider that comes is newly made. The order in which a hash table is walked is arbitrary.
- The documentation of `ide_text_iter_find_chars_backward` speaks of a limit
  (`src/libide/code/ide-text-iter.c:793`), which the code does not look at; the model follows the code. The code compares
  from the last byte of the string (`src/libide/code/ide-text-iter.c:817`), so that a string whose last character takes several
  bytes is never found; the model says so too.
- The comment that a provider's completion always finds its group (`src/libide/code/ide-diagnostics-manager.c:329-333`) is not
  what the code of unloading does (`src/libide/code/ide-diagnostics-manager.c:852-853`); the model follows the code.

## Model

| member | source | states |
|---|---|---|
| RegionHistory.Play | src/libide/code/cjhtextregion.c:664-830 | Over every run of inserts, removes and replaces on a new region that meet their preconditions, with any joining callback that accepts equal data only: as long as no assertion stops the program, the region is valid, holds the same data as the plain edits on a sequence, and its leaves hold exactly the runs that the same operations on a plain list of leaves give. While the texts stay below 2176 characters, or the leaves hold fewer than 2176 runs, it stops exactly if some operation of the list model jams, and at the first that does; what the tree is like when it stops is what the operations before lead to. With a callback that joins all equal neighbours nothing jams, and without one nothing does if each removal meets fewer than 26 runs or a place where two runs meet. |
| RegionHistory.Step | src/libide/code/cjhtextregion.c:1098-1233 | One operation of such a run: the plain edit on the plain sequence, the step of the list model on the leaves, and, without a joining callback, the plain step on the list of all runs; validity and spare slots are kept. An insertion never stops the program, an operation that jams always does, and only a compaction that clashes does otherwise, never with fewer than 2176 runs. |
| RegionHistory.EagerNeverJams | src/libide/code/cjhtextregion.c:1169-1190 | With a callback that joins all equal neighbours no run of operations on any list of leaves jams. |
| RegionOps.CalmNeverJams | src/libide/code/cjhtextregion.c:1098-1233 | Without a joining callback no operation of a run jams if each removal meets fewer than 26 runs or a place where two runs meet, in the list of all runs that the plain cuts give; and the leaves always make up that list. |
| RegionOps.JamsInside | src/libide/code/cjhtextregion.c:1157-1185 | A removal jams only if there are at least 26 runs and two runs meet nowhere from its first character to behind its last. |
| RegionOps.FlatAfter | src/libide/code/cjhtextregion.c:664-830 | Without a joining callback an operation on the list of leaves, with its splits and merges, is the plain operation on the list of all runs. |
| RegionOps.FlatMended | src/libide/code/cjhtextregion.c:992-1096 | Merging a leaf that has too few runs into a neighbour, with splits on the way, keeps the runs and their order. |
| TextRegions.TextRegion.constructor | src/libide/code/cjhtextregion.c:575-600 | A new region is a root with one empty leaf: valid, of length 0, holding nothing, with spare slots. |
| TextRegions.TextRegion.OpenValid | src/libide/code/cjhtextregion.c:56-136 | A valid region is a whole tree in step with the heap: its length is the number of characters, all runs are positive, and a remembered leaf is where the cache says. |
| TextRegions.TextRegion.Search | src/libide/code/cjhtextregion.c:273-313 | The leaf and the place in it that an offset belongs to, whether it comes from the cache or from a walk down the tree; the cache then remembers exactly that leaf and its offset; nothing else changes. |
| TextRegions.TextRegion.SearchRecurse | src/libide/code/cjhtextregion.c:231-271 | Walking down by child lengths finds the leaf of the offset; the assertions on the way hold. |
| TextRegions.TextRegion.FirstLeaf | src/libide/code/cjhtextregionbtree.h:548-563 | Going down the first children ends at the leftmost leaf. |
| TextRegions.TextRegion.AddToParents | src/libide/code/cjhtextregion.c:201-223 | Only child lengths above the node change, by the added length on the way up, so that a node that was short by that much is in balance again; with nothing to add nothing changes. |
| TextRegions.TextRegion.SubtractFromParents | src/libide/code/cjhtextregion.c:176-199 | The same for a length that is taken away. |
| TextRegions.TextRegion.NeedsSplitMeans | src/libide/code/cjhtextregion.c:528-541 | A leaf is split exactly when fewer than three of its 26 slots for runs are free, a branch when fewer than three of its 26 slots for children are. |
| TextRegions.TextRegion.LeafSplit | src/libide/code/cjhtextregion.c:442-526 | Splitting a leaf whose parent has room: of n runs the last n / 2 go, in order, to a new right sibling; links, parent entries and sums agree. |
| TextRegions.TextRegion.BranchSplit | src/libide/code/cjhtextregion.c:359-440 | The same for a branch: of n children the last n / 2 go to the new branch, which becomes their parent. |
| TextRegions.TextRegion.RootSplit | src/libide/code/cjhtextregion.c:315-357 | The children of the root go to two new branches below it; the root stays and the tree is one row higher. |
| RegionSteps.RaiseHalves | src/libide/code/cjhtextregion.c:315-357 | Of the n children of the root the last n / 2 go to the right one of the two new branches, the others to the left one, in order. |
| TextRegions.TextRegion.NodeSplit | src/libide/code/cjhtextregion.c:543-573 | Splitting, after the parents that are nearly full: the tree stays whole, the runs stay in order, everything below the node stays, the parent of the node is left with room, and the tree grows by one row exactly if the splits reach the root; it ends because the distance to the root falls. |
| TextRegions.TextRegion.InsertionLeaf | src/libide/code/cjhtextregion.c:683-716 | The leaf for an insertion, found again after a split, has at least three free slots. |
| TextRegions.TextRegion.Insert | src/libide/code/cjhtextregion.c:664-809 | Inserting is inserting into the plain sequence; validity and spare slots are kept, the length grows by the run. The leaves are those of the list model: a leaf with fewer than three free slots is split first, and the run goes into the leaf of the offset, joined to its neighbours as far as the callback goes. Without a joining callback the list of all runs is the old one, cut at the offset, with the new run in between. |
| TextRegions.TextRegion.RemoveFromLeaf | src/libide/code/cjhtextregion.c:1117-1229 | The part of a removal that lies in one leaf, and what it makes of the leaves. It stops the program if the removal would need a slot that a full leaf does not have, and otherwise only in a compaction that clashes once some of the characters are gone, never if there is headroom; if characters are left to remove, two runs now meet at the offset, so that what follows needs no slot. |
| TextRegions.TextRegion.Remove | src/libide/code/cjhtextregion.c:1098-1233 | Removing is removing from the plain sequence, leaf after leaf, and the leaves are those of the list model; validity is kept, and spare slots if the callback joins all equal neighbours. A removal that cuts the middle out of a run of a full leaf stops the program, as the list model tells beforehand; otherwise only a compaction that clashes does, in a tree with the leaves that the list model has come to by then. With fewer than 2176 runs, however many leaves it goes through, there is no such compaction, and if it lies in one leaf it is enough that there is headroom. Without a joining callback the list of all runs loses exactly the characters. |
| TextRegions.TextRegion.Replace | src/libide/code/cjhtextregion.c:811-830 | Replacing is overwriting in the plain sequence; the length stays, and the leaves are those of the list model. It stops the program if its removal needs a slot that a full leaf does not have, and otherwise only in a compaction that clashes, never with fewer than 2176 runs. |
| TextRegions.TextRegion.LeafCompact | src/libide/code/cjhtextregion.c:992-1096 | All runs of a leaf go to its left or right neighbour, through splits in between, without loss or change of order, which leaves exactly the leaves of the list model; the leaf goes, and the tree is whole again. Unless the neighbour has to be split under a parent that is nearly full, it stops the program exactly if the tree before says so: some compaction on the way up finds no room, the parent of the leaf having one child less and that of the neighbour one more if the runs are too many for it. In that one case it stops exactly if the compaction of the parent clashes in the tree that is there once the runs have moved. With headroom it never stops; the only leaf stays. |
| TextRegions.TextRegion.PushRunsFront | src/libide/code/cjhtextregion.c:1050-1063 | The runs of a leaf in front of those of the right neighbour, which may be split on the way: which leaf then holds which runs, and, for as few runs as a compaction moves, when it is split and that nothing above changes but its number of siblings, unless branches are split with it. |
| TextRegions.TextRegion.PushRunsBack | src/libide/code/cjhtextregion.c:1071-1086 | The runs of a leaf behind those of the left neighbour, which may be split on the way: which leaf then holds which runs, and the same about what changes above. |
| TextRegions.TextRegion.BranchCompact | src/libide/code/cjhtextregion.c:840-990 | Puts a branch with too few children in order, and then its parent: all runs stay in order, all leaves stay in one row, and it stops the program exactly if a split on the way finds its parent without room. |
| TextRegions.TextRegion.PushKidsFront | src/libide/code/cjhtextregion.c:937-954 | The children of a branch in front of those of the right neighbour; it stops the program exactly if the neighbour overflows and its parent has no room. |
| TextRegions.TextRegion.PushKidsBack | src/libide/code/cjhtextregion.c:962-978 | The same behind those of the left neighbour. |
| TextRegions.TextRegion.Collapse | src/libide/code/cjhtextregion.c:871-897 | A branch with one child under a parent with no other child: the grandchild takes its place, and all rows stay level. |
| TextRegions.TextRegion.Foreach | src/libide/code/cjhtextregion.c:1235-1258 | Shows the callback all runs with their offsets, in order, until it asks to stop. |
| TextRegions.TextRegion.ForeachInRange | src/libide/code/cjhtextregion.c:1260-1311 | Shows the callback exactly those of these runs that have characters in the range, with the same offsets and in the same order, and never goes past the last leaf; a range out of bounds shows nothing. |
| Runs.InsertIntoRuns | src/libide/code/cjhtextregion.c:718-775 | Inserting a run among the runs of a leaf, with joining on either side and cutting: the data are those of the plain insertion, at most two runs are added, and the point that the program asserts not to be reached is not reached. |
| Runs.InsertBefore | src/libide/code/cjhtextregion.c:730-735 | An insertion in front of a run. There is one run more unless the callback joins the two. |
| Runs.InsertAfter | src/libide/code/cjhtextregion.c:736-745 | An insertion behind a run, joined to it or to the next one. There is one run more unless the callback joins it with the run before or the one behind. |
| Runs.InsertInside | src/libide/code/cjhtextregion.c:746-768 | An insertion into a run, which is cut in two. There are two runs more, less one for the right part and one for the left part that the callback joins, asked about the offsets where these parts start to meet it. |
| Runs.RemoveFromRuns | src/libide/code/cjhtextregion.c:1126-1221 | Removing from the runs of a leaf: the data are those of the plain removal, the rest is what lies in later leaves, and a run is added only when the removal lies within one run whose ends are not joined; exactly then a full leaf has no slot for it. |
| Runs.CutMiddle | src/libide/code/cjhtextregion.c:1157-1185 | Cutting the middle out of a run leaves two runs or, joined, one. The callback is asked about the two parts that are left, at the offset of the run; unless it joins them there is one run more, for which a slot must be free. |
| Runs.ExpandConcat | src/libide/code/cjhtextregion.c:634-662 | The data of runs one after the other are the data of each, one after the other. |
| Runs.ExpandCuts | src/libide/code/cjhtextregion.c:736-768 | Cutting a list of runs at a place cuts the data there. |
| Runs.WithoutTwice | src/libide/code/cjhtextregion.c:1231-1232 | Taking characters out of a list of runs in two steps comes to the same as in one. |
| Runs.EdgeIsBoundary | src/libide/code/cjhtextregion.c:634-662 | Where the data change two runs meet. |
| RegionBounds.AllValidate | src/libide/code/cjhtextregion.c:56-136 | In a region that is not empty every node passes the debugging check of the program. |
| RegionBounds.DepthBound | src/libide/code/cjhtextregionbtree.h:449-452 | A tree of depth d of at least 2 holds at least 2 * 8^(d-1) runs. |
| RegionBounds.RowsBelow | src/libide/code/cjhtextregionbtree.h:449-452 | A row that is k rows below one with two nodes or more holds at least 2 * 8^k nodes. |
| RegionSearch.LevelTotal | src/libide/code/cjhtextregion.c:225-271 | The lengths of the nodes of every row add up to the length of all runs. |
| RegionSearch.RootTotal | src/libide/code/cjhtextregion.c:806-808 | The length of the root is the length of all runs. |
| RegionSearch.NodesNotEmpty | src/libide/code/cjhtextregion.c:586-597 | In a region that is not empty no node has length 0. |
| RegionSearch.FoundUnique | src/libide/code/cjhtextregion.c:273-313 | There is one leaf and one place in it for an offset, so that the cache and the walk agree. |
| RegionSearch.CachedLeaf | src/libide/code/cjhtextregion.c:283-300 | An offset that the remembered leaf still covers belongs to that leaf. |
| RegionCascade.SplitWhole | src/libide/code/cjhtextregion.c:359-526 | A split keeps the whole tree invariant. |
| RegionCascade.RaiseWhole | src/libide/code/cjhtextregion.c:315-357 | A split of the root keeps the whole tree invariant. |
| RegionCascade.SplitRoomy | src/libide/code/cjhtextregion.c:543-573 | After a split every child of the split node has a parent with room. |
| RegionSplit.SplitShape | src/libide/code/cjhtextregion.c:359-526 | A split keeps the rows, the sibling chains, and parents and children in agreement. |
| RegionSplit.SplitSums | src/libide/code/cjhtextregion.c:359-526 | A split keeps every child entry equal to the length of its subtree. |
| RegionSplit.SplitFill | src/libide/code/cjhtextregion.c:359-526 | After a split of a nearly full node every node that has a sibling still holds at least eight entries. |
| RegionSplit.SplitRuns | src/libide/code/cjhtextregion.c:442-526 | A split keeps the runs of all leaves in order. |
| RegionSteps.RaiseShape | src/libide/code/cjhtextregion.c:315-357 | A split of the root keeps the shape of the tree, with one more row. |
| RegionSteps.RaiseSums | src/libide/code/cjhtextregion.c:315-357 | A split of the root keeps every child entry equal to the length of its subtree. |
| RegionSteps.DetachShape | src/libide/code/cjhtextregion.c:902-927 | Taking a node out of its row and its parent keeps the shape of the rest. |
| RegionSteps.DetachSums | src/libide/code/cjhtextregion.c:905-927 | Taking out a node of length 0 keeps every child entry equal to the length of its subtree. |
| RegionMoves.PushShape | src/libide/code/cjhtextregion.c:946-951 | Handing a child to the first or last place of a neighbouring branch keeps the order of the row below. |
| RegionMoves.PushSums | src/libide/code/cjhtextregion.c:946-951 | Handing a child over leaves only the target out of balance, by the length of the child. |
| RegionMoves.LowerShape | src/libide/code/cjhtextregion.c:871-897 | The collapse of two single branches keeps the shape, with one row less. |
| RegionLengths.BumpSums | src/libide/code/cjhtextregion.c:176-223 | Changing one child entry moves the imbalance one row up. |
| RegionLengths.RootSums | src/libide/code/cjhtextregion.c:806-808 | An imbalance that has reached the root is gone: nothing above it holds its length. |
| RegionEdit.InsertedText | src/libide/code/cjhtextregion.c:718-809 | Changing the runs of the leaf of an offset changes the data of the region as the plain insertion does. |
| RegionEdit.RemovedText | src/libide/code/cjhtextregion.c:1126-1229 | The same for a removal. |
| RegionEdit.FoundInHalf | src/libide/code/cjhtextregion.c:697-716 | After a split the offset belongs to one of the two halves. |
| RegionEdit.SplitSpare | src/libide/code/cjhtextregion.c:697-716 | A split keeps spare slots in all leaves. |
| RegionEdit.EagerSpare | src/libide/code/cjhtextregion.c:1157-1185 | With a callback that joins all equal neighbours a removal never adds a run. |
| RegionCompact.Flushed | src/libide/code/cjhtextregion.c:1053-1063 | Telling the parents of a neighbour about the runs it was given puts the sums right. |
| RegionCompact.FillingSplit | src/libide/code/cjhtextregion.c:1071-1080 | A split in the middle of the move keeps what was moved and what is still to come in order. |
| RegionTakeOut.LeafTaken | src/libide/code/cjhtextregion.c:1011-1040 | Without the leaf the runs are those before it and those behind it. |
| RegionHandOver.HandSplitFront | src/libide/code/cjhtextregion.c:938-944 | A split of the right neighbour in the middle of the move keeps the children in order. |
| RegionHandOver.HandSplitBack | src/libide/code/cjhtextregion.c:963-968 | The same for the left neighbour, where the new node takes the rest. |
| RegionHandOver.HandEnd | src/libide/code/cjhtextregion.c:954-978 | When all children are handed over the tree is whole but for the parent, which may have one child too few. |
| RegionClash.CompactSole | src/libide/code/cjhtextregion.c:899-900 | A branch without siblings may have few children. |
| RegionClash.LoneParent | src/libide/code/cjhtextregion.c:871-881 | The assertions about single branches hold. |
| RegionClash.Collapsed | src/libide/code/cjhtextregion.c:871-897 | After a collapse the tree is whole but for the root, and the runs are the same. |
| RegionClash.ClashUp | src/libide/code/cjhtextregion.c:937-987 | Whether a compaction will stop the program is known before it starts: later steps meet the same full nodes. |
| RegionClash.LeafHanded | src/libide/code/cjhtextregion.c:992-1096 | Handing the runs of a leaf to its neighbour, with at most a split that no branch above has to give way to, makes a compaction on the way up clash exactly if the tree before says so. |
| RegionHeadroom.LowHeadroom | src/libide/code/cjhtextregion.c:937-968 | A tree of at most three rows has headroom. |
| RegionRoom.FewHeadroom | src/libide/code/cjhtextregion.c:937-968 | A tree with fewer than 2176 runs has headroom: a full branch that has a sibling, from the third row up, has at least 34 children in its row of children, each of which stands over at least 64 runs. |
| RegionRoom.BoundaryFrees | src/libide/code/cjhtextregion.c:1157-1185 | A removal can want for a slot only strictly inside one run: not if two runs meet anywhere from its first character to behind its last. |
| RegionRoom.InsertedRuns | src/libide/code/cjhtextregion.c:718-775 | Without a joining callback, putting a run among those of the leaf of an offset puts it among all runs. |
| RegionRoom.RemovedRuns | src/libide/code/cjhtextregion.c:1126-1221 | Without a joining callback, taking characters out of the leaf of an offset takes them out of the list of all runs. |
| RegionLists.JamsIs | src/libide/code/cjhtextregion.c:1157-1185 | Whether a removal jams can be told from the runs of each leaf alone. |
| RegionLists.LocateFound | src/libide/code/cjhtextregion.c:231-271 | The leaf and the place of an offset can be told from the runs of each leaf alone. |
| RegionLists.TakenList | src/libide/code/cjhtextregion.c:1014-1048 | Taking a leaf out of the tree drops its runs from the list of leaves and changes nothing else there. |
| RegionLists.HalvedList | src/libide/code/cjhtextregion.c:442-526 | Splitting a leaf puts its two halves where it was in the list of leaves and changes nothing else there. |
| RegionLists.MergeMeans | src/libide/code/cjhtextregion.c:992-1096 | A leaf with too few runs is joined with the leaf before it, or with the one behind it if the one before is not there or has more runs; in the list of leaves that is all that happens if the two fit into one leaf with a slot to spare. |
| RegionHeadroom.HeadroomEnough | src/libide/code/cjhtextregion.c:937-968 | With no full branch from the third row up, unless it has no sibling, no compaction can stop the program. |
| RegionHeadroom.SplitHeadroom | src/libide/code/cjhtextregion.c:359-440 | Splits keep that condition. |
| RegionWalk.NotPastEnd | src/libide/code/cjhtextregion.c:1289-1310 | While the walk is before the end of the text there is a next leaf. |
| RegionWalk.RangeFrom | src/libide/code/cjhtextregion.c:1277-1287 | Starting at the leaf of the first offset leaves out no run of the range. |
| SortedArrays.SortedArray.constructor | src/libide/code/cjhtextregionbtree.h:222-245 | An empty array, its elements and its links in three arrays. |
| SortedArrays.SortedArray.LinkHead | src/libide/code/cjhtextregionbtree.h:82-93 | Linking a slot in front. |
| SortedArrays.SortedArray.LinkTail | src/libide/code/cjhtextregionbtree.h:94-105 | Linking a slot behind. |
| SortedArrays.SortedArray.LinkAt | src/libide/code/cjhtextregionbtree.h:106-144 | Linking a slot at any place. |
| SortedArrays.SortedArray.Unlink | src/libide/code/cjhtextregionbtree.h:147-181 | Taking a slot out of the chain. |
| SortedArrays.SortedArray.Move | src/libide/code/cjhtextregionbtree.h:200-221 | Giving an element another slot leaves its place in the order. |
| SortedArrays.SortedArray.Walk | src/libide/code/cjhtextregionbtree.h:182-199 | Walking along the chain reaches the slot of a place. |
| SortedArrays.SortedArray.InsertVal | src/libide/code/cjhtextregionbtree.h:282-292 | The sequence with an element more at the position. |
| SortedArrays.SortedArray.RemoveIndex | src/libide/code/cjhtextregionbtree.h:293-325 | The sequence without the element at the position, which is returned; the freed slot is filled from the end. |
| SortedArrays.SortedArray.PopHead | src/libide/code/cjhtextregionbtree.h:432-432 | The sequence without its first element. |
| SortedArrays.SortedArray.PopTail | src/libide/code/cjhtextregionbtree.h:433-433 | The sequence without its last element. |
| SortedArrays.SortedArray.PushHead | src/libide/code/cjhtextregionbtree.h:434-440 | The sequence with one more element in front. |
| SortedArrays.SortedArray.PushTail | src/libide/code/cjhtextregionbtree.h:441-447 | The sequence with one more element behind. |
| SortedArrays.SortedArray.ForeachRemove | src/libide/code/cjhtextregionbtree.h:326-365 | Removing the current element of an iteration, and which slot the iteration goes on with. |
| SortedArrays.SortedArray.RemoveWhere | src/libide/code/cjhtextregionbtree.h:326-377 | An iteration that removes elements sees every element once and leaves the others in order. |
| SortedArrays.SortedArray.Split | src/libide/code/cjhtextregionbtree.h:393-407 | The first half stays and the second half goes to the other array, both in order. |
| SortedArrays.SortedArray.Split2 | src/libide/code/cjhtextregionbtree.h:408-430 | The two halves go to two arrays, both in order. |
| SortedArrays.MoveDone | src/libide/code/cjhtextregionbtree.h:200-221 | Renaming a slot keeps the chain in step with the order. |
| SortedArrays.UnlinkDone | src/libide/code/cjhtextregionbtree.h:147-181 | Taking out a slot keeps the chain in step with the order. |
| SortedArrays.Compacted | src/libide/code/cjhtextregionbtree.h:293-325 | Filling the freed slot from the end keeps the live slots dense and the elements in order. |
| HighlightMarks.VisitFinds | src/libide/code/ide-highlight-engine.c:273-314 | The callback over all runs finds the leftmost maximal interval of unchecked characters, also when it spans several runs. |
| HighlightMarks.CheckedFewer | src/libide/code/ide-highlight-engine.c:316-381 | Checking part of that interval leaves fewer unchecked characters. |
| HighlightMarks.IdentifierCovered | src/libide/code/ide-highlight-engine.c:558-598 | Every identifier that touches the edit lies within the extended range. |
| HighlightMarks.GrownMeans | src/libide/code/ide-highlight-engine.c:558-598 | What the two searches find, in characters: back to the start of the line or to the first character that is not a letter, digit or underscore, which is taken along; ahead behind the character at the end of the edit, unless its line ends there, and behind all letters, digits and underscores that follow. |
| HighlightHistory.Play | src/libide/code/ide-highlight-engine.c:600-650 | From an empty buffer, over every run of edits, invalidations, ticks and rebuilds that does not stop the program, the region has as many marks as the buffer has characters, and one more exactly after a rebuild of a buffer that was not empty; its leaves are what a list of operations, computed from the events alone, makes of a new region. While there are fewer than 2175 characters the program stops exactly if one of these operations jams, which none does if each removal meets fewer than 26 runs or a place where two runs meet. It stops only at an event that has to take out stuck marks of the tree reached, which is a deletion, an invalidation or an empty insertion, or in a compaction that clashes. After a run that ends with anything but work on an enabled engine with a highlighter, work is scheduled; it is scheduled only with such an engine, and only after such an event. |
| HighlightHistory.Step | src/libide/code/ide-highlight-engine.c:600-650 | One event of such a run: the text of the buffer, the operations on the region and what they make of its leaves, whether a rebuild has left a mark too many, when work is scheduled, and, while there are not very many characters, exactly when it stops the program. |
| HighlightJam.Jam | src/libide/code/ide-highlight-engine.c:600-650 | A run of edits that reaches a full leaf: a hundred empty lines are typed into an empty buffer and twenty-five of them are taken out, each behind the next one; the engine is then valid, and taking out one more stops the program. |
| HighlightJam.FullLeafStuck | src/libide/code/cjhtextregion.c:1178-1179 | In a full leaf that is the only one, characters strictly inside a run are stuck. |
| HighlightJam.SpareLeafFree | src/libide/code/cjhtextregion.c:1178-1179 | With fewer than 26 runs nothing is stuck. |
| HighlightEngines.HighlightEngine.constructor | src/libide/code/ide-highlight-engine.c:918-958 | An engine on an empty buffer with an empty region, with no work scheduled. |
| HighlightEngines.HighlightEngine.QueueWork | src/libide/code/ide-highlight-engine.c:402-417 | Work is scheduled if there is a highlighter and the engine is enabled. |
| HighlightEngines.HighlightEngine.Invalidate | src/libide/code/ide-highlight-engine.c:1071-1096 | Exactly the range is unchecked afterwards, all other marks stay, and the runs are those without the range and with one run for it. What it does to the leaves is a removal and an insertion in the list model. It stops the program if the range is stuck and otherwise only in a compaction that clashes, in a tree with leaves that the list model comes to, and never with fewer than 2176 runs. |
| HighlightEngines.HighlightEngine.Grow | src/libide/code/ide-highlight-engine.c:558-598 | The range grown on both sides over identifier characters of its line. |
| HighlightEngines.HighlightEngine.MarkUnchecked | src/libide/code/ide-highlight-engine.c:558-598 | The grown range is unchecked, all other marks stay, and work is scheduled exactly if it was or the engine is enabled and has a highlighter; the same about stopping. |
| HighlightEngines.HighlightEngine.InsertText | src/libide/code/ide-highlight-engine.c:600-624 | After an insertion the region is as much longer as the buffer, every identifier that touches the new text is unchecked from end to end, and marks outside the grown range stay. Work is scheduled if it was or the engine is enabled and has a highlighter. Text that is not empty stops the program only in a compaction that clashes, and not while there are fewer than 2176 marks. |
| HighlightEngines.HighlightEngine.DeleteText | src/libide/code/ide-highlight-engine.c:626-650 | The same for a deletion, with the scheduling of work, which stops the program if the marks of the deleted text are stuck and otherwise only in a compaction that clashes, never while there are fewer than 2176 marks; unchecking what is around them never finds marks stuck. |
| HighlightEngines.HighlightEngine.Rebuild | src/libide/code/ide-highlight-engine.c:1017-1053 | Every character is unchecked afterwards and work is scheduled, if the engine is enabled and has a highlighter; one mark too many is left if the region was not empty. It stops the program only in a compaction that clashes, and not with fewer than 2176 marks. |
| HighlightEngines.HighlightEngine.GetNextRange | src/libide/code/ide-highlight-engine.c:297-314 | The leftmost maximal unchecked interval before the end of the buffer, or that there is none. |
| HighlightEngines.HighlightEngine.Round | src/libide/code/ide-highlight-engine.c:316-372 | One round: exactly the characters between the start of the range and where it has come to are checked; that is where the highlighter stops when it is called with the first place behind the newlines that the range starts with, or that place itself if it is not in the range. Two runs meet where the range starts, so that it stops the program only in a compaction that clashes, and not with fewer than 2176 marks. |
| HighlightEngines.HighlightEngine.Tick | src/libide/code/ide-highlight-engine.c:316-381 | Ends because every round leaves fewer unchecked characters; marks only turn from unchecked to checked; what it does to the region is a list of replacements computed from the highlighter, the text and the marks; if it asks to be called again it has made progress, and if not, all is checked or the highlighter does not move when it is offered the leftmost unchecked range of the marks that are left. It stops the program only in a compaction that clashes, and not with fewer than 2176 marks. |
| HighlightEngines.HighlightEngine.Work | src/libide/code/ide-highlight-engine.c:383-400 | The worker: a tick as long as the engine is enabled, after which work stays scheduled only if marks have been checked, and is given up only if all is checked or the highlighter does not move; a disabled engine gives it up and touches no mark. |
| HighlightEngines.WorkMeans | src/libide/code/ide-highlight-engine.c:316-381 | The replacements that work comes to, round by round and in characters: the leftmost unchecked range is checked from its start to where the highlighter stops, which ends the work if it is inside the range; otherwise the next range follows. |
| TextEdits.SubstitutedMore | src/libide/code/ide-buffer-manager.c:931-952 | One more edit exchanges the text in its range and nothing else. |
| TextEdits.AppliedText | src/libide/code/ide-text-edit.c:177-196 | Exchanging the text between the two marks of a pending edit gives the substitution with that edit. |
| TextEdits.PlaceMoves | src/libide/code/ide-text-edit.c:177-196 | Where the ends of a pending range are after another edit, before it or behind it. |
| TextEdits.OrderIndependent | src/libide/code/ide-buffer-manager.c:892-970 | The substitution does not depend on the order of the edits. |
| EditTurns.InTurnSeparated | src/libide/code/ide-buffer-manager.c:931-952 | With at least one character between any two ranges, applying the edits one after the other, with ranges that move as marks do, gives the substitution of all ranges at once. |
| EditTurns.MarkMoves | src/libide/code/ide-text-edit.c:177-196 | A mark away from the range moves to where the substitution puts its place. |
| EditBuffers.TextEdit.Prepare | src/libide/code/ide-text-edit.c:198-225 | Two new marks at the ends of the range, with gravity to the left and to the right. |
| EditBuffers.TextEdit.Apply | src/libide/code/ide-text-edit.c:177-196 | The text between the marks is exchanged, the marks of the edit go, and the other marks move as their gravity says. |
| EditBuffers.MarksMove | src/libide/code/ide-text-edit.c:177-225 | Applying one edit moves the marks of another to the ends of its moved range. |
| EditBuffers.PlaceAll | src/libide/code/ide-buffer-manager.c:903-929 | First pass: every edit that has a buffer places its marks, and no buffer changes its text. |
| EditBuffers.PlaceInList | src/libide/code/ide-buffer-manager.c:903-950 | The edits of a file are taken with their own ranges and texts, in the order of the list. |
| EditBuffers.ApplyAll | src/libide/code/ide-buffer-manager.c:931-952 | Second pass: every edit that has a buffer is applied. |
| EditBuffers.CloseAll | src/libide/code/ide-buffer-manager.c:954-967 | Third pass: as many user actions are closed as were opened. |
| EditBuffers.DoApplyEdits | src/libide/code/ide-buffer-manager.c:892-970 | In every buffer all its edits have had their turn, each on the range that the earlier ones have moved it to, whether ranges are apart, touch or overlap; no mark is left over and every user action is closed. If the ranges of a file are at least one character apart that is the substitution of all of them at once. |
| EditBuffers.ApplyTwo | src/libide/code/ide-text-edit.c:177-225 | What two edits of a buffer come to, in either order; when their ranges touch, the one that is applied last catches the text of the other. |
| EditTurns.TouchingExact | src/libide/code/ide-buffer-manager.c:931-952 | Two edits, the ranges of which do not overlap, come out as if done at once exactly if the ranges do not touch or the one applied first inserts nothing. |
| EditTouching.TouchingAll | src/libide/code/ide-buffer-manager.c:892-970 | Edits whose ranges do not overlap, in whatever order they are applied, come out as if all ranges were replaced at once exactly if at its turn every edit inserts nothing or touches none of those still to come. |
| EditTouching.InTurnLength | src/libide/code/ide-text-edit.c:177-225 | Edits in turn never give a longer text than what lies outside all ranges and what is put in, and a shorter one if some edit has its text caught by a later one; this holds for overlapping ranges as well. |
| EditTouching.AtOnceApart | src/libide/code/ide-buffer-manager.c:892-970 | For ranges at least one character apart, nothing is caught and both definitions of replacing all ranges at once agree. |
| EditTurns.TwoInTurn | src/libide/code/ide-text-edit.c:177-225 | Two edits one after the other, in either order, as far as ranges that touch go. |
| ApplyEdits.EditState.Start | src/libide/code/ide-buffer-manager.c:1088-1178 | Every file of an edit is looked up once, those that are not open are loaded, and exactly with none to load the edits are applied at once; otherwise no text changes. No buffer is to be closed yet. |
| ApplyEdits.EditState.Loaded | src/libide/code/ide-buffer-manager.c:972-1032 | The edits are applied exactly when the last load has come back and none has failed; an error is returned once, and after it nothing is applied. The buffer that has come back is noted as that of its file and as one to be closed, and nothing else is, unless a load has failed. |
| ApplyEdits.EditState.ToClose | src/libide/code/ide-buffer-manager.c:1006-1032 | The buffers to be closed are those of files that were not open and whose load has come back, never one that was open when the request came; as long as no load has failed they are all of those. |
| ApplyEdits.EditState.Completed | src/libide/code/ide-buffer-manager.c:1035-1067 | When the request is answered exactly these buffers are closed. |
| ApplyEdits.EditState.Proceed | src/libide/code/ide-buffer-manager.c:1016-1030 | When the edits are applied every file has its buffer, and in every buffer all its edits have had their turn. |
| DiagnosticsRuns.EveryRun | src/libide/code/ide-diagnostics-manager.c:40-1182 | Over every run of events: the count of running diagnoses of a group is the number of requests that are out plus those whose provider has gone; a group that wants a round, has an adapter and has no diagnose running has the timer pending; no group goes; sequence numbers do not fall; and a group that lost an answer starts no round again. |
| DiagnosticsRuns.NextGood | src/libide/code/ide-diagnostics-manager.c:40-1182 | Every event keeps these invariants. |
| DiagnosticsRuns.NextOnward | src/libide/code/ide-diagnostics-manager.c:40-1182 | No event takes a group away or lets a counter fall. |
| DiagnosticsRuns.Handle | src/libide/code/ide-diagnostics-manager.c:40-1182 | What the manager object does about an event is what the protocol says. |
| DiagnosticsRuns.RoundStarts | src/libide/code/ide-diagnostics-manager.c:491-518 | When the timer fires a round starts exactly for the groups that want one, have an adapter, have no request out and have lost none. |
| DiagnosticsRuns.CloseLoses | src/libide/code/ide-diagnostics-manager.c:1028-1087 | Closing a file loses the answers of exactly its providers that still work. |
| DiagnosticsRuns.ClosedMidRound | src/libide/code/ide-diagnostics-manager.c:336-344 | However a run goes on after a file was closed in the middle of a round, no round is started for it any more. |
| DiagnosticsRuns.Wedged | src/libide/code/ide-diagnostics-manager.c:336-344 | A concrete run after which a round is wanted, nothing is in flight and the timer is not pending. |
| DiagnosticsHistory.KeptLast | src/libide/code/ide-diagnostics-manager.c:40-1182 | After every run of events a file keeps of a provider what the last answer of the provider since it came says about the file, in order, as long as it is loaded, and of other providers nothing. |
| DiagnosticsHistory.RequestsSent | src/libide/code/ide-diagnostics-manager.c:422-518 | After every run each request that is out was sent when the timer fired, with the contents that the last change of the file before that gave, since it was opened, and the language last told; without any, with empty contents. |
| DiagnosticsHistory.ToldLast | src/libide/code/ide-diagnostics-manager.c:1028-1182 | The contents and the language that are kept of a file are those that were told last since it was opened. |
| DiagnosticsEffects.FireSends | src/libide/code/ide-diagnostics-manager.c:422-518 | When the timer fires a provider is sent a request exactly if the group it is tagged with wants a round and waits for no answer: with the file, the contents stored, or empty ones, and the language. Requests that are out stay as they are. |
| DiagnosticsEffects.FireGroup | src/libide/code/ide-diagnostics-manager.c:465-518 | A group that wants a round, has an adapter and waits for no answer has all its providers asked and waits for as many answers as it has providers; every other group stays as it is. |
| DiagnosticsEffects.ChangeStores | src/libide/code/ide-diagnostics-manager.c:1089-1128 | New contents or a new language are stored, a round is wanted, the timer is set if no diagnose is running, and nothing else changes, in no file. |
| DiagnosticsEffects.OpenGroup | src/libide/code/ide-diagnostics-manager.c:1130-1182 | A file that is opened has an adapter, the old one or a new one with the new providers, its language, and a round wanted; contents, sequence and counts stay. |
| DiagnosticsEffects.OpenKeeps | src/libide/code/ide-diagnostics-manager.c:1130-1182 | All that is kept about any file, from whatever provider, stays when a file is opened. |
| DiagnosticsEffects.CloseGroup | src/libide/code/ide-diagnostics-manager.c:1028-1087 | A file that is closed has no adapter, contents or language, and no round is wanted for it; its sequence and the count of its running diagnoses stay. |
| DiagnosticsEffects.CloseRemembers | src/libide/code/ide-diagnostics-manager.c:1053-1087 | Whether anything was kept about a file, from whatever provider, is remembered when it is closed. |
| DiagnosticsEffects.CloseKeeps | src/libide/code/ide-diagnostics-manager.c:1059-1082 | Closing a file drops what its own providers have reported, about any file, and nothing else: what providers of other files have reported about it is kept. |
| DiagnosticsEffects.LoadJoins | src/libide/code/ide-diagnostics-manager.c:725-776 | A provider that is loaded belongs to the file of its adapter, has nothing kept there, and a round is wanted; nothing else changes. |
| DiagnosticsEffects.UnloadTakes | src/libide/code/ide-diagnostics-manager.c:777-856 | A provider that is unloaded takes all it has reported with it, about any file, and what other providers have reported stays. |
| DiagnosticsEffects.UnloadGroup | src/libide/code/ide-diagnostics-manager.c:823-856 | Its own group goes on without it; the answer that is still out is not counted off any more. |
| DiagnosticsEffects.AnswerReplaces | src/libide/code/ide-diagnostics-manager.c:299-419 | An answer replaces all that its provider has reported before, file by file; sequences grow by the items about a file, and by one more for the own group, which waits for one answer less; when it waits for none and a round is wanted the timer is set. Nothing else changes. |
| DiagnosticsEffects.AnswerDropped | src/libide/code/ide-diagnostics-manager.c:336-344 | The answer of a provider that is gone is dropped: only its request is no longer out. |
| DiagnosticsProtocol.CompletedKeeps | src/libide/code/ide-diagnostics-manager.c:299-419 | After the answer of a tagged provider every file keeps exactly the new items about it, in order, for this provider, and what it kept for the others; files that come up for the first time get a group; the sequence of a file counts its items, and one more for the own group. |
| DiagnosticsProtocol.CompletedGood | src/libide/code/ide-diagnostics-manager.c:299-419 | An answer keeps the invariants; the count of running diagnoses does not fall below 0. |
| DiagnosticsProtocol.CompletedTagged | src/libide/code/ide-diagnostics-manager.c:381-419 | The group of a tagged provider still has its adapter and was not removed, so it is never disposed of. |
| DiagnosticsProtocol.StrayGood | src/libide/code/ide-diagnostics-manager.c:336-344 | An answer of a provider that is gone touches no group. |
| DiagnosticsProtocol.IdleMeans | src/libide/code/ide-diagnostics-manager.c:465-489 | Rounds of a group do not overlap: with no diagnose running, none of its providers has a request out. |
| DiagnosticsProtocol.FiredGood | src/libide/code/ide-diagnostics-manager.c:491-518 | Firing the timer keeps the invariants and leaves the timer off. |
| DiagnosticsProtocol.QueuedGood | src/libide/code/ide-diagnostics-manager.c:520-542 | Asking for a round sets the timer unless a diagnose is running. |
| DiagnosticsProtocol.JoinedGood | src/libide/code/ide-diagnostics-manager.c:725-776 | A provider that is loaded keeps the invariants. |
| DiagnosticsProtocol.PartedGood | src/libide/code/ide-diagnostics-manager.c:823-856 | A provider that is unloaded keeps the invariants, whether it has answered or not. |
| DiagnosticsProtocol.PartedAllMore | src/libide/code/ide-diagnostics-manager.c:1063-1064 | Unloading providers one after the other comes to the same as unloading all at once. |
| DiagnosticsProtocol.OpenedGood | src/libide/code/ide-diagnostics-manager.c:1130-1182 | Opening a file keeps the invariants. |
| DiagnosticsProtocol.ShutGood | src/libide/code/ide-diagnostics-manager.c:1028-1087 | Closing a file keeps the invariants. |
| DiagnosticsProtocol.ChangedGood | src/libide/code/ide-diagnostics-manager.c:1089-1128 | New contents or another language keep the invariants. |
| DiagnosticsProtocol.ToldMeans | src/libide/code/ide-diagnostics-manager.c:349-378 | Adding a batch item by item puts the items about a file at the end of its list for the provider, and changes no other list. |
| DiagnosticTables.AboutCounts | src/libide/code/ide-diagnostics-manager.c:349-378 | The items of a batch about a file are as many as the batch has. |
| DiagnosticTables.ClearedStored | src/libide/code/ide-diagnostics-manager.c:778-821 | Dropping the entry of a provider empties its list and no other. |
| DiagnosticTables.AddedStored | src/libide/code/ide-diagnostics-manager.c:269-297 | Adding an item puts it at the end of the list of its provider and changes no other. |
| DiagnosticsManagers.Group.Add | src/libide/code/ide-diagnostics-manager.c:269-297 | One item more for the provider, the group has diagnostics, and the sequence goes on by one. |
| DiagnosticsManagers.Group.HasDiagnostics | src/libide/code/ide-diagnostics-manager.c:226-250 | Whether any provider has an item stored. |
| DiagnosticsManagers.Manager.constructor | src/libide/code/ide-diagnostics-manager.c:611-618 | No groups, no timer. |
| DiagnosticsManagers.Manager.FindGroup | src/libide/code/ide-diagnostics-manager.c:656-676 | The group of a file, which is made if it is not there. |
| DiagnosticsManagers.Manager.FindGroupFromAdapter | src/libide/code/ide-diagnostics-manager.c:678-705 | The group of an adapter is found; the point asserted not to be reached is not reached. |
| DiagnosticsManagers.Manager.QueueDiagnose | src/libide/code/ide-diagnostics-manager.c:520-542 | A round is wanted, and the timer is set if no diagnose is running. |
| DiagnosticsManagers.Manager.ProviderInvalidated | src/libide/code/ide-diagnostics-manager.c:707-723 | A tagged provider that is invalidated asks for a round of its group. |
| DiagnosticsManagers.Manager.ExtensionAdded | src/libide/code/ide-diagnostics-manager.c:725-776 | The provider is tagged, an empty entry is made if there is a table, and a round is asked for. |
| DiagnosticsManagers.Manager.ClearByProvider | src/libide/code/ide-diagnostics-manager.c:778-821 | The entry of the provider goes from every file, and a table with its last entry; reports whether any file had a table. |
| DiagnosticsManagers.Manager.ExtensionRemoved | src/libide/code/ide-diagnostics-manager.c:823-856 | The diagnostics of the provider leave every file, and its group is forgotten. |
| DiagnosticsManagers.Manager.Diagnose | src/libide/code/ide-diagnostics-manager.c:465-489 | A round sends every provider of the group one request; no provider has one out already. |
| DiagnosticsManagers.Manager.BeginDiagnose | src/libide/code/ide-diagnostics-manager.c:491-518 | The timer is off, and a round has started for every group that was ready and for no other. |
| DiagnosticsManagers.Manager.AddDiagnostic | src/libide/code/ide-diagnostics-manager.c:620-654 | The item is added to the group of its file, which is made if it is not there. |
| DiagnosticsManagers.Manager.Report | src/libide/code/ide-diagnostics-manager.c:354-369 | Trying the own group first comes to the same as looking the file up. |
| DiagnosticsManagers.Manager.ReportAll | src/libide/code/ide-diagnostics-manager.c:349-370 | All items of a batch are added in order. |
| DiagnosticsManagers.Manager.DiagnoseDone | src/libide/code/ide-diagnostics-manager.c:299-419 | The whole new state after an answer, with or without a batch, of a provider that is still tagged or not, and whether the change is announced. |
| DiagnosticsManagers.Manager.GetBusy | src/libide/code/ide-diagnostics-manager.c:865-888 | Busy exactly if some group has a request out or has lost one. |
| DiagnosticsManagers.Manager.GetDiagnosticsForFile | src/libide/code/ide-diagnostics-manager.c:904-947 | The list is cut into what the file keeps of every provider with an entry, each once and whole, one after the other, with nothing left over. |
| DiagnosticsManagers.Manager.GetSequenceForFile | src/libide/code/ide-diagnostics-manager.c:949-971 | The sequence of the group, or 0. |
| DiagnosticsManagers.Manager.Rediagnose | src/libide/code/ide-diagnostics-manager.c:983-998 | A round is wanted for the file. |
| DiagnosticsManagers.Manager.FileClosed | src/libide/code/ide-diagnostics-manager.c:1028-1087 | The whole new state after a file is closed. |
| DiagnosticsManagers.Manager.FileChanged | src/libide/code/ide-diagnostics-manager.c:1089-1109 | The whole new state after new contents. |
| DiagnosticsManagers.Manager.LanguageChanged | src/libide/code/ide-diagnostics-manager.c:1111-1128 | The whole new state after a change of language. |
| DiagnosticsManagers.Manager.FileOpened | src/libide/code/ide-diagnostics-manager.c:1130-1182 | The whole new state after a file is opened, once or again. |
| WordMotions.TextIter.ForwardClassifiedStart | src/libide/code/ide-text-iter.c:352-397 | Goes to the least later start of a word, or to the end and fails. |
| WordMotions.TextIter.ForwardClassifiedEnd | src/libide/code/ide-text-iter.c:419-461 | Goes to the least place from here on that is the last character of a later word, other than the last character of the text, or stands before a newline that stops; fails, at the end, exactly if there is none. |
| WordMotions.TextIter.BackwardClassifiedEnd | src/libide/code/ide-text-iter.c:485-527 | Goes back to the greatest earlier character that ends a word or is a newline that stops, and behind it in the second case; fails, at the start, exactly if there is none. On a newline that stops it goes past that newline. |
| WordMotions.TextIter.BackwardClassifiedStart | src/libide/code/ide-text-iter.c:549-592 | Goes back to the greatest place after the start of the text that is an earlier start of a word or stands behind a newline that stops, be it here; fails, at the start, exactly if there is none. |
| WordMotions.TextIter.ForwardStart | src/libide/code/ide-text-iter.c:352-397 | Without stops at newlines: succeeds exactly if there is a later start, and reaches the least. |
| WordMotions.TextIter.BackwardStart | src/libide/code/ide-text-iter.c:549-592 | Without stops at newlines: succeeds exactly if there is an earlier start other than that of the text, and reaches the greatest. |
| WordMotions.TextIter.ThereAndBack | src/libide/code/ide-text-iter.c:352-592 | From the start of a word a successful step forward and a step back return to it. |
| WordMotions.TextIter.BackAndThere | src/libide/code/ide-text-iter.c:352-592 | From the start of a word a successful step back and a step forward return to it. |
| WordMotions.TextIter.ForwardWordStart | src/libide/code/ide-text-iter.c:399-407 | From a stretch of letters, digits and underscores it stops nowhere inside the stretch, on a punctuation character directly behind it, behind the blanks that follow it otherwise, and never past a newline that stops. In general it goes to the least later start of a word, with either way to treat newlines. |
| WordMotions.TextIter.ForwardWordEnd | src/libide/code/ide-text-iter.c:465-473 | From inside a stretch of letters, digits and underscores that ends in punctuation, a blank or a newline it goes to the last character of the stretch. In general it goes to the least place where going on to the end of a word stops. |
| WordMotions.TextIter.BackwardWordStart | src/libide/code/ide-text-iter.c:594-602 | From inside or behind a stretch of letters, digits and underscores that comes after punctuation, a blank or a newline it goes to the first character of the stretch. In general it goes to the greatest place where going back to the start of a word stops. |
| WordMotions.TextIter.BackwardWordEnd | src/libide/code/ide-text-iter.c:529-537 | From behind blanks it goes to the last character before them that is neither a blank nor a newline; from a newline that stops it goes one on. |
| WordMotions.ClassMeans | src/libide/code/ide-text-iter.c:47-101 | The class of every character: blanks are space, tab and newlines that do not stop; the punctuation of ASCII other than underscore, backquote and tilde is special; newlines that stop are their own class; everything else is in words. |
| WordMotions.TextIter.ForwardWideStart | src/libide/code/ide-text-iter.c:409-417 | Goes to the least later character that is no white space and follows white space, or to a newline before it if those stop; fails, at the end, exactly if there is none. |
| WordMotions.TextIter.ForwardFindChar | src/libide/code/ide-text-iter.c:635-656 | The first later character that fits and is not past the limit, or that there is none. |
| WordMotions.TextIter.BackwardFindChar | src/libide/code/ide-text-iter.c:665-686 | The first earlier character that fits and is not before the limit, or that there is none. |
| WordMotions.TextIter.FindCharsForward | src/libide/code/ide-text-iter.c:870-939 | The first place from here on where the string stands as a whole before the limit, and its end; or that there is none. |
| WordMotions.TextIter.FindCharsBackward | src/libide/code/ide-text-iter.c:800-854 | The last place before here where the string stands as a whole, and its end; or that there is none. It is never found if its last character takes more than one byte. |

## Left out

- Remove: from 2176 runs on, which compaction clashes is told of the tree in which it starts, whose leaves are given beforehand, and not of the branches of the tree before; that the program stops in no other way than by a jam or a clash is.
- Replace: the same as for `Remove`.
- LeafCompact: where the neighbour has to be split under a nearly full parent, that it clashes is told of the tree in which the runs have moved, since branches above are then split too; in all other cases of the tree before.
- Play: from 2176 runs on, and in `HighlightHistory` from 2175 characters on, a run that stops without a jam is shown to stop in a compaction that clashes, not which run does.
- ClashesFrom: no run of operations is given that leads to such a tree.
- DoApplyEdits: for ranges that overlap, the outcome is stated as that of the edits in turn only.
- GetDiagnosticsForFile: which provider comes first is left open, as it is in a hash table.
- The use of `SortedArray` inside the nodes of the tree: the nodes hold sequences.
- A `split_func`, and with it runs that change their data or length when they are cut.
- The clearing of entries that were handed over (`child->node = NULL`), which only touches nodes that are on their way out, and the release of memory.
- The narrowing of the length of a region to `guint` by `_cjh_text_region_get_length`.
- Styles, tags, the scheduler and its deadlines, settings and signals of the highlight engine; only whether work is scheduled is kept. Binding, unbinding and changing the highlighter.
- GTK's text storage, user actions beyond their count, and line and column arithmetic.
- Loading and saving of files: a load succeeds or fails, and saving after the edits is only noted.
- Liveness of the diagnostics manager, beyond exactly when a round starts.
- `src/libide/code/ide-diagnostics.c` with its cache by line, which is not dropped when an item is added.
- Motions by sentence and paragraph, `ide_text_iter_in_string` and the current symbol, in `src/libide/code/ide-text-iter.c`; the other wrappers for words in the wide sense, which differ only in the classes.
- `src/libide/code/ide-source-iter.c`, whose meaning is that of a library for word boundaries.
- What counts as a space in words in the wide sense, and the width and, but for the last character of a string that is searched backward, the encoding of characters.
