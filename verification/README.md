# A verified model of the IPv4 forwarding core

This project models, in Dafny, the routing table and forwarding path of a small user-space IP
stack, and proves what the code is for: every address is sent where the longest matching prefix
says, through an incrementally updated, compressed copy of the routes, whose memory is neither
leaked nor freed twice.

The routing table is kept in two forms.

* **The radix tree** (`Radix.dfy`, `Rib.dfy`): one bit per level, with a cache of the inherited
  route in every node and marks on the nodes that an update touched.
* **The fast form**: 2^18 direct entries, then 64-way nodes.  A node is two bit vectors and two base
  indices; children and run-compressed leaves are found by counting bits.  Nodes and leaves live in
  two arenas, each handed out by a buddy allocator.

An update changes the radix tree, marks what inherits the change, rebuilds only marked parts in
fresh blocks, publishes them with one store, and frees what only the old version owned.

## How the model is built

| Files | What they model |
|---|---|
| `Arith`, `Bits` | 64-bit vectors, population counts and shifts, with their wrap-around |
| `BuddyModel`, `FreeList`, `BuddyLists`, `Buddy` | the buddy allocator: threaded free lists, tail bitmap, split, merge, size recovery |
| `Rib`, `Radix`, `Triangle` | the radix tree as a value and as linked nodes; reading it in blocks of six bits |
| `Trie`, `TrieUpdate` | the fast form as a value, what an update makes of it, and when reusing old slots is right |
| `Neat`, `Overlook` | the shape that every update keeps, and its uniqueness; the early exit on an equal leaf vector |
| `Store`, `Memory`, `Sharing` | the arenas as memory, stored trees, block ownership, what old and new trees share |
| `Trace`, `Cost` | the record of every single write that a lookup can see; how many blocks an update asks for |
| `Build`, `Clean`, `Splice`, `Entries`, `Part`, `Descent` | building nodes, freeing old ones, in-place stores, publication, the update of one direct entry |
| `FibTable`, `Direct`, `Subtree` | all direct entries: exact ownership, range updates through the alternative array |
| `FastLookup`, `Refinement`, `TableShape`, `Specifics` | lookups, the refinement proof, the shape of the whole table, when a caller knows that a change is safe |
| `Routes`, `Changes`, `Runs`, `Calls` | the public operations, whole runs on values, and whole runs over calls |
| `Capacity`, `Wrong` | how many blocks a table uses and when no operation can fail; sequences of calls that go wrong |
| `Checksum`, `Arp`, `Forwarding` | header checksum, ARP table with its queue of waiting frames, and IPv4 input and forwarding |

Code that works in place is modelled by methods on classes and arrays; its loops and recursion are
kept.  Each method is proved against functions on values, and the lemmas say what those functions
mean.  A ghost `Shape`, `Tree` or list argument names the structure that the pointers form.
Allocation failure is explicit: every allocator counts its failures, the results of an update hold
when the counter did not move, and after a failed step the code's remaining steps are still shown to
stay inside their memory.  (The counter is not in the source; only runs read it, to end.)  A table uses
at most three blocks for every node of its radix tree, and an operation on a table in arenas with more
than 64 (10 n + 242) units, n being that number of nodes, is refused none (`Capacity`).

A ghost field of the table, `trace`, records the memory and the direct entries after every single write:
each allocation and each release, each node structure or next hop copied, each store to a direct entry,
and the exchange of the arrays.  `Poptrie.Mem`, which every method keeps, says that the record is a chain of
single writes that ends with the memory as it is; what an update does to lookups beside it is stated about
its moments.

Two invariants are kept apart.  `Routes.Kept` is what every operation needs and keeps, right or wrong:
the radix tree with its caches holds the routes, every direct entry is stored in neat shape, and every
allocated block belongs to exactly one direct entry.  `Routes.Valid` adds that the fast form agrees
with the radix tree.

## Main results

* `Calls.Execute`: every sequence of additions, changes, updates and deletions, on any kept table and
  with no condition on the routes, does to the routes what it should do to a finite map, and keeps the
  radix tree, its caches and the exact ownership of blocks; `Routes.RibLookupHop` then answers with the
  longest matching prefix (RFC 4632 section 5.1).  The fast form answers every address with its longest
  match throughout, if no route is changed or deleted above a known route of length 25 or 31.  In arenas
  that are ample for the radix tree and the number of operations, none fails.
* `Runs.RunMoments`, `Runs.RunAlwaysRight`: **an update is seen all at once.**  At every single write of
  every run each address is answered as in one state of the run, no older than the last operation
  completed, from entries in allocated memory; in a run without wrong changes, with the longest match
  there.  Within one operation (`Routes.Publishes`): at every moment before one write all addresses are
  answered as before, from that write on as after, and only then is anything freed.
* `Routes.RouteAdd`: one addition, from the next-hop table to the cleaned arenas; an addition to a valid
  table leaves it valid.
* `Changes.RouteChange`, `RouteUpdate`, `RouteDel`: **the reuse test of the update is too weak for
  changes and deletions.**  A valid table stays valid, and every address is answered as the radix tree
  does, **if and only if** `Changes.ReuseRight` holds: no slot that the update keeps, because neither
  child of its position is marked, has a missing half that inherits the changed route.
  `Wrong.StaleCalls` is a program that goes wrong: with 0.0.0.0/24 and 0.0.0.0/25 in a fresh table,
  changing the /24 leaves 0.0.0.128 on the old next hop.
* `TableShape.TrackingIsFresh`, `Neatness.RebuildIsFresh`: no node but a top node is ever left with a
  single next hop, so a right fast form is a function of the radix tree alone, and mark-driven reuse
  gives the very node that a build from scratch gives.
* `BuddySystem.Buddy`: allocation succeeds exactly when some aligned run is wholly free, and the free
  blocks of every level are a function of the allocated blocks alone.
* `Checksum.Refresh` and `Arp.ArpState.ReplyInput`: a forwarded header checks out; after a reply no
  frame with a known next hop is left waiting, and none was lost, duplicated or misdirected.
* `Forwarding.Ipv4Stack`: from the header bytes, the interfaces and the routes to what becomes of a packet:
  delivered, dropped, or sent to the gateway of its longest match, or without one to its destination.

## Where code and expectation differ

* Changing and deleting routes: see above.  The only update the stack itself makes is adding.
* The early exit of `_update_part` on an equal leaf vector (src/poptrie/poptrie.c:652-655) compares the
  vectors, not the leaves.  While the fast form agrees with the radix tree a leaf that stays a leaf
  keeps its next hop, so the exit is right and the lines after it (657-668) do not run
  (`Overlook.LeafStays`).  After a change against the reuse test both fail: a leaf may be replaced by
  another, in a new leaf block beside the old children, and an update is lost exactly when the leaves
  before and after the replaced one differ from its old and its new next hop
  (`Overlook.Overlooked`, `NeighboursDecide`); the updated prefix itself is then answered wrongly
  (`OverlookedWrong`).  Both happen: in `Wrong.ReleafCalls`, adding 0.0.0.130/32 after the change above
  runs lines 657-668, and in `Wrong.LostCalls` adding 0.0.0.252/32 after two routes of length 31 is lost.
* Frames without a node (src/poptrie/poptrie.c:497-549, 677-706) cannot arise, because the descent
  stops at the first missing node (line 929); the loops for missing children in `_update_dp1` and the
  pruning of empty ancestors in `_route_del` never run.
* `_update_dp2` drops an error of its left half: adding a prefix shorter than 18 bits without radix nodes
  in its right half returns 0 whether or not a block was refused (`Direct.UpdateDp2`, `Routes.RouteAdd`).
* `buddy_init` with fewer levels of units than lists ends its one list with 0 instead of the end mark, so
  that it never ends (`BuddySystem.Buddy.constructor`); both callers pass as many levels as lists.
* `ipv4_forward` and `ipv4_input` call each other.  The recursion ends because every route goes through
  an interface of the host, which adding interfaces and routes keeps
  (`Forwarding.Ipv4Stack.Wired`, `Ends`).
* `cksum` adds an odd last byte as the low half of a word, where RFC 1071 section 1 makes it the high half:
  the two agree if and only if that byte is 0 (`Checksum.OddSize`).  Its caller passes a multiple of 4.
* A queued frame is sent on the interface of the reply that resolved it, not on its own.

## Model

| member | source | states |
|---|---|---|
| Bits.VecBt | src/poptrie/poptrie.c:15 | the mask test on a 64-bit vector reads exactly one binary digit |
| Bits.VecSet | src/poptrie/poptrie.c:18 | sets that digit and no other |
| Bits.VecClear | src/poptrie/poptrie.c:19 | clears that digit and no other |
| Bits.PopcntVec | src/poptrie/poptrie.c:20 | the population count is the rank of position 64 |
| Bits.ZerocntVec | src/poptrie/poptrie.c:21 | the complement in 64 bits counts the zero digits |
| Bits.PopcntLs | src/poptrie/poptrie.c:22 | counting under the mask (2 << i) - 1 is the rank including i, also at 63 where the shift wraps |
| Bits.LevelFor | src/poptrie/poptrie.c:1184-1198 | the requested level bsr(n - 1) + 1 is the least one from 1 on that holds n entries, and at most 6 |
| BuddySystem.Buddy.constructor | src/poptrie/buddy.c:17-79 | with level <= sz a fresh arena satisfies the heap invariant with nothing allocated; with sz < level its one list never ends |
| BuddySystem.Buddy.LinkTopBlocks | src/poptrie/buddy.c:57-68 | the top blocks are threaded in address order and end-marked |
| BuddySystem.Buddy.Split | src/poptrie/buddy.c:96-127 | leaves a block on the wanted level, or fails only when every higher level is empty too, allocating nothing |
| BuddySystem.Buddy.SplitStep | src/poptrie/buddy.c:119-124 | halving the head of the next level keeps the partition into aligned blocks and all lists |
| BuddySystem.Buddy.Alloc | src/poptrie/buddy.c:145-179 | succeeds exactly when some aligned run of 2^k blocks is wholly free, returns one, and changes nothing when it fails |
| BuddySystem.Buddy.TakeHead | src/poptrie/buddy.c:167-178 | the head becomes the one new allocated block and its tail is flagged |
| BuddySystem.Buddy.Merge | src/poptrie/buddy.c:185-221 | restores full coalescing after a free, through all levels, without touching an allocated block |
| BuddySystem.Buddy.FindTail | src/poptrie/buddy.c:196-202 | finds a flagged tail in the pair if and only if there is one |
| BuddySystem.Buddy.Unlink | src/poptrie/buddy.c:205-213 | the pointer-to-link walk removes exactly the two halves from the list |
| BuddySystem.Buddy.JoinTwins | src/poptrie/buddy.c:205-217 | the two halves become one free block of the next level |
| BuddyLists.BuddyIsFree | src/poptrie/buddy.c:196-204 | no tail bit over a pair means that the other half is a free block of the same level |
| BuddyLists.BuddyNotFree | src/poptrie/buddy.c:198-201 | a tail bit over a pair means that coalescing is already complete |
| BuddyLists.NoRoom | src/poptrie/buddy.c:96-117 | empty lists from level k up mean that no aligned run of 2^k blocks is free |
| BuddySystem.Buddy.Free | src/poptrie/buddy.c:237-281 | exactly the given block leaves the allocated set and the invariant is restored |
| BuddySystem.Buddy.FindSize | src/poptrie/buddy.c:243-251 | the smallest tail found is the size the block was allocated with |
| BuddySystem.Buddy.Return | src/poptrie/buddy.c:261-278 | the sorted insertion puts the block on its list, before the first block above it, and on no other |
| BuddySystem.Buddy.AllocThenFree | src/poptrie/buddy.c:145-281 | freeing what was just allocated restores every block, free or allocated |
| BuddyModel.Coalesced | src/poptrie/buddy.c:185-221 | every wholly free aligned region below the top size lies inside one free block |
| BuddyModel.HistoryIndependent | src/poptrie/buddy.c:96-281 | the whole partition, free blocks included, is determined by the allocated blocks |
| BuddySystem.SameAllocatedSameFree | src/poptrie/buddy.c:96-281 | two allocators with the same allocated blocks have the same free lists as sets |
| BuddyModel.RoomLeft | src/poptrie/buddy.c:145-179 | with fewer blocks of up to 64 units allocated than there are regions of 64 units, an aligned run of that size is free |
| BuddySystem.RequestMet | src/poptrie/buddy.c:145-179 | so a request for up to 64 units is met |
| BuddyModel.LiveDisjoint | src/poptrie/buddy.c:145-179 | allocated blocks fit and never overlap |
| BuddySystem.LiveIsArena | src/poptrie/buddy.c:145-281 | the allocated map is a set of disjoint ranges inside the arena |
| Rib.ValIsLpm | src/poptrie/poptrie.c:1908-1940 | walking all 32 bits of the tree gives the entry with the greatest matching length, or 0 |
| Rib.PutRoutes | src/poptrie/poptrie.c:1619-1665 | an update changes the route at its own path and at no other |
| Rib.PutHolds | src/poptrie/poptrie.c:1619-1902 | tree updates and updates of the finite map from (prefix, length) to next hop correspond |
| Rib.PutHeight | src/poptrie/poptrie.c:1619-1664 | the tree never grows beyond depth 32 |
| Rib.PutExtends | src/poptrie/poptrie.c:1619-1902 | no update removes a radix node |
| Radix.AddPropagate | src/poptrie/poptrie.c:1667-1696 | the new route reaches exactly the nodes that inherited the less specific one; the more specific node where it stops is marked too |
| Radix.ChangePropagate | src/poptrie/poptrie.c:1739-1754 | marks exactly the nodes that inherit the changed route |
| Radix.DelPropagate | src/poptrie/poptrie.c:1882-1902 | replaces exactly the caches of the deleted route by the next less specific one |
| Radix.AddRoute | src/poptrie/poptrie.c:1619-1665 | refuses a present route, else the tree becomes the one with the route added, with caches and depths right |
| Radix.ChangeRoute | src/poptrie/poptrie.c:1702-1737 | refuses an absent route, leaves an equal one, else changes it in place |
| Radix.UpdateRoute | src/poptrie/poptrie.c:1760-1814 | adds an absent route and changes a different one |
| Radix.DelRoute | src/poptrie/poptrie.c:1820-1880 | refuses an absent route, else deletes it; no node is removed |
| Radix.StillForked | src/poptrie/poptrie.c:1871-1875 | a node above the deleted route still has a child, so pruning never happens |
| Radix.ClearMark | src/poptrie/poptrie.c:1600-1612 | clears every mark below, although it stops at unmarked nodes |
| Radix.ClearMarks | src/poptrie/poptrie.c:893-894 | the marks of an update are cleared below its node |
| Radix.PutUnmarks | src/poptrie/poptrie.c:893-894 | after that no mark is left anywhere in the tree |
| Radix.RibLookupIsVal | src/poptrie/poptrie.c:1908-1940 | the remembered node gives the route cached at the last node on the path |
| Triangle.ParseTriangle | src/poptrie/poptrie.c:1555-1594 | entry i is the radix position six bits down along i, existing or not, and the vector flags exactly those with children |
| Triangle.NextBlockSees | src/poptrie/poptrie.c:1532-1549 | the block walk ends where the bit walk ends, or reports that the tree ends before |
| Trie.TopStep | src/poptrie/poptrie.c:12-13 | the chunk of the next n bits appends to the leading bits of the address |
| Trie.WalkStep | src/poptrie/poptrie.c:343-385 | a stride walk follows the bit walk |
| Trie.ConstVal | src/poptrie/poptrie.c:1173-1181 | one next hop stored for a uniform position is right for every address below it |
| Trie.CompressTracks | src/poptrie/poptrie.c:1224-1229 | replacing a node with a single next hop by a leaf keeps every answer |
| Trie.FreshTracks | src/poptrie/poptrie.c:1086-1232 | a node built with no old one agrees with the radix tree |
| TrieUpdate.RebuildTracks | src/poptrie/poptrie.c:1086-1232 | a node rebuilt with right reuse agrees with the new tree |
| TrieUpdate.AddReuse | src/poptrie/poptrie.c:1117-1119 | after an add, no marked child means that nothing changed below |
| TrieUpdate.KeptSame | src/poptrie/poptrie.c:1117-1119 | where no child is marked, keeping the slot is right if and only if no missing half inherits a changed route |
| TrieUpdate.AddReuseOK | src/poptrie/poptrie.c:1115-1172 | so every slot the add update keeps was right to keep, at every depth |
| TrieUpdate.AddReusePath | src/poptrie/poptrie.c:902-984 | and so on along the path to the updated block |
| TrieUpdate.ChunkOnPath | src/poptrie/poptrie.c:925-926 | the slot of the prefix, and no other, leads to the updated node |
| TrieUpdate.RefreshTracks | src/poptrie/poptrie.c:400-826 | the node patched along the path agrees with the new tree |
| TrieUpdate.LeafKept | src/poptrie/poptrie.c:650-655 | an update strictly below a right leaf that recompresses to one leaf gives the old next hop |
| TrieUpdate.ChangeReuse | src/poptrie/poptrie.c:1739-1754 | after a change or delete an unmarked kept slot can only be wrong below a missing half |
| TrieUpdate.TracksLook | src/poptrie/poptrie.c:343-385 | a node that agrees with the tree answers with the longest match, within the node depths 18, 24 and 30 |
| TrieUpdate.StaleSlot | src/poptrie/poptrie.c:1117-1119 | a kept slot whose missing half inherits the change answers some address wrongly |
| TrieUpdate.StaleRefresh | src/poptrie/poptrie.c:1115-1172 | and that wrong answer is visible from the root of the entry |
| Neatness.NeatRebuild | src/poptrie/poptrie.c:1086-1232 | a rebuilt node has known next hops, children only where the radix tree goes on, and below it no node with a single next hop |
| Neatness.NeatRefresh | src/poptrie/poptrie.c:400-826 | the same for the node patched along the path |
| Neatness.NeatUnique | src/poptrie/poptrie.c:1222-1229 | two such slots that agree with the same radix position are equal |
| Neatness.RebuildIsFresh | src/poptrie/poptrie.c:1115-1171 | copying what the reuse test keeps gives the node that a build from scratch gives |
| Overlook.NeighboursDecide | src/poptrie/poptrie.c:624-648 | replacing a leaf leaves the leaf vector alone exactly when its neighbours differ from the old and the new next hop |
| Overlook.LeafStays | src/poptrie/poptrie.c:650-655 | in a right fast form a leaf that is rebuilt into a leaf keeps its next hop |
| Overlook.NotOverlooked | src/poptrie/poptrie.c:650-655 | so the early exit loses no update of a right fast form |
| Overlook.OverlookedWrong | src/poptrie/poptrie.c:650-655 | an update lost to the early exit leaves the updated prefix itself answered wrongly |
| Store.KidAt | src/poptrie/poptrie.c:364-369 | the rank of a set vector bit is the child's place in the child block |
| Store.LeafAt | src/poptrie/poptrie.c:376-380 | the rank in the leaf vector is the next hop's place although runs continue across internal slots |
| Store.DegenerateMeans | src/poptrie/poptrie.c:1224-1229 | no child and one recorded leaf means a single next hop for all slots |
| Store.RepKept | src/poptrie/poptrie.c:846-871 | a stored tree survives every change that spares its blocks |
| PoptrieState.Init | src/poptrie/poptrie.c:104-193 | empty arenas, every direct entry a leaf with next hop 0, NULL as the only next hop |
| PoptrieState.Poptrie.AllocNodes | src/poptrie/poptrie.c:1184-1192 | one new block exactly when an aligned run is free, which it is unless the arena is tight; else an unchanged memory and a counted failure; no allocated block is touched |
| PoptrieState.Poptrie.FreeNodes | src/poptrie/poptrie.c:1397-1400 | exactly that block is freed and no other touched |
| PoptrieState.Poptrie.CopyNodes | src/poptrie/poptrie.c:1206-1214 | the structures are stored one by one in their block; at every moment all other blocks are as they were |
| PoptrieState.Poptrie.StoreDirect | src/poptrie/poptrie.c:461-463 | one store to a direct entry, seen at once in the array in use and not at all in the other |
| PoptrieState.Poptrie.Exchange | src/poptrie/poptrie.c:851-854 | the two direct arrays change places in one write |
| Trace.Spent | src/poptrie/buddy.c:145-281 | between two moments no more blocks can have become allocated than were asked for, and a request is refused only where the blocks asked for would fill an arena |
| Cost.BlockPosts | src/poptrie/poptrie.c:1086-1232 | a build needs no more than two blocks for every radix node below it |
| Build.PushLeaf | src/poptrie/poptrie.c:1173-1181 | horizontal compression records a leaf exactly where a run starts |
| Build.Compact | src/poptrie/poptrie.c:1206-1214 | the children end up in slot order, without gaps |
| Build.UpdateInodeChunk | src/poptrie/poptrie.c:990-1002 | a child is built; a single next hop returns its leaf block |
| Build.UpdateSlot | src/poptrie/poptrie.c:1115-1181 | rebuilds a slot with a marked child or without an old node, else takes over the old child or leaf |
| Build.PlaceNode | src/poptrie/poptrie.c:1184-1231 | the two blocks are fresh, of the least size that holds them, and filled, or exactly the blocks allocated before remain |
| Build.UpdateInode | src/poptrie/poptrie.c:1086-1232 | the new node is the specified rebuild; it adds only fresh blocks and shares only with the node it replaces |
| Sharing.SharesB | src/poptrie/poptrie.c:1151-1171 | every old block in the new tree comes from the tree it replaces |
| Clean.CleanInode | src/poptrie/poptrie.c:1438-1492 | frees exactly what the old subtree owns and the new one does not |
| Clean.CleanRoot | src/poptrie/poptrie.c:1374-1409 | the same at a root block, which is freed as well |
| Clean.CleanNode | src/poptrie/poptrie.c:1415-1436 | the same for the child block that a node left in place |
| Clean.CleanSubtree | src/poptrie/poptrie.c:1498-1526 | frees exactly the blocks of a subtree |
| Clean.GoneIsAll | src/poptrie/poptrie.c:1449-1491 | slot by slot and then the node itself: nothing shared is freed and nothing unshared stays |
| Entries.InstallRoot | src/poptrie/poptrie.c:453-471 | at every moment up to one store all allocated blocks are as they were; that store publishes a complete root; only after it is the old tree freed |
| Entries.PartRoot | src/poptrie/poptrie.c:423-472 | the entry becomes its rebuild from the radix tree, a node or a single next hop |
| Entries.SwitchedEntry | src/poptrie/poptrie.c:439-471 | the live blocks are the old ones with this entry's blocks exchanged: none leaked, none freed twice |
| Part.ScanLeaves | src/poptrie/poptrie.c:556-580 | the leaves around a replaced slot are compressed canonically again |
| Part.CopyKids | src/poptrie/poptrie.c:718-732 | the children around a replaced slot stay in slot order |
| Part.CompressFrame | src/poptrie/poptrie.c:551-671 | a node left with one next hop is compressed further, else rebuilt, with new leaves over the old children if only a leaf changed; an equal leaf vector ends the update |
| Part.GrowFrame | src/poptrie/poptrie.c:740-802 | a leaf slot becomes a child and the node is rebuilt around it |
| Part.StoreChild | src/poptrie/poptrie.c:710-738 | the same for a complete child block, published by one store of its base |
| Part.NothingChanged | src/poptrie/poptrie.c:650-655 | putting the same next hop back leaves the whole entry as it is |
| Part.StopsWhen | src/poptrie/poptrie.c:650-655 | a changed leaf is missed exactly when the node stays and the new leaf vector equals the old one |
| Part.ReleafsWhen | src/poptrie/poptrie.c:657-668 | only the leaf block is replaced exactly when a leaf changes, the node stays and the leaf vector does not |
| Part.LeavesReplaced | src/poptrie/poptrie.c:657-668 | the node with a new leaf block and the old child block is stored, and shares only the child block |
| Part.UpdatePart | src/poptrie/poptrie.c:400-826 | the entry becomes the old one patched along the path, unless the early exit leaves it as it was; nothing old is touched before a single publishing store or freed before it |
| Splice.StepUp | src/poptrie/poptrie.c:733-734 | a store into one node structure replaces one child of its parent and nothing else |
| Descent.DescendAndUpdate | src/poptrie/poptrie.c:902-984 | following the prefix through the nodes and updating there gives the refreshed entry, or leaves it where the early exit misses the change |
| FibTable.FibSwitch | src/poptrie/poptrie.c:400-826 | switching one entry leaves all others stored and the ownership exact |
| FibTable.DraftRenew | src/poptrie/poptrie.c:1303-1326 | an entry rebuilt in the alternative array disturbs no entry of the table in use |
| FibTable.DraftDone | src/poptrie/poptrie.c:851-871 | after the exchange and the clean pass the draft is the table and every live block has one owner |
| FibTable.MergedDrops | src/poptrie/poptrie.c:856-871 | the clean pass frees what the old table owned and the new one does not |
| FibTable.UntilPublished | src/poptrie/poptrie.c:847-854 | until publication every old entry stands |
| FibTable.EntrySwitchover | src/poptrie/poptrie.c:400-826 | when one entry is switched, every moment before it holds the old table and every moment from it on the new one |
| FibTable.DraftSwitchover | src/poptrie/poptrie.c:846-871 | the same at the exchange of the arrays, for all entries at once |
| Direct.FillAlt | src/poptrie/poptrie.c:1332-1344 | the entries below a missing subtree get the inherited next hop |
| Direct.UpdateDp2 | src/poptrie/poptrie.c:1295-1368 | exactly the 2^(18 - len) entries under a canonical prefix are rebuilt, all others unchanged; where the old entries were right, to what a build from scratch gives; success if the right half has no radix nodes, whatever happened |
| Direct.RenewedBuilt | src/poptrie/poptrie.c:1303-1326 | rebuilding a right entry with right reuse is building its radix block from scratch |
| Direct.GoRight | src/poptrie/poptrie.c:1346-1348 | setting the next prefix bit leads to the right half of the range |
| Direct.LeftHalfIff | src/poptrie/poptrie.c:1329-1348 | the left half of a range is where the code puts it exactly when the next bit of the prefix is zero; else the right half is written twice |
| Direct.FirstIndex | src/poptrie/poptrie.c:1332-1333 | the shifted index is the first entry under the prefix |
| Subtree.FindUpdated | src/poptrie/poptrie.c:1238-1293 | the walk finds the updated radix node without ever meeting a missing child |
| Subtree.CleanRange | src/poptrie/poptrie.c:856-871 | frees exactly what the replaced entries of the range owned and the new ones do not |
| Subtree.UpdateShort | src/poptrie/poptrie.c:846-871 | a short prefix: every moment before the exchange holds the old table, every moment from it on the new one, and then the old range is cleaned |
| Subtree.UpdateOne | src/poptrie/poptrie.c:874-888 | a long prefix: the one entry it goes through is refreshed, and the table changes hands at one moment |
| Routes.UpdateSubtree | src/poptrie/poptrie.c:832-897 | exactly the covered entries are refreshed; every moment before one write holds the old table, every later one the new; the marks are cleared |
| FastLookup.FastIsLook | src/poptrie/poptrie.c:362-385 | reading a stored tree by bit ranks gives what the tree says |
| FastLookup.FindIndex | src/poptrie/poptrie.c:343-385 | right or wrong, the lookup loop returns an index into the next-hop table in at most three node visits |
| FastLookup.FastIsVal | src/poptrie/poptrie.c:343-385 | entries that agree with the radix tree answer every address like it |
| Refinement.AddReuses | src/poptrie/poptrie.c:1117-1119 | after an add the reuse test is right in every covered entry |
| Refinement.UpdateTracks | src/poptrie/poptrie.c:832-897 | where the reuse test was right the refreshed table agrees with the changed tree |
| Refinement.ChangeRightIff | src/poptrie/poptrie.c:1117-1119 | after a change or delete all answers are right if and only if no outdated slot was kept |
| TableShape.NeatUpdate | src/poptrie/poptrie.c:832-897 | every update keeps the shape of all entries |
| TableShape.TrackingIsFresh | src/poptrie/poptrie.c:832-897 | a fast form that agrees with the radix tree is the one built from scratch, but for a kept top node |
| TableShape.RenewedIsFresh | src/poptrie/poptrie.c:846-871 | after a right update the covered entries are those of a build from scratch |
| Specifics.StaleRoute | src/poptrie/poptrie.c:1117-1119 | a wrongly kept slot has a route of its own in the half that has radix nodes |
| Specifics.NoHalfRouteReuse | src/poptrie/poptrie.c:1117-1119 | with no known route of length 25 or 31 below the changed one the reuse test is right |
| Routes.RouteAdd | src/poptrie/poptrie.c:236-270 | refuses a full next-hop table or a known route; else adds it, every address being answered as before at every moment up to one write and as after from then on; a valid table stays valid, and then these are the longest matches; from length 18 on it returns -1 exactly when it refused the route or was refused a block |
| Routes.HopIndex | src/poptrie/poptrie.c:243-261 | the first matching table index, or a new one while there is room |
| Routes.Lookup | src/poptrie/poptrie.c:343-385 | a known next hop, within three node visits; on a valid table that of the longest matching prefix, or NULL |
| Routes.RibLookupHop | src/poptrie/poptrie.c:391-394 | on every kept table the next hop of the longest matching prefix, from the radix tree |
| Routes.ServedAnswers | src/poptrie/poptrie.c:343-385 | a moment that holds the entries of a right table answers every address with its longest match |
| Routes.PublishesIntro | src/poptrie/poptrie.c:832-897 | where the table changes hands, all answers change from the old to the new ones at that moment |
| Routes.EntriesRead | src/poptrie/poptrie.c:846-871 | building and freeing change no answer, right or wrong |
| Routes.PutStepKeeps | src/poptrie/poptrie.c:832-897 | an update of a route, right or wrong, keeps routes, shape and ownership, and every radix node |
| Changes.RouteChange | src/poptrie/poptrie.c:276-295 | the routes change as promised on every kept table; a valid one stays valid exactly under the reuse condition |
| Changes.RouteUpdate | src/poptrie/poptrie.c:301-327 | upsert on every kept table; a valid one stays valid for a new route, else exactly under the reuse condition |
| Changes.RouteDel | src/poptrie/poptrie.c:333-337 | the route is gone on every kept table; a valid one stays valid exactly under the reuse condition |
| Changes.SetStep | src/poptrie/poptrie.c:1739-1754 | setting or deleting a present route: right if and only if no kept slot is outdated, and known to be so without routes of length 25 or 31 below |
| Runs.Create | src/poptrie/poptrie.c:104-193 | the fresh table is valid and has no routes |
| Runs.AddIsStep | src/poptrie/poptrie.c:236-270 | what an addition leaves is a right step of a run |
| Runs.SetIsStep | src/poptrie/poptrie.c:276-337 | what a change, update or deletion leaves is a step, and a right one when the two forms agree after it |
| Runs.RunKeeps | src/poptrie/poptrie.c:236-394 | every state of every run is consistent: routes, shape and exact ownership |
| Runs.RunExtends | src/poptrie/poptrie.c:1619-1902 | in every run no radix node is ever removed |
| Runs.RunRibAnswers | src/poptrie/poptrie.c:343-394 | in every run the radix tree answers with the longest match, and the fast form with some known next hop |
| Runs.RunMoments | src/poptrie/poptrie.c:236-394 | at every write of every run all addresses are answered as in one state no older than the last completed one, from allocated memory |
| Runs.RunAlwaysRight | src/poptrie/poptrie.c:236-394 | in a run without wrong changes, with the longest matches there |
| Runs.StepCount | src/poptrie/poptrie.c:1619-1665 | an operation adds at most the 33 nodes of one path |
| Runs.RunSound | src/poptrie/poptrie.c:236-394 | in a run without wrong changes every state is sound |
| Runs.RunAnswers | src/poptrie/poptrie.c:236-394 | in such a run every address gets its longest match, and every entry is the one built from scratch |
| Runs.StaleStep | src/poptrie/poptrie.c:1739-1754 | the condition on changes and deletions is necessary in every sound state |
| Runs.StaleChange | src/poptrie/poptrie.c:1117-1119 | after the change of a /24 above its left /25 an address keeps the old next hop |
| Runs.StaleRun | src/poptrie/poptrie.c:1117-1119 | two additions to the fresh table and that change are a run that ends in disagreement |
| Calls.Perform | src/poptrie/poptrie.c:236-337 | each operation has its outcome and keeps the table, and is refused no block in ample arenas |
| Calls.PerformsApply | src/poptrie/poptrie.c:236-337 | on the routes that outcome is what the operation does to a finite map |
| Calls.PerformsStep | src/poptrie/poptrie.c:236-337 | it is a step of a run, a right one where it is known to be safe |
| Calls.Execute | src/poptrie/poptrie.c:236-394 | every sequence of operations is a run and does to the routes what it does to a finite map; the fast form stays right if no change or deletion is above a route of length 25 or 31; none fails in ample arenas |
| Capacity.LiveFew | src/poptrie/poptrie.c:236-394 | whatever led to it, a table uses at most three blocks for every node of its radix tree |
| Capacity.NeverRefused | src/poptrie/buddy.c:145-179 | an operation on a table in ample arenas is refused no block |
| Wrong.StaleCalls | src/poptrie/poptrie.c:276-295 | three calls on a fresh table after which a lookup answers the old next hop; with the sizes of the stack none of them fails |
| Wrong.LostAnswer | src/poptrie/poptrie.c:650-655 | three additions after that change the early exit is met and the last one is lost |
| Wrong.LostCalls | src/poptrie/poptrie.c:236-295 | so the lookup of the address just added answers another route's old next hop |
| Wrong.ReleafAnswer | src/poptrie/poptrie.c:657-668 | one other addition after that change replaces the leaf block beside the old children |
| Wrong.ReleafCalls | src/poptrie/poptrie.c:236-295 | so the lookup of the address just added is right and that of the next slot still is not |
| Checksum.TwoFolds | src/ip.c:39-40 | two folds of any 32-bit sum leave 16 bits and the remainder by 65535 |
| Checksum.SumFits | src/ip.c:26-34 | 65537 words cannot overflow the 32-bit sum |
| Checksum.Cksum | src/ip.c:25-43 | the 32-bit loop with its two folds computes the checksum function, for odd sizes too |
| Checksum.ChecksumIs | src/ip.c:25-43 | the checksum is what the bytes, weighed by their place in a word, lack to a multiple of 65535 |
| Checksum.ChecksOut | src/ip.c:25-43 | it is 0 exactly when they weigh a positive multiple of 65535 |
| Checksum.OddSize | src/ip.c:36-37 | for an odd size it is the checksum of RFC 1071 if and only if the last byte is 0 |
| Checksum.RoundTrip | src/ip.c:208-210 | storing the checksum into a zero field makes the buffer check out |
| Checksum.OneWordDetected | src/ip.c:25-43 | altering one word, other than between 0 and 65535, is detected |
| Checksum.OneByteDetected | src/ip.c:25-43 | altering any one byte is detected |
| Checksum.Refresh | src/ip.c:206-210 | the TTL is one lower, the stored checksum is that of the header with a zero field, so that it checks out, and no other byte has changed |
| Arp.HashDigits | src/arp.c:14-16 | digit k of the slot number is the parity of the digits k of the four address bytes |
| Arp.NeighboursApart | src/arp.c:14-16 | addresses that differ in one byte have different slots |
| Arp.NeverEvicts | src/arp.c:40-58 | so learning one of them changes no answer for the other |
| Arp.JustLearnt | src/arp.c:40-58 | what was just learnt is answered |
| Arp.ArpState.constructor | src/arp.c:253 | zero table, empty queue |
| Arp.ArpState.FindMac | src/arp.c:40-46 | answers exactly when the slot's last learnt address is this one |
| Arp.ArpState.Learn | src/arp.c:54-58 | the table is a function of what was learnt |
| Arp.AnswerIsRecent | src/arp.c:40-58 | an answer is the most recently learnt one, except for the unused slot of 0.0.0.0 |
| Arp.EvictedOnly | src/arp.c:54-58 | a learnt address is unknown only after another address of its slot was learnt |
| Arp.ArpState.AddToSendbuf | src/arp.c:222-235 | the frame is at the head of the queue, all others follow |
| Arp.ArpState.Transmit | src/ip.c:225-239 | a known next hop gets the frame at once; else that very address is asked for and the frame queued |
| Arp.ArpState.Request | src/arp.c:66-90 | the question goes to everybody, for the given address, with the interface's own addresses |
| Arp.ArpState.RequestInput | src/arp.c:98-137 | learns the sender, answers it only for the interface's own address, sends no queued frame |
| Arp.ArpState.ReplyInput | src/arp.c:145-182 | every queued frame with a known next hop is sent once, in order, to the learnt address; the others stay |
| Arp.ArpState.Input | src/arp.c:190-213 | only a question or an answer for IPv4 over Ethernet has an effect, the one or the other |
| Arp.Conserved | src/arp.c:158-181 | frames sent and frames kept are together the frames that were queued |
| Arp.SentIsDue | src/arp.c:166-172 | each due frame goes out once, changed only in its destination |
| Arp.FlushRecent | src/arp.c:158-181 | over any run each queued frame that was sent is an output of its own, to the address most recently learnt for its next hop |
| Forwarding.Ipv4Stack.AddRoute | src/ip.c:129-144 | the prefix gets a pointer to a new entry, unless it has a route or the next-hop table is full, and every route still goes through an interface of the host |
| Forwarding.Ipv4Stack.AddInterface | src/my_ifnet.c:113-124 | the interface joins the list and the leading bits of its address, if not all 0, become a route without a gateway |
| Forwarding.Ipv4Stack.IsToMe | src/ip.c:67-75 | the loop finds an interface with the address if and only if there is one |
| Forwarding.MaskedKey | src/my_ifnet.c:113-122 | masking an address changes no digit of its network |
| Forwarding.Ipv4Stack.Ends | src/ip.c:82-97 | a packet for the interface of its route is for the host, so that input does not forward it again |
| Forwarding.Ipv4Stack.Input | src/ip.c:82-108 | a packet with the address of some interface goes to TCP or UDP or is dropped; any other is forwarded through its route if bridging is on, its TTL exceeds 1 and there is one, else dropped |
| Forwarding.Ipv4Stack.Forward | src/ip.c:191-240 | what the lookup answers, the longest match on a valid table, decides between drop, delivery and transmission, to the gateway of the route or without one to the destination; the recursion always ends |
| Forwarding.Ipv4Stack.Output | src/ip.c:115-118 | an own packet starts with TTL 32 and then fares like a forwarded one: it leaves with TTL 31 and a header that checks out |

## Left out

- src/poptrie/poptrie6.c: a copy of the algorithm for 128-bit addresses, whose shifts do not carry over as written.
- Readers that are interrupted: a lookup reads at one moment of the record; one that still follows an old node while the clean pass frees it, which nothing in the code prevents, is not modelled.
- malloc and free of the radix nodes and tables, and poptrie_release: objects are allocated as needed, and their failure is not modelled.
- Pointers into the arenas: blocks and node structures are indices into arrays, and the links inside free blocks are an array of their own.
- Local arrays of the update (children, leaves, the parsed triangle, the path stack): sequences; the node structures they hold are copied as values.
- BuddySystem.Buddy.constructor: requires sz <= 28, because beyond that the size of the arena, 4 << sz bytes, overflows an int.
- PoptrieState.Poptrie.AllocNodes: requires a level of at most 6, that is 64 units, as does AllocLeaves; no caller asks for more.
- Radix.RibLookup: a node at depth 32 has no children, so the shift by -1 there is not modelled.
- Radix.ClearMarks: reaches the updated node again along its prefix, where the code kept a pointer to it.
- Part.CopyKids: one loop for the three loops of `_update_part` that copy children around a changed slot.
- Subtree.FindUpdated: only the walk of `_update_dp1`; its loops for missing children are never reached.
- Direct.UpdateDp2: requires that a prefix shorter than 18 bits has no host bits (see Direct.LeftHalfIff), as do the operations on routes; models only the alternative array; the direct array is updated by it at depth 18 alone.
- Changes.RouteChange: requires room in the next-hop table for a new next hop, which the code does not check.
- Changes.RouteUpdate: requires room in the next-hop table for a new next hop, which the code does not check.
- Routes.RouteAdd: promises nothing but well-formed memory once an allocation has failed, because the radix tree is then ahead of the fast form; the same goes for the other operations, and Calls.Execute stops there.
- Checksum.Cksum: states nothing beyond 131074 bytes, where the 32-bit sum may wrap; the only caller passes at most 60.
- Forwarding.Ipv4Stack.Forward: requires a header of at least 20 bytes and a total length within the buffer, as do Input and Output; the code accepts any header and reads past a short buffer. A route without an interface is not modelled.
- Forwarding.Ipv4Stack.AddRoute: promises nothing of the routing table once an allocation has failed; the list of routes that is kept for printing is not modelled.
- Forwarding.Ipv4Stack.AddInterface: requires a prefix length of at least 1, because the mask for 0 shifts by the width of an int; the rest of create_if is not modelled.
- A queued frame has the destination 0 in the model; in the code it is what was on the stack.
- Ethernet bridging, TCP, UDP and IPv6 input, interface setup, printing and the command loop: outside the forwarding core; frames are handed to an event log.
