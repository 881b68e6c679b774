# Verification of softBTS

softBTS plays a GSM base station towards a base station controller over Abis/IP. This project
models the stateful parts of the program in Dafny and proves what they keep, over all inputs and
over whole runs. Imperative code is modelled by classes and methods with loops; each such method is
proved against a function of its inputs or of its old state, and the promises of the program are
lemmas about those functions or invariants that every method keeps.

| files | part |
|---|---|
| TallocTrees, TallocForest, TallocFree, TallocGrow | the allocator's hierarchy as a forest, and its operations as functions on forests |
| TallocRefusal, TallocReferences, TallocTangle, TallocOwners | what freeing and unlinking mean |
| TallocMemory, TallocHandles, TallocMoves, TallocHeap, TallocNeighbours, TallocRuns | chunk headers in memory, the operations on them, and runs |
| Pools | memory pools |
| Terminal, LineEditor, LineKeys, LineHistory, Telnet | the line editor of a terminal session, what its keys mean together, the lines it remembers, and the telnet decoder |
| ConfigLock | nodes of terminal sessions and the configuration lock |
| OutputBuffer | buffered output to a terminal |
| LinuxList, Timers, Select | intrusive circular lists, timers and descriptor dispatch |
| Vectors, CommandLine, CommandMatcher, CommandWords | sparse vectors, words of a line, finding a command, and what one word of it does |
| OmlMessages, OmlAttributes, OmlHandler, OmlBringUp, OmlReports | O&M messages, the attribute walk, the request handler, the order of a bring-up, and what requests do to the objects and what is then reported |
| Sequences, Bytes | facts about sequences, and the type of bytes |

`dafny verify dfyconfig.toml` checks all of it.

## How the parts are modelled

- **Allocator.** Memory is a map from addresses to chunk headers with the source's fields. A forest
  (parents, ordered children, ordered reference handles, chunks being freed, refusing chunks) is the
  abstract state, and a predicate says that the pointers represent it. Every method of the heap is
  proved to take memory from representing one forest to representing the next one. Addresses that
  malloc returns are parameters.
- **Pools.** Only what pools use of a header: size, kind, pool link. Sizes are those of a 64-bit
  build: a header of 80 bytes, a pool header of 16.
- **Line editor.** The echo stream is interpreted on a terminal that overwrites and advances on a
  character and steps back on a backspace. Everything is stated on the first `length` bytes of the
  buffer, which is an array that grows by doubling.
- **Descriptors, clocks, callbacks.** What a write accepts, the time, and what a callback does
  are functions of a step counter that nothing restricts except where a theorem says so.
- **Commands.** Number range and address syntax are parameters of the matcher.
- **O&M handler.** One buffer array holds the request and takes the replies, as in the source.

## Where the program does less than it seems to promise

Each of these is proved, with a condition under which the promise does hold.

- Freeing a chunk moves what is still referenced from outside to the owner of the reference. When
  chunks of the subtree refer to each other so that every such owner is again below what it owns,
  chunks that are reachable from outside are freed all the same (TallocTangle.TangleLost). The split
  is exact if and only if the re-parented chunks form no cycle (TallocReferences.FreeSplitsSubtree).
- A chunk that is being freed finds its former parent over the pointer to its former left neighbour.
  If that neighbour is a reference handle and is freed first, the way leads through memory that was
  given back (TallocNeighbours.LeadsIntoFreed), and a few calls lead to such a chunk
  (TallocNeighbours.LostNeighbour). A chunk with children and a handle on its left is the one case
  that TallocHeap.Heap.Free asks its caller to avoid on this account.
- A pool that was freed keeps its block until its last member goes. When that last member is resized
  and finds no room in the pool, the count reaches zero and the block is never released
  (Pools.OutgrownPool). On any run the blocks lost are exactly those of such resizes (Pools.Run,
  Pools.LeaksMeans).
- A telnet command whose option byte is not in the same read is skipped without it, and the option
  byte is acted on: it starts a command, is stored, or is taken as typed (Telnet.WaitingRead). A read
  may end somewhere without making a difference to anything that follows if and only if no command
  is waiting there (Telnet.SplitExact).
- In the attribute walk of Set BTS Attributes the tag is not read again after a cell identity, so
  everything behind one is passed over in steps of ten bytes (OmlAttributes.CgiRounds). The walk ends
  if and only if the number of bytes behind the first cell identity is even (OmlAttributes.WalkEnds);
  it ends at the end of the attributes if and only if that number is a multiple of ten
  (OmlAttributes.WalkEndsAtEnd), stops at each attribute if and only if each attribute behind it takes
  ten bytes (OmlAttributes.WalkStops), and has the right tag there if and only if each is a cell
  identity (OmlAttributes.WalkIsExact). Behind a cell identity a base station identity code makes the
  8-bit length wrap (OmlAttributes.MisreadBsic) and a frequency number makes the walk endless
  (OmlAttributes.MisreadFrequency).
- The loop that flushes a whole queue tests `errno` after writes that did not fail. After one
  interrupted write a descriptor that accepts nothing keeps it for ever (OutputBuffer.NeverFlushed).
  Flushing ends for every queue if some write ends it or there are always more writes that move
  something; if neither holds, a queue longer than what is still accepted is never flushed
  (OutputBuffer.Buffer.FlushAll, OutputBuffer.Buffer.FlushRounds).
- The dispatch loop saves the next descriptor before a callback and starts again when two or more were
  unregistered. It goes on from a removed entry if and only if a callback unregisters exactly one
  descriptor, the first since the walk was started, and that is the saved one
  (Select.Selector.Dispatch).
- The last switch of the request handler looks at the discriminator in the buffer that the reply has
  overwritten. For formatted requests this makes no difference; for a manufacturer-specific one it
  does whenever a reply was sent (OmlHandler.InPlaceRefines), for example an Opstart of the site
  manager (OmlHandler.ManufacturerDiffers).
- The report that answers an Activate SW has fixed contents. It tells the states that were asked for if
  and only if the object is locked, and was started if it is the site manager, else was not
  (OmlReports.ActivationTells); a started channel whose software is activated again is reported as
  disabled (OmlReports.ActivationMisreports). Every other report that a request brings tells the states
  last asked for (OmlReports.ReportsTell).
- In the editor the key for the next line leads back to a newer line, but not after the key for the
  previous line was pressed once for each slot of a full history: the recall position is then where it
  is before any recall, and the key does nothing (LineHistory.RecallForth).
- Set Channel Attributes and Set Radio Carrier Attributes are answered with the acknowledgement of
  Set BTS Attributes; the model sends what the code sends.

## Model

| member | source | states |
|---|---|---|
| TallocReferences.FreeSplitsSubtree | lib/talloc/talloc.c:510-613 | Freeing an unreferenced chunk whose subtree holds referenced chunks always terminates and returns 0. It splits the subtree exactly - what is reachable from outside over child and handle-to-referent edges lives on under the owner of a reference, the rest is freed - if and only if re-parenting the reachable chunks that way gives no cycle. |
| TallocTangle.TangleLost | lib/talloc/talloc.c:566-586 | The condition is needed: in a concrete forest with two chunks that refer to each other from inside the freed subtree, a chunk that is reachable from outside is freed. |
| TallocRefusal.FreeWithRefusals | lib/talloc/talloc.c:542-586 | With no references and a fixed set of refusing destructors, a chunk that refuses leaves the forest as it is and gives -1; otherwise exactly the chunks above the topmost refusing ones are freed, and those move, subtrees intact, to the front of the former parent's children (or become roots). |
| TallocOwners.ReferenceAddsOwner | lib/talloc/talloc.c:485-504 | Taking a reference adds exactly the context, a live chunk, to the multiset of owners of the referent and changes no other chunk's owners. |
| TallocOwners.UnlinkRemovesOwner | lib/talloc/talloc.c:679-754 | Unlinking succeeds exactly when the context is an owner, and is not the last one of a chunk that refuses. It then removes that owner once, also when it was the parent and a reference holder inherits the chunk. If an owner is left, every other chunk that is not the dropped handle keeps its owners; if none is left, the chunk is freed, and what is outside its subtree and no handle keeps its parent. |
| TallocMoves.MutualLinks | lib/talloc/talloc.c:199-224 | In every memory that represents a forest the sibling links are mutually inverse, and so are first-child and parent links. |
| TallocMoves.ParentAtFirst | lib/talloc/talloc.c:230-242 | Exactly the first sibling carries the parent pointer. |
| TallocMoves.MovedRepresents | lib/talloc/talloc.c:1073-1092 | Patching the neighbours after a chunk moved makes memory represent the same forest with the chunk renamed. |
| TallocMoves.MakeHandleRepresents | lib/talloc/talloc.c:485-504 | Setting up a handle and pushing it on the referent's list represents the forest with that handle. |
| TallocMemory.UnlinkOffList | lib/talloc/talloc.c:213-224 | Taking a chunk off the list of its parent leaves a memory that represents the forest without it on the list, whatever its place, and keeps its own backward link. |
| TallocMemory.StealLinks | lib/talloc/talloc.c:199-211 | Pushing an unlisted chunk in front of a parent's children represents the stolen forest. |
| TallocMemory.RootLinksMade | lib/talloc/talloc.c:634-647 | Clearing the links of an unlisted chunk represents the forest in which it is a root. |
| TallocHandles.DropRefLinks | lib/talloc/talloc.c:442-447 | The destructor of a handle takes it, from any place, off the list of its referent and touches no tree link. |
| TallocForest.StealOk | lib/talloc/talloc.c:620-670 | Re-parenting a chunk to one outside its subtree keeps the forest well formed: ordered lists without duplicates, no cycle. |
| TallocForest.DetachOk | lib/talloc/talloc.c:555-565 | A chunk marked as being freed and taken off its list leaves a well-formed forest. |
| TallocForest.ReleaseInSteps | lib/talloc/talloc.c:442-447 | Dropping a handle from its referent, detaching it and giving it back is the same as removing it from the forest. |
| TallocGrow.NewChunkOk | lib/talloc/talloc.c:337-385 | A new first child keeps the forest well formed. |
| TallocGrow.RenameOk | lib/talloc/talloc.c:1073-1090 | Renaming a moved chunk keeps the forest well formed. |
| TallocFree.Free | lib/talloc/talloc.c:510-613 | The recursive free, for every forest with at most one reference per chunk, terminates and gives 0 or -1; outside the subtree only handles disappear and nothing moves, and a chunk that is freed is gone while one that refuses stays. |
| TallocFree.FreeKids | lib/talloc/talloc.c:567-586 | The loop over the children ends with none left; outside the subtree only handles disappear. |
| TallocTrees.ReparentWellFounded | lib/talloc/talloc.c:620-670 | Hanging a subtree under a chunk outside it creates no cycle. |
| TallocHeap.Heap.ParentChunk | lib/talloc/talloc.c:230-242 | Walking back to the first sibling finds the parent of the chunk in the forest. |
| TallocHeap.Heap.IsParent | lib/talloc/talloc.c:1788-1805 | True exactly when the chunk is in the subtree of the context. |
| TallocHeap.Heap.Unlist | lib/talloc/talloc.c:213-224 | Takes a chunk off its list in memory, as a first, middle or last sibling. |
| TallocHeap.Heap.PushFront | lib/talloc/talloc.c:199-211 | Makes a chunk the first child and moves the parent pointer to it. |
| TallocHeap.Heap.Remove | lib/talloc/talloc.c:214-224 | Takes a handle off the list of its referent in memory, as its first, middle or last entry. |
| TallocHeap.Heap.Steal | lib/talloc/talloc.c:620-670 | Memory after a steal represents the forest with the chunk as first child of its new parent, or as a root. |
| TallocHeap.Heap.DropReference | lib/talloc/talloc.c:442-447 | Memory after a handle's destructor represents the forest without that reference. |
| TallocHeap.Heap.Free | lib/talloc/talloc.c:510-541 | Memory after a free, and its result, are those of the free on forests. |
| TallocHeap.Heap.UnlinkForFree | lib/talloc/talloc.c:542-565 | The part before the loop over the children: destructor run, chunk unlinked and marked. |
| TallocHeap.Heap.FreeUnreferenced | lib/talloc/talloc.c:542-613 | Freeing a chunk without references, with the loop over its children, does what the free on forests does. |
| TallocHeap.Heap.FreeHandle | lib/talloc/talloc.c:528-530 | Freeing a handle removes exactly that handle. |
| TallocHeap.Heap.EmptyKids | lib/talloc/talloc.c:567-586 | The loop that frees the first child until none is left, moving to the new parent what refuses, does what the forest function does. |
| TallocHeap.Heap.FreeChildren | lib/talloc/talloc.c:914-953 | Frees the children and keeps the chunk; nothing for a null pointer. |
| TallocHeap.Heap.Alloc | lib/talloc/talloc.c:337-385 | A new chunk is the first child of its context or a root; a size from the maximum on gives null and changes nothing. |
| TallocHeap.Heap.SetDestructor | lib/talloc/talloc.c:420-424 | Only what the destructor of that chunk answers changes. |
| TallocHeap.Heap.Reference | lib/talloc/talloc.c:485-504 | Memory after taking a reference represents the forest with a new handle under the context; a null pointer is left alone. |
| TallocHeap.Heap.Unreference | lib/talloc/talloc.c:679-700 | Frees the first handle whose parent is the context, or gives -1 and changes nothing. |
| TallocHeap.Heap.UnlinkContext | lib/talloc/talloc.c:707-754 | Memory and result after unlinking are those of the forest function of which ownership is proved. |
| TallocHeap.Heap.Realloc | lib/talloc/talloc.c:1000-1096 | All cases of a resize: size zero frees, too large or referenced gives null and changes nothing, a null pointer allocates, a small shrink stays in place, everything else moves with the forest renamed. |
| TallocHeap.Heap.MoveChunk | lib/talloc/talloc.c:1073-1092 | The header is at its new place and exactly its parent's, first child's and neighbours' links to it follow. |
| TallocNeighbours.LeadsIntoFreed | lib/talloc/talloc.c:213-242 | In every memory that represents a forest, a chunk whose left neighbour is a reference handle still points to it, and has no parent pointer of its own, after it was taken off its list and the handle was freed. |
| TallocNeighbours.LostNeighbour | lib/talloc/talloc.c:555-586 | Six calls lead to a forest in which a chunk may be freed but stands behind a handle; the handle refers to its first child and its second child refuses, which is when the loop asks for its parent. |
| TallocNeighbours.Neighbours | lib/talloc/talloc.c:213-224 | The links around such a chunk. |
| TallocRuns.Perform | lib/talloc/talloc.c:199-1096 | One command takes memory, and the size of every chunk, to exactly the state the command function gives; the function decides from the sizes whether a resize stays, moves or is refused. |
| TallocRuns.Run | lib/talloc/talloc.c:199-1096 | On every run of allocations, steals, resizes, frees, frees of children, references, unreferences, unlinks and destructor settings memory represents, after each step, the one ordered forest the commands make, with every chunk at its last address and of its last size. |
| TallocRuns.MovedAndUsed | lib/talloc/talloc.c:1049-1096 | A resize that moves a chunk leaves it with its old parent and its new size at the new address, where the next command can steal it, and its old address free for an allocation; every run of the moved forest is the rest of a run. |
| TallocRuns.Shrink | lib/talloc/talloc.c:420-953 | The commands that make no chunk: the forest is the one the command function gives, and no chunk is new or changes its size. |
| TallocRuns.Grow | lib/talloc/talloc.c:337-504 | The commands that make a chunk: it gets the address and the size asked for, and nothing else changes its size. |
| TallocRuns.Change | lib/talloc/talloc.c:1000-1096 | A resize: at most the resized chunk changes its address and its size. |
| Pools.LiveChunksApart | lib/talloc/talloc.c:283-332 | In every reachable state two live chunks that are not pool and member occupy disjoint ranges, and a member lies inside its pool. |
| Pools.PlacedOk | lib/talloc/talloc.c:299-329 | Bump allocation gives an aligned, unused place and keeps all chunks apart. |
| Pools.RemoveOk | lib/talloc/talloc.c:590-611 | Taking a chunk away keeps the rest apart. |
| Pools.LeaksMeans | lib/talloc/talloc.c:1049-1077 | A block is lost exactly when its pool was freed, the resized chunk was its last member, and the pool has no room for the new size. |
| Pools.OutgrownPool | lib/talloc/talloc.c:1049-1077 | Concrete run that reaches a count of zero without the block being released. |
| Pools.PoolHeap.AllocPool | lib/talloc/talloc.c:283-332 | Allocates in the pool of the parent if there is room, counting one more object, and otherwise changes nothing. |
| Pools.PoolHeap.Alloc | lib/talloc/talloc.c:337-385 | Places a chunk in the pool of its parent or in a block of its own. |
| Pools.PoolHeap.CreatePool | lib/talloc/talloc.c:391-412 | A new pool is empty and its object count is one. |
| Pools.PoolHeap.Release | lib/talloc/talloc.c:588-611 | Freeing a member or a pool lowers the count by one, and the block is released exactly when the count was one. |
| Pools.PoolHeap.Reset | lib/talloc/talloc.c:945-951 | Only a pool without members gets its whole room back. |
| Pools.PoolHeap.Realloc | lib/talloc/talloc.c:1049-1077 | Resizing a member keeps it, moves it within the pool with the count unchanged, or moves it out with the count lowered by one; every other chunk stays; the blocks lost are exactly those named by the leak condition. |
| Pools.Perform | lib/talloc/talloc.c:283-1077 | One command takes places, counts and lost blocks to what the command function gives. |
| Pools.Run | lib/talloc/talloc.c:283-1077 | On every run of allocations, new pools, frees, resets and resizes chunks stay apart and counts right, the state is exactly the one the commands make, and the blocks lost are exactly those of the resizes that meet the leak condition. |
| Terminal.ShowTyped | lib/vty/vty.c:349-357 | Echoed text overwrites the screen from the cursor on. |
| Terminal.ShowBacks | lib/vty/vty.c:382-386 | Echoed backspaces move the cursor back and change nothing. |
| Terminal.InsertAgrees | lib/vty/vty.c:369-386 | The echo of an insertion makes the screen show the new line with the cursor behind the character. |
| Terminal.OverwriteAgrees | lib/vty/vty.c:388-401 | The echo of an overwriting character makes the screen show the new line. |
| Terminal.BackAgrees | lib/vty/vty.c:422-429 | A backspace keeps screen and line in agreement one position to the left. |
| Terminal.DeleteAgrees | lib/vty/vty.c:768-795 | The echo of a deletion closes the gap on the screen, blanks the last cell and returns the cursor. |
| Terminal.KillAgrees | lib/vty/vty.c:808-825 | The echo of a kill blanks the rest of the line. |
| Terminal.RedrawAgrees | lib/vty/vty.c:700-704 | Echoing the whole line on an empty screen shows it. |
| LineEditor.Editor.Ensure | lib/vty/vty.c:359-367 | The buffer grows when it must and keeps the line. |
| LineEditor.Editor.SelfInsert | lib/vty/vty.c:369-386 | Inserts at the cursor; the screen keeps agreeing. |
| LineEditor.Editor.SelfInsertOverwrite | lib/vty/vty.c:388-401 | Overwrites at the cursor or appends; the screen keeps agreeing. |
| LineEditor.Editor.ForwardChar | lib/vty/vty.c:413-420 | One step right, not past the end of the line. |
| LineEditor.Editor.BackwardChar | lib/vty/vty.c:422-429 | One step left, not before the start. |
| LineEditor.Editor.BeginningOfLine | lib/vty/vty.c:431-436 | The cursor ends at the start. |
| LineEditor.Editor.EndOfLine | lib/vty/vty.c:438-443 | The cursor ends behind the line. |
| LineEditor.Editor.ForwardWord | lib/vty/vty.c:706-714 | The cursor skips the rest of a word and then blanks. |
| LineEditor.Editor.BackwardWord | lib/vty/vty.c:716-731 | The cursor goes back over blanks and then to the start of the word. |
| LineEditor.Editor.DeleteChar | lib/vty/vty.c:768-795 | Removes the character under the cursor, if any, in place. |
| LineEditor.Editor.DeleteBackwardChar | lib/vty/vty.c:797-805 | Removes the character before the cursor, if any. |
| LineEditor.Editor.KillLine | lib/vty/vty.c:807-825 | Keeps what is before the cursor. |
| LineEditor.Editor.KillLineFromBeginning | lib/vty/vty.c:827-832 | Leaves an empty line. |
| LineEditor.Editor.ForwardKillWord | lib/vty/vty.c:834-841 | Removes the blanks and the word ahead, found on the line as it was. |
| LineEditor.Editor.BackwardKillWord | lib/vty/vty.c:843-850 | Removes the word behind and the blanks after it. |
| LineEditor.Editor.TransposeChars | lib/vty/vty.c:852-879 | Exchanges two characters around the cursor, or does nothing on a short line or at its start. |
| LineEditor.Editor.RedrawLine | lib/vty/vty.c:699-704 | Echoes the line and puts the cursor behind it. |
| LineEditor.Editor.HistoryPrint | lib/vty/vty.c:641-654 | The line becomes the recalled one, with the cursor behind it. |
| LineEditor.Editor.NextLine | lib/vty/vty.c:656-678 | Recalls the next newer line unless there is none. |
| LineEditor.Editor.PreviousLine | lib/vty/vty.c:680-697 | Recalls the next older line unless there is none. |
| LineEditor.Editor.HistAdd | lib/vty/vty.c:445-473 | A non-empty line that differs from the newest one is stored in the next slot of the ring, any non-empty line returns the recall position to the newest, and nothing else changes. |
| LineEditor.Editor.Enter | lib/vty/vty.c:576-602 | Hands over the line, remembers it and starts an empty one. |
| LineEditor.Editor.StopInput | lib/vty/vty.c:1108-1132 | Drops the line and resets the recall position. |
| LineEditor.Editor.EnterAndRecall | lib/vty/vty.c:445-473 | Round trip: a line that is entered and recalled at once comes back unchanged, with the cursor behind it. |
| LineEditor.Editor.EscapeMap | lib/vty/vty.c:1140-1161 | The arrow keys recall and move. |
| LineEditor.Editor.MetaKey | lib/vty/vty.c:1244-1271 | The keys after an escape move over words or kill them. |
| LineEditor.Editor.MoveKey | lib/vty/vty.c:1273-1304 | The control keys that move or recall. |
| LineEditor.Editor.DeletionKey | lib/vty/vty.c:1283-1313 | The control keys that delete. |
| LineEditor.Editor.PlainKey | lib/vty/vty.c:1273-1343 | A key outside escape sequences. |
| LineEditor.Editor.Key | lib/vty/vty.c:1237-1343 | Any key, outside escape sequences one that edits, changes line, cursor, history and escape state as the edit function says. |
| LineEditor.Editor.Keys | lib/vty/vty.c:1192-1344 | After any sequence of keys, outside escape sequences of keys that edit, the terminal shows the line followed by blanks with the cursor at the edit position, line, cursor and history are what the keys spell, and cursor <= length < buffer size. |
| LineHistory.RememberedIs | lib/vty/vty.c:445-473 | If the ring holds the last lines of a list, after a line is entered it holds the last lines of the list with this one added, unless it is empty or equal to the last one. |
| LineHistory.KeysRecord | lib/vty/vty.c:1192-1344 | Over any keys the ring holds the last 20 of the lines that were entered, in order, one equal to the one before it only once. |
| LineHistory.TypedLines | lib/vty/vty.c:576-602 | Typing any lines of text, each with a return, enters exactly these lines. |
| LineHistory.PreviousLines | lib/vty/vty.c:680-697 | Any number of presses of the key for the previous line: with free slots they stop at the oldest line, with a full ring they go round. |
| LineHistory.NextLines | lib/vty/vty.c:656-678 | Any number of presses of the key for the next line from any recalled line. |
| LineHistory.RecallAfter | lib/vty/vty.c:445-697 | Lines typed after any past and then any number of presses of the key for the previous line: which line is shown, with the cursor behind it. |
| LineHistory.RecallTyped | lib/vty/vty.c:445-697 | After lines 1 to n, neighbours different, k presses of the key for the previous line, with k at most n and at most 20, show line n-k+1 with the cursor behind it. |
| LineHistory.RecallForth | lib/vty/vty.c:656-697 | Fewer than k presses of the key for the next line then lead as many lines on, if k is less than 20; if it is 20 they do nothing. |
| LineHistory.Stopped | lib/vty/vty.c:1108-1132 | The key that stops the input keeps what is remembered, and the newest line is recalled next. |
| LineHistory.TypeAndRecall | lib/vty/vty.c:1192-1344 | The same on an editor of any buffer size, with what the terminal shows. |
| LineKeys.MovedInsert | lib/vty/vty.c:369-443 | Where a typed character goes after each of the keys that move the cursor; they do nothing at the ends of the line. |
| LineKeys.TypedAndDeleted | lib/vty/vty.c:768-805 | Backspace takes back a typed character, and so does stepping over it and deleting. |
| LineKeys.WordBehind | lib/vty/vty.c:716-850 | The key that kills the word behind the cursor removes the blanks up to the cursor and the word before them, and nothing else; the key that goes back a word goes to the same place. |
| LineKeys.WordAhead | lib/vty/vty.c:706-841 | The key that goes forward a word ends behind the rest of the word and the blanks after it; the key that kills the word ahead removes the blanks and the word after them, and nothing else. |
| LineKeys.Transposed | lib/vty/vty.c:852-879 | The key that exchanges two characters does so around the cursor, or with the last two at the end of the line, ends behind them, and does nothing at the start or on a shorter line. |
| LineKeys.Arrows | lib/vty/vty.c:1140-1271 | The arrow keys, and the escape form of that kill, are the control keys. |
| Telnet.WindowSizeArrives | lib/vty/vty.c:525-573 | Round trip: every 16-bit width and height, encoded with doubled 255s and split over reads in any way that does not separate a command from its option, arrives exactly, and the edit line gets none of it. |
| Telnet.SplitRead | lib/vty/vty.c:1192-1216 | Splitting a read anywhere but between a skipped command and its option makes no difference. |
| Telnet.SplitExact | lib/vty/vty.c:1192-1216 | A read can end behind some bytes without making a difference to any bytes that follow if and only if no command is waiting for its option there. |
| Telnet.WaitingRead | lib/vty/vty.c:1192-1216 | The exception is real, for every state, every read that ends in a waiting command and every option: in one read the option is skipped; in the next it starts a command, is stored in the subnegotiation or is taken as typed text, which is never the same. |
| Telnet.FeedPayload | lib/vty/vty.c:1193-1207 | Payload with doubled 255s is stored as it was before doubling. |
| Telnet.Decoder.TelnetOption | lib/vty/vty.c:476-573 | A command opens or closes a subnegotiation, takes over a window size of the right length, or skips its option. |
| Telnet.Decoder.Take | lib/vty/vty.c:1192-1216 | One byte changes the decoder as the byte function says and never stores outside the subnegotiation buffer. |
| Telnet.Decoder.Read | lib/vty/vty.c:1192-1216 | A read changes the decoder as the bytes in turn do. |
| Telnet.Decoder.ReadAll | lib/vty/vty.c:1172-1216 | So does any sequence of reads, with the state surviving between them. |
| ConfigLock.Terminals.Run | lib/vty/vty.c:143-182 | On every run of connections and input for any number of terminals, a terminal is in the config or line node exactly when it holds the lock, at most one does, and the nodes are those of a rule that needs no flags: a terminal enters exactly when no other is in. |
| ConfigLock.RunKeepsExclusive | lib/vty/vty.c:254-270 | That rule alone keeps all terminals but one out, over all runs. |
| ConfigLock.ShutOut | lib/vty/command.c:2282-2295 | Whatever is typed, a terminal stays out of the config and line nodes while another is in. |
| ConfigLock.NeverSubscr | lib/vty/command.c:1916-1963 | No key leads to the subscriber node, from which the shortcut would break the rule. |
| ConfigLock.WrongPasswords | lib/vty/vty.c:78-140 | Up to two wrong passwords in a row only count. The third one closes a session at the login prompt, and takes one at the enable prompt back to the view node with its count at zero. |
| ConfigLock.RightPassword | lib/vty/vty.c:78-140 | The right password behind fewer than three wrong ones leads to the enable node from its prompt, and from the login prompt to the view node or, as configured, the enable node; the count is at zero again. |
| ConfigLock.ThereAndBack | lib/vty/command.c:2282-2402 | Configure terminal and exit or end, line vty and exit, enable and disable take each other back; exit from the enable node or the view node closes the session. |
| ConfigLock.LineRuns | lib/vty/command.c:2081-2135 | A do line never moves the terminal, and closes the session only if it is exit. Another line that works where the terminal is means what it means there, whatever it means elsewhere; one that works only in the config node acts from the line node as it does there; one that works nowhere does nothing. |
| ConfigLock.ControlKeys | lib/vty/vty.c:735-795 | Control-C and Control-Z lead from the config and the line node to the enable node and do nothing elsewhere; Control-D on an empty line leads from the line node over the config and the enable node out of the session, and does nothing at a password prompt. |
| ConfigLock.Terminals.ConfigLock | lib/vty/vty.c:254-261 | Succeeds exactly when nobody else holds the lock, and the terminal then holds it. |
| ConfigLock.Terminals.ConfigUnlock | lib/vty/vty.c:263-270 | Gives the lock back if this terminal holds it, and otherwise leaves it to its holder. |
| ConfigLock.Terminals.ConfigTerminal | lib/vty/command.c:2282-2295 | Enters the config node with the lock, or warns and stays. |
| ConfigLock.Terminals.ExitNode | lib/vty/command.c:2320-2378 | One level down; leaving the config node releases the lock, leaving the line node does not. |
| ConfigLock.Terminals.EndNode | lib/vty/command.c:2385-2402 | Back to the enable node with the lock released. |
| ConfigLock.Terminals.Perform | lib/vty/command.c:2282-2402 | Effect of each installed command on node, closing state and lock holder. |
| ConfigLock.Terminals.ExecuteDo | lib/vty/command.c:2091-2111 | A "do" line runs in the enable node and leaves node and lock as they were. |
| ConfigLock.Terminals.GoParent | lib/vty/command.c:1916-1963 | The parent node. |
| ConfigLock.Terminals.ExecuteCommand | lib/vty/command.c:2081-2135 | A line runs in the first node towards the config node where it works; if there is none the terminal is back where it was. |
| ConfigLock.Terminals.Auth | lib/vty/vty.c:78-140 | The right password leads on; a wrong one counts, with the consequences of WrongPasswords. |
| ConfigLock.Terminals.Press | lib/vty/vty.c:735-765 | Control keys and lines keep node and lock in step. |
| ConfigLock.Terminals.PressAll | lib/vty/vty.c:1192-1344 | The keys of one read act in turn, also after one that asked for closing. |
| ConfigLock.Terminals.Close | lib/vty/vty.c:143-182 | Closing a terminal releases the lock if it held it. |
| ConfigLock.Terminals.Read | lib/vty/vty.c:1172-1354 | All input of one read is acted on before a closing terminal goes, and goes with its lock. |
| ConfigLock.Terminals.Create | lib/vty/vty.c:1391-1461 | A new terminal holds nothing; a refused one leaves no trace. |
| OutputBuffer.Run | lib/vty/buffer.c:159-463 | Stream conservation: after any puts, writes, flushes, flushes of everything and resets against any behaviour of the descriptor that ends a flush of everything, bytes sent followed by bytes pending are the accepted data in order, less exactly what was pending at each reset. |
| OutputBuffer.Perform | lib/vty/buffer.c:124-463 | One operation does so; only a write can be refused, and only a reset drops anything. |
| OutputBuffer.Buffer.AddBlock | lib/vty/buffer.c:137-157 | A full last block gets a successor. |
| OutputBuffer.Buffer.LinkLast | lib/vty/buffer.c:146-154 | A new block becomes the last one of the queue. |
| OutputBuffer.Buffer.Fill | lib/vty/buffer.c:159-180 | Bytes that fit go to the last block. |
| OutputBuffer.Buffer.Put | lib/vty/buffer.c:159-180 | Appends the data over as many blocks as it takes; all but the last stay full. |
| OutputBuffer.Buffer.GetStr | lib/vty/buffer.c:97-115 | Returns everything pending, in order. |
| OutputBuffer.Buffer.IsEmpty | lib/vty/buffer.c:118-122 | True exactly when nothing is pending. |
| OutputBuffer.Buffer.Reset | lib/vty/buffer.c:124-135 | Nothing is pending afterwards. |
| OutputBuffer.Buffer.Gather | lib/vty/buffer.c:393-403 | The write takes whole blocks from the front, at least one if there is any: sixteen at most, and no more than it takes to reach the limit on bytes. |
| OutputBuffer.Buffer.DropBlock | lib/vty/buffer.c:413-429 | A block that was sent completely leaves the queue. |
| OutputBuffer.Buffer.DropPart | lib/vty/buffer.c:413-429 | A block that was sent in part keeps the rest. |
| OutputBuffer.Buffer.Drop | lib/vty/buffer.c:413-429 | Exactly the bytes that were written leave the front of the queue. |
| OutputBuffer.Buffer.FlushAvailable | lib/vty/buffer.c:376-433 | An empty queue makes no write. Otherwise there is one, which sends of its blocks as much as the descriptor accepts; sent and pending bytes keep their concatenation; EMPTY exactly when nothing is pending, PENDING on a retryable error, ERROR otherwise. |
| OutputBuffer.Buffer.FlushAll | lib/vty/buffer.c:196-215 | Terminates on every descriptor on which some write ends the flushing or there are always more writes that move something. A queue that is not empty makes it write; every write before the last one lets it go on, and the last one decides the result. If every write moves something or is interrupted, the result is EMPTY and exactly what was pending has been sent; in any case sent and pending bytes keep their concatenation. |
| OutputBuffer.Judged | lib/vty/buffer.c:205-214 | What one write means for the flushing: whether the loop goes on, and if not, that ERROR is a write that failed for good and PENDING one that would block, or that moved nothing without an interruption in errno. |
| OutputBuffer.Buffer.FlushRounds | lib/vty/buffer.c:205-212 | On every other descriptor, and with more queued than it still accepts, no number of rounds ends the flushing. |
| OutputBuffer.Endless | lib/vty/buffer.c:205-212 | If the condition fails, every write lets the loop go on, and from some write on nothing is moved. |
| OutputBuffer.CalmEnds | lib/vty/buffer.c:205-212 | A descriptor that from some write on is not interrupted ends the flushing, if no interruption can be left in errno or it accepts something whenever it accepts. |
| OutputBuffer.NeverFlushed | lib/vty/buffer.c:205-212 | One interrupted write and then writes that accept nothing: whatever errno was, the flushing of any data never ends. |
| OutputBuffer.Buffer.Write | lib/vty/buffer.c:436-463 | Fails exactly when nothing was pending and the write fails for good; otherwise all data is sent or pending, behind what was pending before. It writes at once exactly if nothing was pending, and then sends as much of the data as the descriptor accepts. |
| OutputBuffer.Wire.Write | lib/vty/buffer.c:405-411 | A descriptor accepts a prefix or refuses. |
| OutputBuffer.SentFirst | lib/vty/buffer.c:413-429 | Moving a written prefix from pending to sent keeps their concatenation. |
| LinuxList.Links.InitHead | lib/linuxlist/linuxlist.h:40-60 | A fresh head is an empty list. |
| LinuxList.Links.Insert | lib/linuxlist/linuxlist.h:62-71 | Insertion between two neighbours gives the ring with the entry at that place. |
| LinuxList.Links.Add | lib/linuxlist/linuxlist.h:80-83 | The entry becomes the first; no other list is touched. |
| LinuxList.Links.AddTail | lib/linuxlist/linuxlist.h:93-96 | The entry becomes the last; no other list is touched. |
| LinuxList.Links.Unlink | lib/linuxlist/linuxlist.h:105-109 | Closing the gap between two neighbours gives the ring without the entry. |
| LinuxList.Links.Del | lib/linuxlist/linuxlist.h:117-122 | The entry leaves the list and its own links are poisoned. |
| LinuxList.Links.Move | lib/linuxlist/linuxlist.h:139-144 | The entry leaves one list and becomes the first of another. |
| LinuxList.Links.TakeOff | lib/linuxlist/linuxlist.h:139-144 | The first half of it: the entry leaves its list, the other list is not touched. |
| LinuxList.Links.SpliceInit | lib/linuxlist/linuxlist.h:166-206 | One list is put in front of another and left empty. |
| LinuxList.RingStep | lib/linuxlist/linuxlist.h:290-308 | Following a link from an entry leads to its neighbour in the sequence or back to the head. |
| LinuxList.EmptyWhenOwnNext | lib/linuxlist/linuxlist.h:161-164 | A head that links to itself is the empty list, and no other is. |
| LinuxList.Inserted | lib/linuxlist/linuxlist.h:62-71 | Four pointer writes turn the ring of a sequence into the ring of the sequence with one more entry. |
| LinuxList.Unlinked | lib/linuxlist/linuxlist.h:105-109 | Two pointer writes turn it into the ring without an entry. |
| LinuxList.Spliced | lib/linuxlist/linuxlist.h:166-206 | Four pointer writes join two rings. |
| Timers.TimerList.UpdateTimers | lib/timer/timer.c:128-174 | For callbacks that may add, delete or reschedule any timers, a round terminates and fires no timer twice, and each fired timer was active and due when it was. A timer that was fired and that no later callback step adds or schedules is inactive and off the list; one that was not fired and that no step names is as it was, listed if it was active. Every listed due timer is fired unless a callback of this round deleted or rescheduled it first, and no due timer that was not handled is left. Activity and times are those of the events of the round in order; afterwards the ring is well formed and exactly the active timers are on it. |
| Timers.TimerList.Rounds | lib/timer/timer.c:128-174 | With callbacks that leave the timers alone, over any rounds at any times, a timer that is active at first is fired in the first round that reaches its time and in no other. |
| Timers.QuietRound | lib/timer/timer.c:128-174 | One such round: it fires exactly the active timers whose time it is the first to reach, and leaves the others active with their times. |
| Timers.RoundMeans | lib/timer/timer.c:157-171 | What became of a timer that was fired, and of one that nothing happened to. |
| Timers.FiredGoes | lib/timer/timer.c:157-160 | A fired timer that no later step of the round adds or schedules ends inactive, whatever else the callbacks do. |
| Timers.NothingHappens | lib/timer/timer.c:128-174 | A timer that is not fired and that no step names keeps its activity and its time. |
| Timers.TimerList.AddTimer | lib/timer/timer.c:34-47 | The timer is active and on the list, once. |
| Timers.TimerList.ScheduleTimer | lib/timer/timer.c:50-59 | So it is, due after the delay. |
| Timers.TimerList.DelTimer | lib/timer/timer.c:62-69 | A listed timer leaves the list with poisoned links and is inactive; one that is not listed is left alone. |
| Timers.TimerList.Perform | lib/timer/timer.c:34-69 | One step of a callback changes no handled mark, removes or postpones only the timer it names, and makes the activity and time of each timer what the step says. |
| Timers.TimerList.Callback | lib/timer/timer.c:160-160 | All steps of a callback together do, in order. |
| Timers.TimerList.ClearHandled | lib/timer/timer.c:151-153 | Before a round no listed timer is handled. |
| Timers.TimerList.FindDue | lib/timer/timer.c:155-164 | The walk finds a listed timer that is due and not handled, or there is none. |
| Timers.TimerList.Fire | lib/timer/timer.c:157-163 | A timer that is fired becomes inactive and handled, and then its callback acts; firing makes progress and loses no waiting timer. |
| Timers.TimerList.FireDue | lib/timer/timer.c:155-164 | The walk that starts again after each timer it fires comes to an end with no listed timer due and not handled; each one it fired was due and active. |
| Timers.TimerList.Sweep | lib/timer/timer.c:166-171 | The last walk removes exactly the inactive timers while it goes over the list. |
| Timers.TimerList.Prepare | lib/timer/timer.c:109-126 | The nearest time is the earliest due time on the list, or none. |
| Timers.TimerList.NearestTimer | lib/timer/timer.c:82-107 | The time to wait is what is left, and never negative. |
| Timers.TimerList.PrepareToWait | lib/timer/timer.c:82-126 | No listed timer is due before the wait is over. |
| Timers.WaitingStep | lib/timer/timer.c:155-164 | What waits for its turn survives a callback unless the callback names it. |
| Timers.SweepEnd | lib/timer/timer.c:166-171 | A complete sweep leaves the active timers, all on the list, with their times unchanged. |
| Select.Selector.Dispatch | lib/select/select.c:99-135 | For callbacks that may register and unregister any descriptors, a pass terminates and calls each descriptor at most once, each time with at least one condition, and with readable, writable or exceptional exactly if the descriptor was reported as such. It goes on from a removed entry if and only if a callback unregisters as the first and only one since the walk was started the descriptor saved as the next; otherwise every ready descriptor that was never unregistered is called. |
| Select.Selector.RegisterFd | lib/select/select.c:30-52 | A new descriptor is last on the list. |
| Select.Selector.UnregisterFd | lib/select/select.c:54-58 | The descriptor leaves the list with poisoned links and is counted. |
| Select.Selector.Callback | lib/select/select.c:99-134 | What a callback leaves of the list, how many descriptors it unregistered and which one last; a descriptor it took off has poisoned links. |
| Select.Selector.Visit | lib/select/select.c:99-133 | One round of the loop: a ready descriptor is called with its conditions, another is passed over; it tells whether the saved next entry was taken off. |
| Select.FewerBits | lib/select/select.c:104-126 | Clearing the bits of a called descriptor lowers the number of ready bits, which bounds the number of restarts. |
| Select.Visited | lib/select/select.c:99-134 | Passing over or calling a descriptor loses none that waits. |
| Select.MovedOk | lib/linuxlist/linuxlist.h:304-308 | The saved next entry is still on the list after a callback that removed at most one entry, if that was not the saved one. |
| Vectors.Vector.Copy | lib/vty/vector.c:70-89 | A copy has the same slots in memory of its own. |
| Vectors.Vector.Ensure | lib/vty/vector.c:92-106 | Doubling until a position exists keeps the slots and leaves the new ones free. |
| Vectors.Vector.EmptySlot | lib/vty/vector.c:109-121 | The first free slot, or the end. |
| Vectors.Vector.Set | lib/vty/vector.c:124-137 | The value goes to the first free slot or the end. |
| Vectors.Vector.SetIndex | lib/vty/vector.c:140-150 | The value goes to the given slot; slots in between are free. |
| Vectors.Vector.Lookup | lib/vty/vector.c:153-158 | A slot, or nothing beyond the end. |
| Vectors.Vector.Trim | lib/vty/vector.c:174-179 | The free slots at the end are dropped, up to the last taken one. |
| Vectors.Vector.Unset | lib/vty/vector.c:168-180 | The slot is freed, and freeing the last one also drops the free slots before it. |
| Vectors.Vector.Count | lib/vty/vector.c:182-192 | The number of taken slots. |
| CommandLine.JoinThenSplit | lib/vty/command.c:168-189 | Round trip: non-empty words without white space, the first not starting a comment, come back exactly from the joined line. |
| CommandLine.SplitThenJoin | lib/vty/command.c:249-294 | Joining the words of any line and splitting again gives the same words. |
| CommandLine.CommentLost | lib/vty/command.c:261-270 | A first word that starts a comment loses the whole line. |
| CommandLine.WordsOfJoined | lib/vty/command.c:275-293 | The same round trip from any position of the line. |
| CommandLine.ArgvConcat | lib/vty/command.c:168-189 | Joins the arguments from a position on with single spaces, or gives nothing. |
| CommandLine.MakeStrvec | lib/vty/command.c:249-294 | The words of a line through any growth of the vector, or nothing for blank and comment lines. |
| CommandMatcher.AbbreviationKeepsMeaning | lib/vty/command.c:1966-2077 | If a line of words not starting with '.' resolves to a command, the line with each partly matched word replaced by the keyword it resolved to gives the same candidates after every word and the same command, with the arguments from the same positions. A word differs only where it was partly matched, and then begins the keyword that replaces it; so all other arguments are the same. |
| CommandMatcher.ExpandedWord | lib/vty/command.c:1076-1200 | A word that the replacement changes was read as a partial match, and begins the keyword written for it. |
| CommandMatcher.ExecutedAre | lib/vty/command.c:1966-2077 | A line that is executed: its command is installed, the words match it position by position up to free text, enough of them are given, and the arguments are the words at its argument positions, in order; only a command with at least as many as the limit is refused for that. |
| CommandMatcher.Decided | lib/vty/command.c:2008-2039 | The outcome of a line by what is left after its last word: nothing left is unknown, something left but nothing given in full is incomplete, two given in full are ambiguous, and exactly a single one is executed or refused for too many arguments. |
| CommandMatcher.ArgumentsAre | lib/vty/command.c:2041-2067 | The arguments of a command are the words at its argument positions in order, and there are too many exactly when the positions reach the limit. |
| CommandMatcher.PlacesAre | lib/vty/command.c:2041-2067 | Those positions are strictly increasing and are exactly those with several alternatives or none, with a variable or an option, or at or behind one that takes free text. |
| CommandWords.WholeWord | lib/vty/command.c:1076-1419 | For both executors, a word that is a keyword of some candidate at its position leaves exactly the candidates that have that keyword there, whatever else the word could mean. |
| CommandWords.BegunWord | lib/vty/command.c:1076-1419 | For the abbreviating executor, a word that is no keyword there and begins one leaves exactly the candidates that have that one, and is ambiguous if it begins another one as well. |
| CommandWords.StrictWord | lib/vty/command.c:1203-1315 | For the strict executor, such a word stands for no keyword: each candidate that is left has a range, address, option, variable or free text there. |
| CommandMatcher.StrictAgrees | lib/vty/command.c:2138-2247 | On lines of exact keywords the strict and the abbreviating executor agree on command, arguments and error. |
| CommandMatcher.NarrowExpanded | lib/vty/command.c:1966-2010 | The candidates agree after each word of the replaced line. |
| CommandMatcher.StepExpanded | lib/vty/command.c:1076-1200 | One abbreviated word and the keyword it resolved to narrow the candidates alike, with the same verdict. |
| CommandMatcher.StepExact | lib/vty/command.c:1203-1315 | An exact keyword narrows the candidates alike in both executors. |
| CommandMatcher.NarrowLeaves | lib/vty/command.c:1966-2010 | What is left are candidates there were, long enough for the words read so far; a variable tail ends the narrowing only if a candidate has one there. |
| CommandMatcher.NarrowMatches | lib/vty/command.c:1966-2010 | Every candidate left matches each word read so far, at its position. |
| CommandMatcher.ArgumentsInRange | lib/vty/command.c:2041-2067 | Collecting the arguments of a unique match never reads a position that the command does not have. |
| CommandMatcher.BestMatchBounds | lib/vty/command.c:1076-1200 | No candidate matches better than the class the filter reports. |
| CommandMatcher.BestMatchFound | lib/vty/command.c:1076-1200 | Some candidate matches with the class the filter reports. |
| CommandMatcher.FilterBy | lib/vty/command.c:1076-1200 | One word empties in place exactly the slots that match it in no way, and reports the best match class. |
| CommandMatcher.FilterTokens | lib/vty/command.c:1097-1195 | The best class over the alternatives of one position. |
| CommandMatcher.IsCmdAmbiguous | lib/vty/command.c:1318-1419 | Reports ambiguity exactly when two different keywords prevail, an unfinished address exactly when one does, and otherwise keeps in place exactly the candidates with a prevailing alternative. |
| CommandMatcher.TokensAmbiguous | lib/vty/command.c:1331-1410 | The same for the alternatives of one candidate. |
| CommandMatcher.ExecuteCommand | lib/vty/command.c:1966-2077 | The loop over the words ends with the outcome of the resolution function, for both executors; a command that is executed is installed and gets the words at its argument positions, in order. |
| CommandMatcher.Conclude | lib/vty/command.c:2008-2039 | Exactly one complete candidate is executed; none is unknown or incomplete, several are ambiguous. |
| CommandMatcher.CollectArguments | lib/vty/command.c:2041-2067 | Arguments are the words at argument positions, in order; too many exactly when there are as many as the limit or more. |
| OmlHandler.InPlaceRefines | src/bts_nm.c:906-1422 | For every formatted O&M request and every state, the handler that overwrites the request it is dispatching on sends the same replies and makes the same updates as one working on a copy; over all discriminators it does so exactly when the request is not manufacturer-specific or calls for no reply by its type. |
| OmlHandler.ManufacturerDiffers | src/bts_nm.c:1358-1422 | The failing side: for a manufacturer-specific Opstart of the site manager, in every state, the handler on a copy also brings up the signalling link and the handler in place does not. |
| OmlHandler.Bts.OmlMsg | src/bts_nm.c:906-1422 | The handler over one shared buffer and the global state, run on a formatted request that its own replies overwrite, sends and updates what the handler on a copy does; on any other request what the in-place function says. A request to set BTS attributes has known attributes on which the walk ends. |
| OmlHandler.Bts.OnMessageType | src/bts_nm.c:918-1358 | The first switch does what the type, object and attributes of the request call for, and leaves the discriminator as it was or, after a reply, as the reply wrote it. A request to set BTS attributes has known attributes on which the walk ends. |
| OmlHandler.Bts.WriteHeader | src/bts_nm.c:264-290 | The header overwrites the start of the buffer only. |
| OmlHandler.Bts.SendShort | src/bts_nm.c:375-442 | Builds and sends an acknowledgement in the buffer. |
| OmlHandler.Bts.SendStateReport | src/bts_nm.c:451-503 | Builds and sends a state report in the buffer. |
| OmlHandler.Bts.SendSwActRequest | src/bts_nm.c:264-328 | Builds and sends a software activate request in the buffer. |
| OmlHandler.Bts.ActivateSw | src/bts_nm.c:940-1082 | Replies, announcements and updates for an Activate SW. |
| OmlHandler.Bts.ActivateChannel | src/bts_nm.c:1043-1082 | The channel case, with the reports after channel 7. |
| OmlHandler.Bts.AnnounceChannels | src/bts_nm.c:1019-1042 | Announces each channel once, in order. |
| OmlHandler.Bts.Opstart | src/bts_nm.c:1084-1261 | Replies, announcements and updates for an Opstart. |
| OmlHandler.Bts.ReportStarted | src/bts_nm.c:1171-1261 | The batch after Opstart of channel 7 reports the state of every object as it then is. |
| OmlHandler.Bts.ChangeState | src/bts_nm.c:1301-1354 | The administrative state asked for is stored for the object addressed and acknowledged, although the reply overwrites the request. |
| OmlHandler.Bts.LinkMsg | src/bts_nm.c:202-255 | Link commands; the first identity request brings the initial report and the first announcement. |
| OmlHandler.Bts.ReportInitialState | src/bts_nm.c:540-632 | All twelve objects are reported as not installed, in order. |
| OmlReports.RequestChanges | src/bts_nm.c:906-1422 | For each request and each object: its administrative state becomes byte 13 exactly if the request is a Change Administrative State for it, its operational state becomes enabled exactly if the request is an Opstart for it, an Opstart also unlocks the site manager, and nothing else changes. |
| OmlReports.RequestMarks | src/bts_nm.c:918-1082 | The rest of the state: the marks of the software messages, which change only with them, and the one of the identity, which a request never changes. |
| OmlReports.Acknowledged | src/bts_nm.c:906-1422 | Exactly the requests that the source acknowledges get an acknowledgement, once and as the first reply, with the type that belongs to the request and the class and timeslot of the request. |
| OmlReports.OnlyAcked | src/bts_nm.c:1263-1356 | All requests but Activate SW and Opstart bring nothing but that. |
| OmlReports.ActivatedExactly | src/bts_nm.c:940-1082 | How many replies an Activate SW brings, and all its announcements: baseband transceiver announces the radio carrier, that one the eight channels, and channel 7 reports the software of all channels as activated. |
| OmlReports.StartedExactly | src/bts_nm.c:1084-1261 | The same for an Opstart: site manager and BTS announce the next object, and channel 7 brings a batch of twelve. |
| OmlReports.Manufacturer | src/bts_nm.c:1358-1422 | A request that is not acknowledged brings nothing unless it is manufacturer-specific; then it brings five messages, two of them the reports of baseband transceiver and radio carrier as they are. |
| OmlReports.StatesAre | src/bts_nm.c:906-1422 | After any run of requests and link commands each object has the administrative state last requested for it, or its first one, and is enabled exactly if it was started (channels 1 to 7 begin with zeros). |
| OmlReports.ReportsTell | src/bts_nm.c:906-1422 | On any run each report that a request brings tells the administrative state last requested for its object and whether it was started, that request included; except the one report that answers an Activate SW, which says the same whatever came before. |
| OmlReports.LastStartTells | src/bts_nm.c:1171-1261 | On any run the Opstart of channel 7 brings such reports of the site manager, the BTS and channels 0 to 7, in this order. |
| OmlReports.ManufacturerTells | src/bts_nm.c:1358-1422 | On any run a manufacturer-specific request that is not acknowledged brings such reports of the baseband transceiver and the radio carrier, in this order. |
| OmlReports.ActivationTells | src/bts_nm.c:940-1082 | On any run the report that answers an Activate SW tells the states asked for if and only if the object is locked, and was started if it is the site manager, else was not. |
| OmlReports.ActivationMisreports | src/bts_nm.c:1043-1082 | The failing side: channel 3 is started and its software activated again, and it is reported as disabled. |
| OmlReports.IdentityTells | src/bts_nm.c:540-632 | The first identity request reports each object as not installed, in order: site manager, BTS, baseband transceiver, channels, radio carrier. |
| OmlReports.LinkReplies | src/bts_nm.c:202-255 | A ping is answered by a pong and an identity request by the identity; only the first identity request changes anything and also announces the site manager; other link commands do nothing. |
| OmlAttributes.BtsGetAttr | src/bts_nm.c:726-900 | For known attributes that fill the announced length, with an even number of bytes behind the first cell identity, the loop ends, and its places are those of the rounds up to the first one with no length left. If every attribute behind the first cell identity takes ten bytes, they are the attribute boundaries, once and in order. |
| OmlAttributes.WalkIsExact | src/bts_nm.c:726-900 | The walk reaches each attribute with its tag and the length that is left if and only if nothing but cell identities follows a cell identity. |
| OmlAttributes.WalkStops | src/bts_nm.c:726-900 | The walk stops at each attribute boundary once, in order, and then ends if and only if every attribute behind the first cell identity takes ten bytes. |
| OmlAttributes.WalkEnds | src/bts_nm.c:726-900 | The walk ends if and only if the number of bytes behind the first cell identity is even. |
| OmlAttributes.WalkEndsAtEnd | src/bts_nm.c:726-900 | It ends at the end of the attributes if and only if that number is a multiple of ten. |
| OmlAttributes.CgiRounds | src/bts_nm.c:888-894 | With the tag of a cell identity every number of rounds passes over ten bytes each, and the 8-bit length wraps accordingly. |
| OmlAttributes.ToCgi | src/bts_nm.c:726-900 | Every walk gets behind the first cell identity with the length that is left there, or to the end of the attributes. |
| OmlAttributes.WalkOver | src/bts_nm.c:735-899 | The loop itself, from the first attribute on. |
| OmlAttributes.MisreadBsic | src/bts_nm.c:888-894 | A cell identity and then a base station identity code: in the second round the length wraps from 2 to 248, and the walk ends after 78 rounds, 768 bytes behind the attributes. |
| OmlAttributes.MisreadFrequency | src/bts_nm.c:888-894 | A cell identity and then a frequency number: the walk never ends. |
| OmlAttributes.StepOver | src/bts_nm.c:742-898 | One round passes exactly one known attribute and lowers the length by its size; the new tag is that of the next attribute, except behind a cell identity. |
| OmlAttributes.PassOver | src/bts_nm.c:742-898 | The switch does one round, with its 8-bit length. |
| OmlAttributes.KnownExactly | src/bts_nm.h:115-276 | The walk knows exactly the encodings of these attributes: eight with one value, three with a number of two bytes, three tables of six, seven and nine values, and two with a length of two bytes. |
| OmlBringUp.BringUp | src/bts_nm.c:906-1422 | On every run against a controller that starts an object class only after it was announced, first announcements follow site manager, BTS, baseband transceiver, radio carrier, channel; the initial report is sent once; and the batch after Opstart of channel 7 reports site manager and BTS as enabled. |
| OmlBringUp.RunKeeps | src/bts_nm.c:224-245 | The invariant over whole runs behind it. |
| OmlBringUp.InvariantKept | src/bts_nm.c:940-1261 | One fair input keeps it. |
| OmlBringUp.StateKept | src/bts_nm.c:940-1261 | The part of it about operational states: a class is announced only after the one above it is enabled. |
| OmlBringUp.ReactAnnounces | src/bts_nm.c:940-1261 | Which classes each input announces. |
| OmlBringUp.ReactInitials | src/bts_nm.c:224-245 | The initial report goes out with the first identity request and never again. |

## Left out

- `talloc`: total size, block count, names, printf-style helpers, reports, string functions, null tracking and autofree.
- `talloc`: null contexts of references, destructors that call the allocator, failing mallocs, and the contents of chunks.
- `talloc`: frees when some chunk has several references, or a referenced chunk has a refusing destructor.
- TallocHeap.Heap.Free: a chunk with children that is not the first sibling must have a left neighbour that is not a reference handle, because otherwise the code may look for its parent through memory that was given back; which frees inside the subtree make it do so is stated for a concrete case only.
- TallocRuns.Run: a command may be given when its arguments are live and, for frees, when the free is not one of those left out here.
- `talloc`: pools inside pools, and pool sizes so large that adding the pool header overflows.
- Pools: a steal does not touch any field that pools use, so it does not appear there. The runs of Pools are not tied to the forest of TallocRuns; which chunks a free reaches is the subject of the latter.
- Pools.PoolHeap.Realloc: the contents that are copied are not modelled.
- Line editor: completion, help, the password nodes, line wrap of the real terminal, and the terminating zero behind the line.
- LineEditor.Editor.Key: outside escape sequences, completion, help and the key that leaves configuration mode.
- LineEditor.Editor.DeleteChar: on an empty line the source goes up one level instead; that is part of ConfigLock.
- LineEditor.Editor.HistoryPrint: recalled lines are shorter than the buffer, which holds for every line typed into it.
- Telnet: the "more" state of a session, and options other than the window size.
- ConfigLock: the reader of configuration files, which starts in the config node without the lock; text of passwords, which is a yes or no here; closing all sessions at once.
- ConfigLock: which command a line means in a node is a parameter here and the subject of CommandMatcher.
- OutputBuffer.Buffer.FlushAll: descriptors on which the source need not end; OutputBuffer.Buffer.FlushRounds is about them.
- OutputBuffer: flushing a window for "more", and freeing the buffer.
- Timers: seconds and microseconds are one number, and times do not overflow.
- Select: building the descriptor sets, waiting, and making descriptors non-blocking.
- Select.Selector.Dispatch: what the source does after it has followed a removed entry.
- CommandMatcher.AbbreviationKeepsMeaning: arguments that are themselves abbreviated alternatives differ in text, by the keyword they stand for.
- CommandMatcher: completion, descriptions, the longest common prefix, number range and address syntax, and the disabled IPv6 matchers.
- CommandLine: bytes above 127.
- OmlHandler: Software Activate Request acknowledgements and logging have no effect; sends are assumed to succeed.
- OmlAttributes.BtsGetAttr: attributes that the source does not know make it loop for ever and are excluded, as are requests on which the walk does not end.
- OmlAttributes: the walks over channel and radio carrier attributes, which are empty in the source.
- The signalling link, the debug output, the background process and all sockets.
