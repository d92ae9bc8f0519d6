# A verified model of the multiplexer, the versioned file tree, the allocator, SHA-256 and tinypack

Five parts of the repository are modelled, each in the form its source has.

**The channel multiplexer** (`Wire`, `MuxSpec`, `MuxEndpoint`, `MuxProtocol`, `MuxRuns`, `MuxFraming`). `MuxSpec` says
on values what each entry point does to one endpoint; the classes of `MuxEndpoint` compute it by changing their fields;
`MuxProtocol` puts two endpoints on two FIFO links and lets the users' opens, sends and closes interleave with
deliveries in any order. The invariant ties both endpoints' counters, channel tables and waiting requests to the
complete history of the links; `MuxRuns` draws the conclusions for whole runs. `MuxFraming` is the byte layout and the
reassembly of `ReceiveRaw`.

**The versioned file tree** (`OglTree`, `OglPath`, `OglCodec`, `OglRepo`, `OglMerge`, `OglMergeLaws`, `OglCommit`,
`OglSession`, `OglUnloaded`, `OglAnySession`, `OglMergeCommit`, `OglHash`). A tree is a value; the repository is an
object whose tree and store change. The store maps hashes to bytes. `OglSession` lets lookups, changes to loaded
directories and commits follow one another in any order, `OglAnySession` changes to any directory found. Loops over
stacks of path strings are proved against recursive functions on trees by one argument (`OglTree.Finish`): the tree in
hand, completed at every path still on the stack, never changes.

**The allocator** (`TinyChunk`, `TinyHeap`, `TinyMalloc`). Descriptors are records at addresses in the field `chunks`,
each with its bitmap bytes. Chunk lists are pointer chains, with the list behind each kept as ghost state.

**SHA-256** (`Sha256Spec`, `Sha256Primes`, `Sha256`). `Sha256Spec` is FIPS 180-4 (sections 4.1.2, 4.2.2, 5.1.1, 5.3.3
and 6.2.2). The class `Context` works on arrays, on a little-endian machine, and may be given its own buffer as the
block.

**tinypack** (`TinyPack`). Packing writes into an array from the last field to the first.

## Where the code departs from its intent

Each of these is stated by a lemma or a contract; the code is modelled as it is.

- A refused open replies with channel 0 (`mux/mux.cpp:123-130`), which the assert at `mux/mux.cpp:161` rejects:
  `DeliverySafe` shows that this is the only delivery that breaks an assert, and that it always does.
- The comment at `mux/mux.cpp:327` is the opposite of the test before it. `CleanIffAligned` shows that a call is handled
  cleanly exactly when it carries whole packets; `CutPacketOverruns` and `CutHeader` show what happens otherwise.
- Sequence numbers agree for the first 2^32 packets of a channel and differ at the next (`StampsAgree`).
- `MaxPathLen` is 4076 (`mux/mux.h:53-54`), but the packet of a path of that length has 4097 bytes with its final NUL,
  which the assert at `mux/mux.h:45` rejects: both asserts hold exactly up to 4075 (`LongestPath`).
- The search for the next channel id ends exactly when an id of the side's parity other than 0 is free
  (`SearchEndsIff`), hence the budget of 2^31 - 2 opens a side.
- A directory that `find` returns as the last component is not loaded, and a change made there and then is at risk. The
  next commit fails its assert, unless a lookup has gone on from that directory in between: then `load` takes the mark
  away, the assert holds, and commit goes through without the change (`CommitAfterChange`, `BlindChangeIsLost`). Over a
  whole session, the assert holds exactly when no such mark is left (`AnyCommitAsserts`), and commit stores what memory
  has only of the directories marked at the time (`AnySessionThenCommit`).
- `clone_nocopy` drops the hash. When a commit gets through after the merge of a committed src, the store holds the tree
  exactly when src adds no directory and puts none in place of something else (`MergeOfCommitted`); for a src with
  uncommitted changes, exactly when all directories it brings in are marked modified (`MergeThenCommit`).
- A cloned symbolic link is marked modified (`oglfs/ogl.h:325-332`), so after a commit its hash is that of the link in
  the file system and not src's (`HashAfter` in `MergeAnswers`).
- A merge that adds names to a directory not loaded in dst makes the next commit fail its assert, and no other merge of
  trees in order does (`MergedAsserts`).
- Where src turns a directory into something else, whatever dst changed inside is discarded without a conflict, since no
  hash is compared there (`oglfs/ogl.cpp:1103-1116`, `oglfs/ogl.cpp:1151-1161`; `MergeKeepsOrDiscards`).
- Merge loads nothing itself: a directory that neither src nor common has loaded counts as empty, and its changes are
  ignored (`UnloadedIsIgnored`).
- Under the root "/" a path loses the first byte of its first component (`SlashRootDropsAByte`).
- The 16-bit size field of an object wraps at 64 KiB (`SizeFieldWraps`). A dumped directory is read back exactly when
  its object is shorter (`ReadBackIff`), and a commit leaves a store that holds the tree exactly when all its objects
  are (`CommittedStands`).
- `free` never searches the 256-byte class: `MemBlock.Free` succeeds if and only if the block is of a smaller one.
- Inserting a chunk at the end of a sorted list leaves its old `next` in place, so the result is a list exactly when
  it had none (`SortedInsertLinks`).
- A request of up to 4 bytes gets a 16-byte slot, since `get_type` returns 2 there and not 0 (`TypeOf`).
- The length check of a packed message lets a cut inside the body of a fixed buffer through (`CheckTells`).

## Assumptions

- Both links are reliable FIFO; each side opens at most 2^31 - 2 channels and no channel carries more than 2^32 packets
  one way (`MuxProtocol.Budget`).
- No two objects of one commit, and no object of it and a different stored file, have one hash
  (`OglCommit.NoCollision`).
- What sessions commit are objects under 64 KiB (`OglCommit.Sized`); `Commit` itself does not assume it. stat, open and
  read succeed (`OglCommit.Env`).
- Requests to the allocator are at most 0xffffff00 bytes, where rounding up does not pass 32 bits.

## Model

| member | source | states |
|---|---|---|
| MuxEndpoint.Mux.constructor | mux/mux.cpp:87-93 | a new endpoint: no channels, nothing waiting, ids from 4 or 5 by side |
| MuxEndpoint.Mux.GetChannel | mux/mux.h:325-340 | null exactly for ids that are neither 0 nor in the table, else the object for that id |
| MuxEndpoint.Mux.Send | mux/mux.cpp:14-29 | an invalid channel sends nothing; a valid one stamps and writes the packet and advances its own counter only |
| MuxEndpoint.Mux.Write | mux/mux.cpp:48-64 | the data goes out as consecutive payloads of at most the maximal size, or nothing does |
| MuxEndpoint.Mux.Open | mux/mux.cpp:95-105 | the request number returned is the stamp of the packet written, and the request waits under it |
| MuxEndpoint.Mux.ChannelAskClose | mux/mux.cpp:236-248 | a valid channel announces the close to the peer, and the channel is gone from the table |
| MuxEndpoint.Mux.DoCloseChannel | mux/mux.cpp:250-260 | an unknown id changes nothing; a known one is removed and its listener told |
| MuxEndpoint.Mux.DoErrorChannel | mux/mux.cpp:262-272 | an unknown id changes nothing; a known one is removed and its listener told of the error |
| MuxEndpoint.Mux.SendNak | mux/mux.cpp:274-282 | the nak repeats the refused packet's channel and number and takes none of the channel's own |
| MuxEndpoint.Mux.MoveNextId | mux/mux.cpp:140-143 | the next id is the first one two apart that is not in use, with 32-bit wrap-around |
| MuxEndpoint.Mux.ReceiveOpen | mux/mux.cpp:115-153 | the whole new state after an accepted or refused open request |
| MuxEndpoint.Mux.ReceiveReply | mux/mux.cpp:155-187 | the whole new state after a reply, failed or not |
| MuxEndpoint.Mux.HandleIncomingPacket | mux/mux.cpp:191-226 | the whole new state after any packet, for every command and every routing |
| MuxProtocol.StampsAgree | mux/mux.cpp:20-42 | the number stamped is the number expected for exactly the first 2^32 packets of a channel, and differs at the next |
| MuxRuns.StepKeepsInv | mux/mux.cpp:14-272 | every user call and every delivery keeps the invariant over both endpoints and the whole link histories |
| MuxRuns.RunKeepsInv | mux/mux.cpp:14-272 | the invariant holds at the end of every run within the budget |
| MuxRuns.DeliverySafe | mux/mux.cpp:32-40 | in any invariant state, all asserts on a packet's way hold if and only if it does not refuse an open |
| MuxRuns.ProtocolSafety | mux/mux.cpp:107-189 | the same for the end of every run: number expected, reply's channel fresh and of the peer's parity, reply matching a waiting request |
| MuxRuns.AcceptingRunHasNoRefusal | mux/mux.cpp:122-131 | if the users accept every open they are asked about, no refusal is ever written |
| MuxProtocol.FreshId | mux/mux.cpp:132-143 | ids handed out later occur in no earlier reply and keep the side's parity |
| MuxProtocol.ReplyFacts | mux/mux.cpp:160-162 | an accepting reply names an unused channel of the peer's parity |
| MuxProtocol.ReplyAnswers | mux/mux.cpp:164-170 | a reply answers the oldest waiting request, and the later ones go on waiting in order |
| MuxProtocol.SearchFinds | mux/mux.cpp:140-143 | within the budget the id search ends, at the next id of the side or just past 0 |
| MuxRuns.SearchEndsIff | mux/mux.cpp:141-143 | for either side, the search ends if and only if some id of its parity other than 0 is not in use |
| MuxProtocol.DeliverNak | mux/mux.cpp:203-208 | a nak that arrives never names a live channel |
| MuxRuns.DeliveredDataIsAPrefix | mux/mux.cpp:191-226 | in every run what a listener got is an in-order, duplicate-free prefix of what the peer sent, all of it so far while the channel lives, and no listener hears of an error |
| MuxRuns.DeliveryLightens | mux/mux.cpp:107-226 | every delivery lowers the weight of the packets in flight |
| MuxRuns.DeliveryInBudget | mux/mux.cpp:107-226 | a delivery keeps the invariant and the budget, so that neither has to be assumed after the users stop |
| MuxRuns.DeliveriesEnd | mux/mux.cpp:107-226 | without user calls at most as many deliveries follow as that weight says |
| MuxRuns.QuietWorldsAgree | mux/mux.cpp:236-272 | with nothing in flight both tables hold the same ids, nothing waits, and each side expects the number the other will use, even after simultaneous closes |
| MuxRuns.AcceptingRunsSettle | mux/mux.cpp:107-272 | any run of users who accept can be continued by deliveries alone until nothing is in flight, and then both tables hold the same ids and nothing waits |
| MuxFraming.DecodeEncode | mux/mux.h:35-121 | every packet, of every command, is read back from its bytes |
| MuxFraming.LongestPath | mux/mux.h:44-71 | the two asserts on an open packet hold together if and only if the path has at most 4075 bytes; at the declared limit the packet is one byte too long |
| MuxFraming.Receiver.ReceiveRaw | mux/mux.cpp:291-343 | buffer, packets handed on and result are those of the reassembly function, for any bytes in any state |
| MuxFraming.AlignedIsClean | mux/mux.cpp:291-343 | whole packets laid end to end are each handed on, in order, and the buffer ends empty |
| MuxFraming.CleanIffAligned | mux/mux.cpp:295-342 | a call takes everything and keeps nothing back if and only if the data is whole packets laid end to end |
| MuxFraming.CutPacketOverruns | mux/mux.cpp:326-334 | a packet cut after its header is handed on unfinished |
| MuxFraming.CutHeader | mux/mux.cpp:316-329 | a packet cut inside its header is completed by the next call only if nothing follows it there or it fills the buffer; else the buffer keeps as much as it can hold, unhandled, and the call fails exactly when that is not all |
| MuxFraming.ChunksJoin | mux/mux.cpp:52-62 | the payloads written are non-empty, within the limit, and together are the data |
| MuxFraming.GroupsArrive | mux/mux.cpp:291-343 | however packets are grouped into calls, all arrive in order and the buffer ends empty |
| MuxFraming.StreamArrives | mux/mux.cpp:48-73 | the bytes written come out on the other side, in order, for every packet-aligned grouping |
| OglPath.SpellingParses | oglfs/ogl.cpp:671-692 | taking a spelled path apart, under any root, gives its names back |
| OglPath.SpellingTells | oglfs/ogl.h:254-259 | no two directories have one path string |
| OglPath.SlashRootDropsAByte | oglfs/ogl.cpp:687-692 | an ordinary path keeps its first byte if and only if the root is not "/" |
| OglCodec.OneOrder | oglfs/ogl.cpp:244-244 | a set of names has one ascending order |
| OglCodec.SortSorts | oglfs/ogl.cpp:244-244 | sorting gives the same names in that order |
| OglCodec.Regions | oglfs/ogl.cpp:246-277 | header, entries, hashes and names lie end to end, in this order, and fill the object exactly |
| OglCodec.LoadDump | oglfs/ogl.cpp:361-424 | under 64 KiB, reading a dumped directory gives exactly its names with their kinds and hashes |
| OglCodec.OrderIrrelevant | oglfs/ogl.cpp:201-244 | the bytes do not depend on the order in which the names were collected |
| OglCodec.EncodingTells | oglfs/ogl.cpp:246-339 | directories with one encoding have the same names, kinds and hashes |
| OglCodec.BuildObject | oglfs/ogl.cpp:198-339 | the object filled in place, cursor by cursor, is that encoding |
| OglCodec.SizeFieldWraps | oglfs/ogl.cpp:258-258 | the size field holds the size modulo 2^16 |
| OglCodec.ReadBackIff | oglfs/ogl.cpp:835-847 | what is stored of a dumped directory is read back as its names, kinds and hashes if and only if the object is under 64 KiB |
| OglRepo.HashDeterminesTree | oglfs/ogl.cpp:361-424 | two fully read trees with one root hash are equal |
| OglRepo.LoadShows | oglfs/ogl.cpp:361-424 | loading a directory does not change the stored tree that the one in memory stands for |
| OglRepo.Repo.Find | oglfs/ogl.cpp:780-816 | the string-driven loop is the recursive lookup on names, with the directories it loads |
| OglRepo.FindShows | oglfs/ogl.cpp:780-816 | lookup on demand never misses an object, finds the stored tree's entry with its kind and hash or reports that there is none, and its loading cannot be seen |
| OglRepo.LookupInvertsSpelling | oglfs/ogl.h:254-259 | looking the spelled path up finds the entry at that place, on a repository loaded on demand |
| OglRepo.OpenedFinds | oglfs/ogl.cpp:463-470 | a repository just opened on a root hash finds exactly the paths of the tree under it, with their kinds and hashes |
| OglRepo.FindInMemory | oglfs/ogl.cpp:780-816 | on a loaded tree lookup changes nothing and finds a path if and only if the tree has it |
| OglMerge.CloneDir | oglfs/ogl.cpp:952-977 | the worklist copy is the recursive clone of the directory |
| OglMerge.Diff | oglfs/ogl.cpp:873-950 | each differing name is reported exactly once, with its kind of difference, and no other name is |
| OglMerge.CheckPass | oglfs/ogl.cpp:986-1204 | the check pass goes through if and only if no name in memory is in conflict at any depth, and changes no tree |
| OglMerge.ApplyPass | oglfs/ogl.cpp:1143-1219 | after a clean check dst's content is the recursive three-way merge, and each of its directories is one dst had, marked if touched, or a copy of src's without its hash |
| OglMerge.Merge | oglfs/ogl.cpp:979-1221 | success if and only if compatible; then dst's content is the merge, its directories kept or copied as said; otherwise dst is untouched; src and common never change |
| OglMergeLaws.MergeOfNoChange | oglfs/ogl.cpp:1188-1220 | merging a src equal to common always succeeds and leaves dst's content |
| OglMergeLaws.MergeIntoUnchanged | oglfs/ogl.cpp:1188-1220 | merging into a dst equal to common always succeeds and gives src's content |
| OglMergeLaws.MergeCommutes | oglfs/ogl.cpp:986-1186 | changes compatible both ways merge to the same content from either side |
| OglMergeLaws.OneStoreTells | oglfs/ogl.cpp:873-950 | trees read from one store are of one version wherever their directory hashes agree, which is what these laws need |
| OglMergeLaws.MergeKeepsOrDiscards | oglfs/ogl.cpp:1151-1161 | on success a name src did not change is as in dst, and what dst changed below a name both changed goes on counting if and only if src keeps it a directory |
| OglMergeLaws.UnloadedIsIgnored | oglfs/ogl.cpp:1188-1220 | a directory loaded neither in src nor in common passes the checks and leaves dst's as it is, whatever the hashes |
| OglCommit.Apply | oglfs/ogl.cpp:113-195 | each change succeeds exactly when its name is free or taken as it wants, and then changes that name and marks every ancestor |
| OglCommit.ChangesReady | oglfs/ogl.h:278-282 | after any sequence of changes to loaded directories, all above a modified directory is modified and the tree can be committed |
| OglCommit.StoreOne | oglfs/ogl.cpp:835-847 | storing an object overwrites nothing and leaves every object of the commit stored so far |
| OglCommit.GatherPass | oglfs/ogl.cpp:603-657 | the first loop gives every changed file and link it reaches its hash and lists the directories to dump, none before one above it |
| OglCommit.DumpStep | oglfs/ogl.cpp:659-664 | dumping in reverse order always finds the children dumped |
| OglCommit.DumpAt | oglfs/ogl.cpp:197-359 | dump stores the directory's object and notes its hash, permissions and flags, and changes no other entry |
| OglCommit.DumpPass | oglfs/ogl.cpp:659-664 | the second loop makes every directory listed what the bottom-up recursion makes it and stores its object |
| OglCommit.DumpedIsCommitted | oglfs/ogl.cpp:659-669 | once the objects are stored, the tree in memory is what the store gives for its root hash |
| OglCommit.CommittedStands | oglfs/ogl.cpp:598-669 | of a tree in order, the store then holds what memory does if and only if every object is under 64 KiB |
| OglCommit.Commit | oglfs/ogl.cpp:598-669 | for every tree that meets the assert: the new tree, the root reference, no stored file changed, each object stored as far as store_obj writes it, and when the store holds the tree |
| OglSession.FindReady | oglfs/ogl.cpp:780-816 | in a tree with changes too, lookup never misses an object, and what it loads keeps the tree committable |
| OglSession.FindForetells | oglfs/ogl.cpp:598-669 | at every path, a lookup in the tree before the commit finds an entry not marked removed if and only if the tree committed has one there, of that kind and with the hash commit gives it |
| OglSession.CommitAnswers | oglfs/ogl.cpp:463-470 | the repository opened on the new root reference answers every lookup as memory did before the commit: same paths, same kinds, the old hash or the one computed for what was changed |
| OglSession.ActionInOrder | oglfs/ogl.cpp:113-195 | a lookup, a change to a loaded directory and a commit each leave a tree that lookup and commit find all they need for |
| OglSession.SessionInOrder | oglfs/ogl.cpp:598-816 | and so does any sequence of them |
| OglSession.SessionThenCommit | oglfs/ogl.cpp:463-816 | after any session and a commit, the repository opened again finds a path if and only if a lookup before that commit does, with the kind seen then and the hash the commit gives |
| OglSession.OpenedInOrder | oglfs/ogl.cpp:463-470 | a repository just opened is one for such a session to start from |
| OglUnloaded.CommitAfterChange | oglfs/ogl.cpp:626-634 | after a change and any lookups, the assert of commit holds if and only if the directory was loaded or a lookup has gone on from it; exactly when memory then agrees with what will be stored |
| OglUnloaded.BlindChangeIsLost | oglfs/ogl.cpp:420-421 | a change to a directory not loaded is in no committed tree: the repository opened again finds below it just what was stored before |
| OglAnySession.ActionWorks | oglfs/ogl.cpp:113-195 | whatever directory a change goes to, each action leaves a tree in which lookups miss no object, and exactly how it moves the set of directories marked without having been loaded |
| OglAnySession.AnyLookupWorks | oglfs/ogl.cpp:780-816 | after any session with changes to any directory found, a lookup finds all the objects it needs |
| OglAnySession.AnyCommitAsserts | oglfs/ogl.cpp:626-634 | and the assert of commit holds if and only if every directory changed while not loaded has since been passed by a lookup or taken away |
| OglAnySession.AnySessionThenCommit | oglfs/ogl.cpp:598-669 | after a commit that gets through, the repository opened again has of each marked directory what was in memory and of any other what was stored before |
| OglAnySession.OpenedWorks | oglfs/ogl.cpp:463-470 | a repository just opened is one for such a session to start from |
| OglMergeCommit.ReadyIsTidy | oglfs/ogl.cpp:979-1221 | every tree in order is one that merge takes |
| OglMergeCommit.MergedReady | oglfs/ogl.h:189-197 | a merge of trees in order leaves one if and only if every directory that src brings in is marked modified there and nothing is added to a directory not loaded in dst |
| OglMergeCommit.MergedAsserts | oglfs/ogl.cpp:626-634 | after such a merge the assert of commit holds if and only if nothing was added to a directory not loaded in dst |
| OglMergeCommit.MergeThenCommit | oglfs/ogl.h:189-197 | when that commit gets through, the store holds the tree if and only if every directory brought in was marked |
| OglMergeCommit.MergeOfCommitted | oglfs/ogl.h:189-197 | for a committed src, if and only if it adds no directory and puts none in place of something else, on the way of the merge |
| OglMergeCommit.MergedLoaded | oglfs/ogl.cpp:979-1221 | two trees wholly in memory merge to one |
| OglMergeCommit.MergeAnswers | oglfs/ogl.cpp:979-1221 | after the merge and a commit, the repository opened again finds exactly the paths of the three-way merge not marked removed, of their kinds and with the hashes commit gives |
| OglHash.HashBuf | oglfs/ogl.cpp:30-42 | the hash is the first 64 bits of the SHA-256 digest of the bytes |
| OglHash.HashFile | oglfs/ogl.cpp:62-92 | however read cuts a file, its hash is that of its content |
| OglHash.Reverse64Reverses | 3rd-parties/sha2-1.0.1/sha2.c:134-141 | the macro reverses the eight bytes of a word |
| TinyChunk.GetType | sandbox/tinymalloc.cpp:159-171 | the loop finds the class that the table gives |
| TinyChunk.ClassFits | sandbox/tinymalloc.cpp:159-179 | a request fits its class and, above 4 bytes, no smaller one; a class's size is of that class |
| TinyChunk.SlotsFit | sandbox/tinymalloc.cpp:49-58 | in every chunk shape the bitmap has a bit for each slot and the slots fit behind it |
| TinyChunk.PositionOfSlot | sandbox/tinymalloc.cpp:107-113 | the position free computes is the slot alloc handed out |
| TinyChunk.NewChunk | sandbox/tinymalloc.cpp:36-47 | a new chunk counts all its slots free and its bitmap says so |
| TinyChunk.AllocFreeRange | sandbox/tinymalloc.cpp:60-80 | the first clear bit of the range is found, set and counted, and -1 means that there is none |
| TinyChunk.AllocFree | sandbox/tinymalloc.cpp:82-95 | a chunk that counts a free slot yields one wherever the rotating start falls, and the counter stays true |
| TinyChunk.Free | sandbox/tinymalloc.cpp:110-116 | exactly that slot's bit is cleared and the counter stays true |
| TinyHeap.LiveBlocksAreSafe | sandbox/tinymalloc.cpp:266-419 | a live block lies in the memory taken so far, apart from every other live block, descriptor and bitmap |
| TinyHeap.DescriptorsAreSafe | sandbox/tinymalloc.cpp:181-197 | descriptors lie apart from one another and from every bitmap, although in slots themselves |
| TinyHeap.FrontedPermutes | sandbox/tinymalloc.cpp:211-222 | moving a chunk to the front permutes the list |
| TinyHeap.SumFreeFronted | sandbox/tinymalloc.cpp:211-222 | and keeps the sum of its free counters |
| TinyHeap.SomeFree | sandbox/tinymalloc.cpp:298-303 | a class that counts free slots has a chunk with one |
| TinyHeap.SortedInsertLinks | sandbox/tinymalloc.cpp:224-264 | the insertion keeps the order, and makes a list if and only if it is not at the end or the chunk had no successor |
| TinyMalloc.MemBlock.Init | sandbox/tinymalloc.cpp:181-197 | the first chunk holds its own descriptor in its first slot; six slots are left, nothing is live |
| TinyMalloc.MemBlock.PutFront | sandbox/tinymalloc.cpp:211-222 | pointers and list after moving or adding a chunk, other chunks untouched |
| TinyMalloc.MemBlock.PutLarge | sandbox/tinymalloc.cpp:224-243 | the pointers after inserting at the first place that is not smaller |
| TinyMalloc.MemBlock.AllocChunkBody | sandbox/tinymalloc.cpp:266-283 | a descriptor is always obtained; one chunk more at the bump pointer, its slots counted, nothing moved |
| TinyMalloc.MemBlock.AllocChunk | sandbox/tinymalloc.cpp:284-292 | it is never entered while under way, and the flag is down again afterwards |
| TinyMalloc.MemBlock.AllocSmall | sandbox/tinymalloc.cpp:294-319 | the recursion ends; a slot not in use before, of the class asked for; a new chunk if and only if the class had no free slot |
| TinyMalloc.MemBlock.MakeSure | sandbox/tinymalloc.cpp:203-209 | two descriptor slots at least are free afterwards, by a new chunk exactly when one was left |
| TinyMalloc.MemBlock.AllocLarge | sandbox/tinymalloc.cpp:343-349 | a new block of its own chunk, rounded to 256 bytes, at the bump pointer |
| TinyMalloc.MemBlock.Alloc | sandbox/tinymalloc.cpp:352-358 | the block joins the live ones, inside the memory and apart from every other one, every descriptor and every bitmap; nothing moves; exactly how far the bump pointer goes |
| TinyMalloc.MemBlock.FindChunk | sandbox/tinymalloc.cpp:376-401 | a block's chunk is found if and only if its class is at most 128 bytes |
| TinyMalloc.MemBlock.Free | sandbox/tinymalloc.cpp:403-418 | the assert holds if and only if the class is at most 128 bytes; then that block alone leaves and one slot of its class is free again |
| Sha256Spec.ConstantsAreRoots | 3rd-parties/sha2-1.0.1/sha2.c:228-257 | the constants are the leading fractional bits of the cube roots of the numbers in PRIMES and of the square roots of the first eight |
| Sha256Primes.FirstPrimes | 3rd-parties/sha2-1.0.1/sha2.c:228-257 | PRIMES lists the first 64 primes, in order and without a gap |
| Sha256Spec.PadZerosLeast | 3rd-parties/sha2-1.0.1/sha2.c:585-605 | no smaller number of zero bytes would complete the padding |
| Sha256Spec.LastBlocks | 3rd-parties/sha2-1.0.1/sha2.c:580-613 | the padded message ends in one or two blocks after the whole ones, by the length of the tail |
| Sha256.ReverseReads | 3rd-parties/sha2-1.0.1/sha2.c:129-133 | reversing a word read in machine order gives the standard's word |
| Sha256.ReverseWrites | 3rd-parties/sha2-1.0.1/sha2.c:616-624 | storing a reversed word writes its bytes in the standard's order |
| Sha256.WindowMoves | 3rd-parties/sha2-1.0.1/sha2.c:480-489 | updating a slot of the 16-word window in place gives the next word of the 64-word recurrence, and the window moves on |
| Sha256.UnreadKept | 3rd-parties/sha2-1.0.1/sha2.c:457-461 | overwriting word by word spoils no word still to be read, even in place |
| Sha256.WindowTells | 3rd-parties/sha2-1.0.1/sha2.c:381-515 | rolled and unrolled leave the same sixteen words in the buffer |
| Sha256.Context.Transform | 3rd-parties/sha2-1.0.1/sha2.c:439-515 | the rolled code computes the compression of section 6.2.2, also when the block is the context's own buffer |
| Sha256.Context.TransformUnrolled | 3rd-parties/sha2-1.0.1/sha2.c:381-435 | the unrolled code with renamed registers computes the same state and leaves the same buffer |
| Sha256.Context.constructor | 3rd-parties/sha2-1.0.1/sha2.c:335-342 | a context for the empty message |
| Sha256.Context.Update | 3rd-parties/sha2-1.0.1/sha2.c:519-565 | any bytes are appended to the message the context stands for |
| Sha256.Context.Final | 3rd-parties/sha2-1.0.1/sha2.c:567-628 | the digest of all that was appended, however split, and a context with nothing left in it |
| Sha256.UsedSpace | 3rd-parties/sha2-1.0.1/sha2.c:530-530 | the wrapping bit count always tells how full the buffer is |
| TinyPack.WriteBuf | toolkits/tinypack.h:170-174 | the message is written at its place, the rest of the buffer kept, in the stated order |
| TinyPack.Pack | toolkits/tinypack.h:152-156 | the buffer is the message |
| TinyPack.PackSizePrefix | toolkits/tinypack.h:162-168 | the buffer is the message after its size |
| TinyPack.WrittenOnce | toolkits/tinypack.h:170-174 | packing writes each byte of the message exactly once and no other |
| TinyPack.Unpack | toolkits/tinypack.h:223-227 | every target holds its field afterwards, further targets are kept |
| TinyPack.FieldReads | toolkits/tinypack.h:31-128 | a written field is read back and measured as written; for each kind, how many bytes are too few |
| TinyPack.Measured | toolkits/tinypack.h:207-221 | both sides compute one size; any shorter buffer is rejected unless it ends in the body of a fixed buffer |
| TinyPack.CheckTells | toolkits/tinypack.h:241-246 | the check accepts a cut message if and only if the cut is in the body of a fixed buffer |
| TinyPack.NoFixedNoBody | toolkits/tinypack.h:111-121 | without fixed buffers no cut is in one, so every strict prefix is rejected |
| TinyPack.UnpackPack | toolkits/tinypack.h:223-249 | unpacking gives back the values packed, in every order of kinds |
| TinyPack.CheckedStaysInside | toolkits/tinypack.h:207-249 | whatever bytes arrive, without fixed buffers a passed check keeps every read inside the buffer |

## Left out

- Callbacks that call back into the multiplexer while it handles a packet; they are a list of events here.
- MuxEndpoint.Mux.Send: the transport takes every write; the branch that marks a channel invalid when one fails is not
  modelled.
- MuxEndpoint.Mux.Write: for the same reason no write stops after some of its chunks.
- Packets split over calls of ReceiveRaw, beyond the lemmas that say how such calls go wrong.
- User-defined packet commands past the standard ones, and the Ack command, which nothing sends.
- File-system calls (open, read, lstat, readlink, mkstemp): their results are the parameters of OglCommit.Env, and they
  succeed. The bytes of a symbolic link's object are one of them.
- Objects with names that no path can spell: OglCodec.DecodeDir calls them unreadable, the code would load them.
- Permission bits on loading: the code stores them and does not restore them, and neither does the model.
- How merge fails: the outcome tells a conflict from an abort, but which of several is met first depends on the order of
  names, which is left open.
- OglSession.SessionInOrder: changes go to loaded directories, after which memory and store agree at every path;
  sessions with other changes, where they need not, are those of OglAnySession.
- OglSession.ActionInOrder: for the same reason; OglAnySession.ActionWorks is without it.
- OglMerge.Merge: OglRepo.Tidy leaves out trees with a change in a directory not loaded, which are in no other way in
  order either (OglMergeCommit.ReadyIsTidy).
- Descriptors and bitmaps as bytes: they are values under their addresses, so that what the model does not show is one
  write damaging another record; the disjointness proved is the reason that it cannot happen.
- TinyMalloc.MemBlock.AllocLarge: no large chunk has been freed before, so the branch that searches the freed ones is
  not modelled; SortedInsertLinks says exactly when the lists of large chunks survive put_large and put_large_free.
- Memory running out: the code never looks at the size of its memory.
- TinyMalloc.MemBlock.FindChunk: addresses of blocks from slots only, not of large blocks.
- TinyMalloc.MemBlock.Free: blocks from slots only, not large ones; a pointer that is not live is the caller's error, as
  in the code.
- SHA-384, SHA-512 and the hexadecimal helpers, which the file tree does not use.
- The bit count of SHA-256 is a number below 2^64 and its bytes are written in the standard's order directly;
  Reverse64Reverses is the reason why the macro does the same.
- The strength of 64-bit hashes: that they do not collide is an assumption.
- superdir_object, the loader, the system-call sandbox and its filter.
