# Verified model of the MSI toolkit's handle registry, directory trees, text helpers, source lists, packing loop and last-error protocol

This project models the parts of the repository in which state, interleaving or
index-driven scanning decide what a caller sees, and proves what they guarantee.

- **The global `MSIHANDLE` registry** (`crates/msi-ffi/src/handles.rs`), at three
  levels. `HandleTable.dfy` is the table as an object, with the real search loop of
  `alloc`. `Registry.dfy` lets threads interleave between the critical sections of
  `alloc`, `close_handle` and `close_all_handles`. `RegistryLocks.dfy` and
  `RegistryLockRuns.dfy` go down to the two reader-writer locks: waiting, acquiring,
  each table access under a lock, releasing. The lock level is proved to simulate the
  section level, so the invariants of the section level hold of it, and
  `RegistryRealisation.dfy` proves the converse: whatever the sections can do, the
  threads can do under the locks. `RegistryIsolation.dfy` and
  `RegistryLockIsolation.dfy` say exactly when `close_all_handles` leaves other threads
  alone, `RegistryObjects.dfy` what any access shows over a whole run. `HandleIds.dfy`
  holds the arithmetic of the wrapping 32-bit counter and the pigeonhole argument for
  the search.
- **The directory of a compound file** (`crates/msi/src/cfb`), from staged streams to
  the bytes and on to a reader that has only the bytes. `CfbNames.dfy` is the order of
  names over UTF-16 code units. `SiblingTrees.dfy`, `DirectoryLinks.dfy` and
  `DirectoryTrees.dfy` are the writer's red-black tree over an array of entries and an
  array of parent links, with its rotations and its repair in place: the arrays are tied
  to a tree value seen from a place inside it, so that a rotation deep in the tree is a
  change at that place. `DirectorySearch.dfy` stages streams, arranges them and says
  what comparisons lead to; `DirectoryWays.dfy` says what its links alone promise to any
  reader. `DirectoryEntries.dfy` stores an entry in 128 bytes and reads it back.
  `DirectoryPaths.dfy` is the reader's search, in links that need not form a tree.
  `DirectoryFiles.dfy` puts the whole way together.
- **The screenshot text helpers** (`scripts/generate_screenshots.py`): the RTF scanner,
  `clean_msi_text` and the word wrapper. The loops are methods proved against scanning
  functions over the rest of the text (`RtfStripper.dfy`, `CleanText.dfy`,
  `WordWrap.dfy`); round trips, erasure and optimality are proved about those functions
  (`RtfDocuments.dfy`, `RtfErasure.dfy`, `CleanText.dfy`, `WordWrap.dfy`).
- **The source list cache** (`crates/msi-ffi/src/source_list.rs`): the cache as an object
  (`SourceList.dfy`) and what any run of calls leaves in it (`SourceHistory.dfy`).
- **The cabinet packing loop** (`crates/msi-ffi/src/builder.rs`): a method over the builder
  and the cabinet writer, with each early exit and the partial result it leaves
  (`CabinetPacking.dfy`).
- **The FFI last error** (`crates/msi-ffi/src/error.rs`): boundary, stored error and the
  two-call buffer protocol (`LastError.dfy`).

The text-handling facts about Unicode that the proofs use (ASCII letters are letters, a
backslash is not, and so on) are `CharClasses.Valid` in `PyText.dfy`; nothing else about
Python's character tables is used. `Options.dfy` declares `Option`,
`Sets.dfy` holds a fact about finite sets.

## Where the code and its documentation differ

The model follows the code in each case.

- `handles.rs:41-42` says `close_all_handles` is thread-isolated. It is so before the
  counter wraps, and whenever each handle is closed by the thread that allocated it
  (`SweepIsIsolatedBeforeWrap`, `SweepIsIsolatedUnderOwnCloses`), but not in general
  (`SweepCanHitAnotherThread`): a handle closed by another thread leaves a stale entry,
  and the id can be issued again. `IsolatedExactlyWithoutStaleEntries` and
  `IsolatedExactlyWhenNothingOwned` give the exact conditions.
- A skipped RTF group vanishes wherever it stands between tokens, except right after a
  backslash that escapes nothing and names nothing: there the backslash escapes the
  group's brace (`GroupErasedExactly`).
- `clean_msi_text` removes a leading font tag, except when the tag's name starts with
  `n`: the two characters are replaced by a line feed before the tag is looked for. Only
  one tag is removed: markup behind it shows (`FontTagErasedExactly`).
- After media disk 0 is cleared, enumeration may still report a disk 0: media sources
  without an id report that number (`ClearedDiskReportedExactly`).
- The stored error reads as "no error" not only after a call that succeeded but also
  after one that failed with code 0 and an empty message (`OnlyTheLastCallCounts`).

- A stream name of more than 31 UTF-16 units is staged without an error, but not stored
  as it is: with 32 units the file cannot be opened again, so that not one of its streams
  is found; with 32767 units the recorded length wraps round to 0, and the stream has
  lost its name. A reader finds every stream if and only if no name is over 31 units
  (`RoundTripExactly`).
- `compare_cfb_names` promises a comparison up to case. A half of a character that takes
  two UTF-16 units counts as nothing in it, so that two names equal but for such
  characters are equal altogether: the second is refused as a duplicate, and looking for
  it finds the first. `EqualIsSameUpToCaseExactly` says which equal names are the same up
  to case.
- The reader's search is meant to end: on links that form a ring it does not. It ends if
  and only if it comes to no entry twice (`EndsExactly`).

Each of these has a lemma with an input at which it happens: `SweepCanHitAnotherThread`
and `SweepCanHitUnderLocks`, `GroupThatShows`, `TagsThatShow`,
`ClearedDiskThatIsReported`, `FailureThatLeavesNoError`, `FilesWithLongNames`,
`DifferentNamesThatAreEqual` and `OtherStreamIsFound`, `RingNeverEnds`.

## Model

| member | source | states |
|---|---|---|
| HandleTables.HandleTable.constructor | crates/msi-ffi/src/handles.rs:47-53 | a new table is empty and its counter stands at 1 |
| HandleTables.HandleTable.FetchAdd | crates/msi-ffi/src/handles.rs:60 | hands out the counter's value and leaves it one further, wrapping at 2^32 |
| HandleTables.HandleTable.Alloc | crates/msi-ffi/src/handles.rs:55-76 | the search loop ends; the result is the first nonzero id, in cyclic order from the counter, that was not live, after at most as many skips as there are live handles plus one; the object is stored under it, the handle recorded for the thread, nothing else changed |
| HandleTables.HandleTable.CloseHandle | crates/msi-ffi/src/handles.rs:111-131 | reports whether the handle was live; removes it, and its entry under the calling thread only |
| HandleTables.HandleTable.CloseAllHandles | crates/msi-ffi/src/handles.rs:134-153 | removes exactly the handles recorded for the thread, and its record |
| HandleTables.HandleTable.WithHandle | crates/msi-ffi/src/handles.rs:156-167 | runs the closure on the live object and returns its result, or nothing for a dead handle |
| HandleTables.HandleTable.WithHandleMut | crates/msi-ffi/src/handles.rs:170-181 | replaces the live object by what the closure makes of it; a dead handle changes nothing |
| HandleTables.HandleTable.WithHandleMutAndRead | crates/msi-ffi/src/handles.rs:185-216 | needs two different live handles; keeps the key set and every object but the mutable one, also on the paths that return nothing |
| HandleTables.Tables.FreshHandle | crates/msi-ffi/src/handles.rs:60-64 | the id issued is neither null nor live |
| HandleIds.AdvanceIsModular | crates/msi-ffi/src/handles.rs:60 | the wrapping counter is addition modulo 2^32 |
| HandleIds.FirstFree | crates/msi-ffi/src/handles.rs:60-63 | with fewer than 2^32 - 1 live handles some candidate is free, and at most one more than the number of live handles is skipped before it |
| HandleIds.TakenRunIsShort | crates/msi-ffi/src/handles.rs:60-63 | pigeonhole: within one turn no run of unusable candidates is longer than the live handles plus the null handle |
| HandleIds.SearchEndsExactly | crates/msi-ffi/src/handles.rs:60-63 | a usable candidate exists if and only if fewer than 2^32 - 1 handles are live |
| HandleIds.SearchStopsAtOrBefore | crates/msi-ffi/src/handles.rs:60-63 | the search never runs past a free id: it stops there or the counter has come closer to it |
| Registry.HalvesMakeOperations | crates/msi-ffi/src/handles.rs:55-153 | run undisturbed, the two halves of allocating, closing and closing all are the operations of the table |
| Registry.TrackedFollowsOwnSteps | crates/msi-ffi/src/handles.rs:67-74 | what a thread answers for changes only by its own allocations, closes and sweeps |
| Registry.StepKeepsInv | crates/msi-ffi/src/handles.rs:55-153 | every step of every thread keeps the registry invariant |
| Registry.EveryLiveHandleIsAccountedFor | crates/msi-ffi/src/handles.rs:55-153 | in every reachable state of every interleaving a live handle is recorded for its allocator, or its allocator is about to record it or has taken it to remove it; no thread paused inside closing a handle is the allocator of that handle re-issued |
| Registry.SweepIsComplete | crates/msi-ffi/src/handles.rs:134-153 | when closing all handles finishes, its thread has no live handle left, under any interleaving, after foreign closes and counter wrap |
| Registry.LiveSetFootprint | crates/msi-ffi/src/handles.rs:55-216 | only closing and closing all shrink the live set, only allocation extends it, and surviving objects change only by a mutable access to them |
| Registry.ReissueIsAWholeTurnLater | crates/msi-ffi/src/handles.rs:60-64 | two issues of one id are a positive multiple of 2^32 counter increments apart |
| Registry.HandlesCountUpBeforeWrap | crates/msi-ffi/src/handles.rs:49-64 | before the counter wraps the k-th allocation returns k and the collision loop never iterates |
| Registry.SweepIsIsolatedBeforeWrap | crates/msi-ffi/src/handles.rs:134-153 | before the counter wraps, closing all handles removes no other thread's live handle |
| RegistryIsolation.OwnedIsLiveWhenIdle | crates/msi-ffi/src/handles.rs:41-42 | if handles are closed only by their allocators, an idle thread's record is exactly its live handles |
| RegistryIsolation.TwoTablesRefineOneMap | crates/msi-ffi/src/handles.rs:36-216 | under the same condition the two tables refine one map from handle to allocator and object, closing all drops exactly the thread's entries, and what the caller is told or shown is what that map holds |
| RegistryIsolation.CallersSeeOneMap | crates/msi-ffi/src/handles.rs:36-216 | in any such run, in any interleaving, all results callers see are results one map gives in that order |
| RegistryIsolation.SweepIsIsolatedUnderOwnCloses | crates/msi-ffi/src/handles.rs:134-153 | under the same condition closing all removes a live handle if and only if the thread allocated it, however often the counter wrapped |
| RegistryIsolation.DriveTo | crates/msi-ffi/src/handles.rs:55-131 | from any state an idle thread can, alone and touching only its own handles, be issued any free id |
| RegistryIsolation.IsolatedExactlyWithoutStaleEntries | crates/msi-ffi/src/handles.rs:125-150 | if nobody takes the thread's live handles meanwhile, closing all is isolated if and only if the thread's record has no stale entry at the call |
| RegistryIsolation.IsolatedExactlyWhenNothingOwned | crates/msi-ffi/src/handles.rs:134-153 | whatever other threads do, closing all is isolated if and only if nothing is recorded for the thread at the call |
| RegistryIsolation.SweepCanHitAnotherThread | crates/msi-ffi/src/handles.rs:41-42 | from the empty registry a state is reachable in which closing all removes another thread's live handle |
| RegistryLocks.StepKeepsLocks | crates/msi-ffi/src/handles.rs:55-216 | every step keeps the lock discipline: a lock is held by exactly the threads whose program point says so |
| RegistryLocks.StepMatchesSection | crates/msi-ffi/src/handles.rs:55-216 | simulation: a lock-level step completes exactly one critical section or leaves the settled registry as it was |
| RegistryLocks.StepShowsSection | crates/msi-ffi/src/handles.rs:55-216 | a thread is told or shown under the locks what the critical section it completes gives, and nothing by other steps |
| RegistryLocks.PairWorkSettles | crates/msi-ffi/src/handles.rs:203-212 | taking two objects out of the map and putting them back is invisible to others but for the closure's change |
| RegistryLockRuns.LocksRefineSections | crates/msi-ffi/src/handles.rs:55-216 | every state reachable at lock level settles to a state reachable by critical sections |
| RegistryLockRuns.LiveHandlesAreAccountedFor | crates/msi-ffi/src/handles.rs:55-153 | at lock level too, whenever nobody is writing the map, each live handle is recorded for its allocator, about to be, or taken by it to be removed |
| RegistryLockRuns.SweepLeavesNothing | crates/msi-ffi/src/handles.rs:145-151 | when the sweep gives up the map lock, the tables hold no handle its thread allocated and no record of the thread |
| RegistryLockRuns.NeverTwoLocks | crates/msi-ffi/src/handles.rs:55-153 | no thread holds one lock while it waits for or holds the other |
| RegistryLockRuns.NoDeadlock | crates/msi-ffi/src/handles.rs:55-216 | in every reachable state with an unfinished operation some unfinished operation has an enabled step |
| RegistryLockRuns.HoldersFinish | crates/msi-ffi/src/handles.rs:55-216 | each access of a lock holder leaves strictly fewer before it releases, and no other thread adds any; only allocation into a full table is excepted |
| RegistryRealisation.FinishWork | crates/msi-ffi/src/handles.rs:55-216 | a thread that holds a lock, with no other holding one, completes its section by its own steps and leaves both locks free |
| RegistryRealisation.RealiseRun | crates/msi-ffi/src/handles.rs:55-216 | from any state with both locks free, a run of critical sections by threads that are between sections is carried out under the locks by the same threads |
| RegistryRealisation.SettleRun | crates/msi-ffi/src/handles.rs:55-216 | every lock-level run settles to a run of critical sections by the same threads |
| RegistryRealisation.SectionsAreRealised | crates/msi-ffi/src/handles.rs:55-216 | a state is reachable by critical sections if and only if some lock-level state settles to it, and then one with both locks free does |
| RegistryLockIsolation.CalmDown | crates/msi-ffi/src/handles.rs:55-216 | from any good state, unless a thread searches a full table, the other threads can bring about that both locks are free |
| RegistryLockIsolation.IsolatedExactlyUnderLocks | crates/msi-ffi/src/handles.rs:134-153 | from every reachable lock-level state in which a thread waits to sweep, others can make the sweep remove a handle not its own if and only if it has taken anything and nobody searches a full table |
| RegistryLockIsolation.HitsAlike | crates/msi-ffi/src/handles.rs:134-153 | from every such state, what others can do to the sweep step by step is what they can do section by section, unless one is stuck in a full table |
| RegistryLockIsolation.SweepCanHitUnderLocks | crates/msi-ffi/src/handles.rs:41-42 | a lock-level run leads to a state in which the sweeping thread's own steps remove another thread's live handle from the table |
| RegistryObjects.AccessesShowTheLastObject | crates/msi-ffi/src/handles.rs:156-216 | over any run, in any interleaving, an access through a handle shows exactly the object left under it last, by issuing it or by a mutable access that ran, and nothing if it was never issued or has been closed or swept since; a close reports just that, and a pair shows both objects when the handles differ and each has one |
| CfbNames.CompareCfbNames | crates/msi/src/cfb/directory.rs:880-906 | the loop answers that the first name comes first if and only if it is shorter, or of the same length and, at the first place where upper-case forms differ, its own is a proper prefix of the other or has the smaller character where they first differ |
| CfbNames.NamesInOrderExactly | crates/msi/src/cfb/directory.rs:880-906 | the same of the comparison as a function: less, greater and equal each exactly when positions say so |
| CfbNames.WellFormedExactly | crates/msi/src/cfb/directory.rs:741-744 | code units are a string exactly when each high surrogate has a low one behind it and each low one a high one in front |
| CfbNames.NamesAreTotallyOrdered | crates/msi/src/cfb/directory.rs:880-906 | names compare as a total order, in which two are equal exactly when they have one length and at each place two surrogate halves or characters with the same upper case |
| CfbNames.EqualIsSameUpToCaseExactly | crates/msi/src/cfb/directory.rs:876-906 | names that compare equal are the same up to case if and only if their characters of two units have the same upper case where both hold one; in particular if no place holds two different halves |
| CfbNames.DifferentNamesThatAreEqual | crates/msi/src/cfb/directory.rs:891-897 | two unrelated characters of two units each that compare equal |
| SiblingTrees.RedBlackIsShallow | crates/msi/src/cfb/writer.rs:117-134 | a red-black tree is no deeper than twice the logarithm of its size |
| SiblingTrees.TakeApart | crates/msi/src/cfb/writer.rs:172-217 | around red under red all four shapes ask the same of their parts |
| SiblingTrees.RecolorMovesUp | crates/msi/src/cfb/writer.rs:182-186 | with a red uncle, recolouring leaves at most red under red two levels higher |
| SiblingTrees.OuterRotates | crates/msi/src/cfb/writer.rs:187-197 | with a black uncle, raising the parent of an outer entry mends the tree |
| SiblingTrees.InnerRotates | crates/msi/src/cfb/writer.rs:187-197 | with a black uncle, turning an inner entry outwards and raising it mends the tree |
| DirectoryLinks.RotateLeft | crates/msi/src/cfb/writer.rs:235-270 | child links, parent links and root become those of the tree rotated at that place; names, order and entries outside the tree stay |
| DirectoryLinks.RotateRight | crates/msi/src/cfb/writer.rs:284-319 | the mirror image |
| DirectoryTrees.RepairLeft | crates/msi/src/cfb/writer.rs:180-197 | one round under the left child of the grandparent: raised colours with a red uncle, a rotation or two with a black one |
| DirectoryTrees.RepairRight | crates/msi/src/cfb/writer.rs:198-216 | the mirror image |
| DirectoryTrees.FixUp | crates/msi/src/cfb/writer.rs:168-221 | the repair loop ends, with a red-black tree of the same entries in the same order, held by both arrays |
| DirectoryTrees.Attach | crates/msi/src/cfb/writer.rs:140-164 | the descent links the new entry between the entries that may precede it and those that come after it |
| DirectoryTrees.RbInsert | crates/msi/src/cfb/writer.rs:129-221 | insertion keeps both arrays holding one red-black tree in order of names, adds exactly the new entry, and changes no name and nothing outside the tree |
| DirectorySearch.CfbWriter.AddStream | crates/msi/src/cfb/writer.rs:102-115 | a name that compares equal to a staged one is refused, any other appended, so no two staged names compare equal |
| DirectorySearch.BuildDirectory | crates/msi/src/cfb/writer.rs:348-401 | the entries of all streams, each once and no other, form a red-black tree in order of names |
| DirectorySearch.SearchIsRight | crates/msi/src/cfb/reader.rs:407-428 | in a tree in order, comparisons lead to an entry with the name, and to nothing exactly when there is none |
| DirectorySearch.TreeFindsExactly | crates/msi/src/cfb/writer.rs:386-401 | in the writer's tree a name leads to a stream exactly when one compares equal, and to the one stream where staging let the names pass; the depth is logarithmic in the number of streams |
| DirectoryWays.DirectoryIsInOrder | crates/msi/src/cfb/writer.rs:386-401 | whatever way a reader goes down the links from the root: below an entry no name on the left comes after its own and none on the right before, no red entry has a red one below it, the root is black, and all ways out pass the same number of black entries |
| DirectoryWays.EveryStreamIsReached | crates/msi/src/cfb/writer.rs:386-401 | some way down the links leads to the entry of each stream |
| DirectoryPaths.EndsExactly | crates/msi/src/cfb/reader.rs:407-428 | in any links the search ends if and only if it comes to no entry twice |
| DirectoryPaths.RingNeverEnds | crates/msi/src/cfb/reader.rs:409-426 | an entry linked to itself, on which the search for another name does not end |
| DirectoryPaths.FindInTree | crates/msi/src/cfb/reader.rs:407-428 | wherever the search ends, it yields what it stops at, and stops at the first entry it can |
| DirectoryPaths.TreeSearchEnds | crates/msi/src/cfb/reader.rs:407-428 | in links that form a tree it ends, after at most as many steps as the tree is high, with what comparisons lead to |
| DirectoryEntries.NumberReadsBack | crates/msi/src/cfb/directory.rs:839-857 | a number that fits its bytes, lowest first, is read back |
| DirectoryEntries.NameSurvivesExactly | crates/msi/src/cfb/directory.rs:721-745 | a stored name is read back as it was if and only if it has at most 31 units |
| DirectoryEntries.LongNameIsReadAs | crates/msi/src/cfb/directory.rs:818-832 | a longer name is an error or a shorter name, as its recorded length, which wraps at 16 bits, comes out |
| DirectoryEntries.StoredEntry | crates/msi/src/cfb/directory.rs:709-860 | an entry that is stored and read back is the same but for what is left of its name, and is an error exactly when its name is |
| DirectoryEntries.EntrySurvivesExactly | crates/msi/src/cfb/directory.rs:709-860 | an entry is read back as it was if and only if its name has at most 31 units |
| DirectoryEntries.EntryFormat | crates/msi/src/cfb/directory.rs:814-860 | byte by byte: up to 31 units of the name and zeros behind, its length in bytes with the terminator modulo 2^16, the type as 0, 1, 2 or 5, the colour as 0 or 1, and the other fields at their offsets, lowest byte first |
| DirectoryEntries.ReadExactly | crates/msi/src/cfb/directory.rs:709-805 | of any bytes the reader makes the entry they are, byte by byte, or reports the first thing wrong with them |
| DirectoryEntries.Serialize | crates/msi/src/cfb/directory.rs:814-860 | the bytes written field by field into the buffer are the fields one after the other |
| DirectoryEntries.ReadEntry | crates/msi/src/cfb/directory.rs:709-805 | reading takes each field from its place, with each error in the order in which it is met |
| DirectoryFiles.WriteDirectory | crates/msi/src/cfb/writer.rs:454-468 | the entries, filled up to whole sectors with unused ones, one after the other |
| DirectoryFiles.ReadDirectory | crates/msi/src/cfb/reader.rs:175-182 | every entry is read, or the first error among them is returned |
| DirectoryFiles.WriteFile | crates/msi/src/cfb/writer.rs:335-468 | any staged streams are arranged in a tree and stored; the first entry is the root's, the others are marked as streams and tell the length of each; a reader of the bytes gets these entries with only unused ones behind, and finds every stream under its own name, if and only if every name has at most 31 units |
| DirectoryFiles.ReaderGetsExactly | crates/msi/src/cfb/reader.rs:175-182 | the reader's entries are the writer's, with unused ones behind, if and only if every stream's name has at most 31 units |
| DirectoryFiles.EntriesStand | crates/msi/src/cfb/writer.rs:454-468 | the k-th entry takes the k-th 128 bytes |
| DirectoryFiles.DirectorySurvivesExactly | crates/msi/src/cfb/reader.rs:175-182 | all entries are read back as they were if and only if every name has at most 31 units |
| DirectoryFiles.StoredFailsExactly | crates/msi/src/cfb/reader.rs:175-182 | a stored directory cannot be read exactly when some name in it cannot |
| DirectoryFiles.DirectoryFindsExactly | crates/msi/src/cfb/reader.rs:443-455 | given that no name is over 31 units, a reader of the bytes finds a name exactly when a stream has a name that compares equal, and then the entry of such a stream |
| DirectoryFiles.RoundTripExactly | crates/msi/src/cfb/reader.rs:443-455 | a reader of the bytes finds every staged stream under its own name if and only if every name has at most 31 units |
| DirectoryFiles.FilesWithLongNames | crates/msi/src/cfb/directory.rs:725-730 | a name of 32 units makes a file that cannot be opened, one of 32767 units a stream without its name |
| DirectoryFiles.OtherStreamIsFound | crates/msi/src/cfb/reader.rs:415-424 | a stream found under a name that has nothing to do with its own |
| RtfStripper.LookForSkippedGroup | scripts/generate_screenshots.py:409-418 | the lookahead at a brace answers yes exactly when the text there starts with one of the six heads: the star, or one of five words that no letter extends |
| RtfStripper.OpensSkipExactly | scripts/generate_screenshots.py:409-418 | of any text: it opens a skipped group if and only if it starts with one of the six heads |
| RtfStripper.ScanControl | scripts/generate_screenshots.py:435-445 | the scan yields the control word and the index after its parameter and one space |
| RtfStripper.StripRtfText | scripts/generate_screenshots.py:387-451 | the loop computes the token-by-token meaning of the document, trimmed; it keeps 1 <= skip depth <= depth, emits no more than it has consumed and always advances, for all inputs |
| RtfStripper.Emit | scripts/generate_screenshots.py:405-449 | a text is worth no more characters than it has, from any level |
| RtfDocuments.RoundTrip | scripts/generate_screenshots.py:405-451 | text escaped and wrapped as an RTF document is read back with only its carriage returns lost, hence unchanged if and only if it has none |
| RtfDocuments.ControlIsWorth | scripts/generate_screenshots.py:430-446 | a control word, its parameter of digits and minus signs and one space are worth a line feed for the words par and line, and nothing for any other |
| RtfDocuments.CharacterIsWorth | scripts/generate_screenshots.py:420-449 | at the outer level a plain character is worth itself, a line break or closing brace nothing, and behind a backslash a backslash or brace is worth itself |
| RtfDocuments.EmitSkipped | scripts/generate_screenshots.py:407-429 | inside a skipped group nothing but braces matters |
| RtfDocuments.GroupIsWorthNothing | scripts/generate_screenshots.py:407-429 | at the outer level a group with one of the six heads and a balanced body contributes nothing |
| RtfErasure.EmitSplits | scripts/generate_screenshots.py:405-449 | at a token boundary the output splits into the text before and the text after |
| RtfErasure.PrefixStays | scripts/generate_screenshots.py:405-449 | what the scanner did before a boundary is the same whatever opening brace follows it |
| RtfErasure.GroupErasedExactly | scripts/generate_screenshots.py:407-446 | a skipped group inserted between tokens outside skipped groups leaves the untrimmed output unchanged if and only if the token before is not a lone backslash |
| RtfErasure.GroupThatShows | scripts/generate_screenshots.py:430-446 | a document and a group right after its lone backslash, whose insertion changes the output |
| CleanText.StripAccelerators | scripts/generate_screenshots.py:372-384 | the accelerator loop computes its specification on every text, a trailing ampersand included |
| CleanText.CleanMsiText | scripts/generate_screenshots.py:351-384 | takes the RTF branch, the font tag branch or neither as the trimmed text demands |
| CleanText.CleanCases | scripts/generate_screenshots.py:351-384 | for every caption: an RTF document if it starts with an RTF header once trimmed, else the text behind the first closing brace if it starts with a tag once line feeds are put in, else that text |
| CleanText.ReplaceSplits | scripts/generate_screenshots.py:366 | each backslash with an n behind it becomes a line feed, wherever it stands |
| CleanText.ReplaceFixedExactly | scripts/generate_screenshots.py:366 | a text is left alone exactly when it has no backslash with an n behind it |
| CleanText.TrimSplits | scripts/generate_screenshots.py:362-370 | trimming takes blanks off both ends, and all of them |
| CleanText.MarksVanish | scripts/generate_screenshots.py:372-384 | whatever characters of a text are marked with an ampersand, it shows as it is, and a trailing ampersand shows nothing |
| CleanText.EveryLabelIsMarked | scripts/generate_screenshots.py:372-384 | every caption is some text so marked, so that the above says what every caption shows |
| CleanText.AmpsRoundTrip | scripts/generate_screenshots.py:372-384 | doubling ampersands is undone by accelerator stripping |
| CleanText.AmpsFixedExactly | scripts/generate_screenshots.py:372-384 | accelerator stripping leaves a text alone if and only if it has no ampersand |
| CleanText.RtfLabelRoundTrip | scripts/generate_screenshots.py:360-384 | a caption with doubled ampersands, written as RTF, is displayed as it was, trimmed and without carriage returns |
| CleanText.PlainLabelRoundTrip | scripts/generate_screenshots.py:362-384 | a caption without backslashes, its ampersands doubled, is displayed as it was, trimmed |
| CleanText.FontTagErasedExactly | scripts/generate_screenshots.py:366-370 | a leading font tag is removed if and only if its name does not start with n; the caption is then displayed as it would be without the tag if and only if it has no markup of its own |
| CleanText.TagsThatShow | scripts/generate_screenshots.py:366-370 | a tag starting with n that shows, and a second tag that shows behind one that does not |
| WordWrap.WrapTextLines | scripts/generate_screenshots.py:949-980 | the lines are a first-fit layout, with single spaces, of the words that stand in the text between its blanks; put one after the other they have the characters of the text that are no blanks, in order |
| WordWrap.SplitExactly | scripts/generate_screenshots.py:966 | the words of any text are what stands at places in rising order with blanks between them, blanks everywhere else and none inside |
| WordWrap.WrapIsTheFirstFit | scripts/generate_screenshots.py:969-980 | lines are the wrapped ones if and only if they cut the words so that every longer start of a line fits and the next line's first word would not have |
| WordWrap.WrapIsLayout | scripts/generate_screenshots.py:969-980 | the lines cut exactly the words, in order, into nonempty lines that fit or are a single word |
| WordWrap.WrapIsOptimal | scripts/generate_screenshots.py:969-980 | no way to cut the words into such lines uses fewer of them, if parts of fitting runs of these words fit |
| WordWrap.FirstFitStaysAhead | scripts/generate_screenshots.py:971-978 | the same from any point of the loop, against layouts that still have earlier words to place |
| WordWrap.WrapKeepsWords | scripts/generate_screenshots.py:966-980 | splitting the wrapped lines again yields the words of the text |
| WordWrap.WrapKeepsText | scripts/generate_screenshots.py:966-980 | wrapping loses nothing but blanks and adds nothing but blanks |
| SourceList.SourceListCache.AddSource | crates/msi-ffi/src/source_list.rs:28-58 | appends a source of the kind its prefix says, creating the product; a missing string changes nothing and returns 87 |
| SourceList.SourceListCache.AddMediaDisk | crates/msi-ffi/src/source_list.rs:73-96 | appends a media source with id, label and optional prompt; needs product and label |
| SourceList.SourceListCache.ClearMediaDisk | crates/msi-ffi/src/source_list.rs:1518-1550 | drops the media sources that carry the id, all that carry one for 0xFFFFFFFF, or returns 1605 for an unknown product |
| SourceList.SourceListCache.ClearAll | crates/msi-ffi/src/source_list.rs:61-70 | forgets the product, known or not |
| SourceList.SourceListCache.SetInfo | crates/msi-ffi/src/source_list.rs:1163-1218 | makes the product known; LastUsedSource sets the source used last |
| SourceList.SourceListCache.GetInfo | crates/msi-ffi/src/source_list.rs:99-134 | answers 87, 1610 or the value of the property, empty where there is none |
| SourceList.SourceListCache.EnumMediaDisks | crates/msi-ffi/src/source_list.rs:918-987 | describes the media source at the index, or returns 259 |
| SourceList.SourceListCache.ForceResolutionEx | crates/msi-ffi/src/source_list.rs:1621-1646 | succeeds exactly for known products |
| SourceList.ClearsCommute | crates/msi-ffi/src/source_list.rs:1537-1544 | two disk clears commute and repeating one changes nothing |
| SourceList.ClearIsStableFilter | crates/msi-ffi/src/source_list.rs:1537-1544 | a clear leaves, in their order, exactly the entries that are no media source with this id, or with any id for 0xFFFFFFFF |
| SourceList.RetainAppend | crates/msi-ffi/src/source_list.rs:1538-1543 | a clear works entry by entry, so order is kept |
| SourceList.ClearedDiskReportedExactly | crates/msi-ffi/src/source_list.rs:945-962 | after clearing disk d no index reports d, if and only if d is not 0 or no media source lacks an id |
| SourceList.ClearAllDisksExactly | crates/msi-ffi/src/source_list.rs:1540 | clearing 0xFFFFFFFF removes exactly the media sources that carry an id |
| SourceHistory.KnownExactly | crates/msi-ffi/src/source_list.rs:1639-1643 | over any run a product resolves, has information and accepts disk clears exactly when a valid add or set call was made since its last clear-all |
| SourceHistory.LastUsedIsVerbatim | crates/msi-ffi/src/source_list.rs:106-133 | the last value set since the last clear-all is read back verbatim with the letter of its prefix class, whatever was added or cleared since |
| SourceHistory.NeverUsedIsEmpty | crates/msi-ffi/src/source_list.rs:112-132 | a known product for which none was set since the last clear-all reads as empty |
| SourceHistory.SourcesAreSurvivors | crates/msi-ffi/src/source_list.rs:36-56 | the list of a product is what its calls added, by the prefix of the path, and no later clear of it, of the entry's own disk or of all disks took, in the order added |
| SourceHistory.EnumerationIsHistory | crates/msi-ffi/src/source_list.rs:945-982 | index by index enumeration reports id, label and prompt as given to the calls that added a media entry no later call cleared, in the order of the calls, then 259 |
| SourceHistory.ClearedDiskThatIsReported | crates/msi-ffi/src/source_list.rs:958-962 | after adding a plain path and clearing disk 0, enumeration reports disk 0 |
| SourceHistory.ProductsAreIndependent | crates/msi-ffi/src/source_list.rs:35 | the state of a product depends on the calls made on it alone |
| CabinetPacking.CabinetWriter.AddFile | crates/msi/src/cab/writer.rs:167-180 | a name already there up to ASCII case is refused, any other appended |
| CabinetPacking.PackOne | crates/msi-ffi/src/builder.rs:902-965 | one file: each refusal in the order of the checks, both rows recorded before the cabinet may refuse the name |
| CabinetPacking.PackAll | crates/msi-ffi/src/builder.rs:900-965 | the loop stops at the first file that is rejected or refused, with the rows of the files before it, and of the refused one |
| CabinetPacking.PackFilesFromDisk | crates/msi-ffi/src/builder.rs:854-985 | the whole new builder state for every outcome: all four tables on success, the file tables alone on an early exit, nothing on an argument error |
| CabinetPacking.EndingFrom | crates/msi-ffi/src/builder.rs:902-965 | the loop ends at a file that is in fact rejected, with that code, or in fact collides |
| CabinetPacking.EndingExactly | crates/msi-ffi/src/builder.rs:902-965 | everything is packed exactly when every file is acceptable and no two ids agree up to case; else the loop stops at the first file for which that fails |
| CabinetPacking.RowsExactly | crates/msi-ffi/src/builder.rs:913-964 | column by column, the k-th File row, FileHash row and cabinet entry come from the k-th path, id, component and data, and sequence numbers are 1, 2, 3, ... |
| CabinetPacking.RejectionExactly | crates/msi-ffi/src/builder.rs:902-926 | which files are rejected, and with which code, said by the arguments |
| CabinetPacking.SameNameExactly | crates/msi/src/cab/writer.rs:173-174 | names collide exactly when they differ in nothing but the case of ASCII letters |
| CabinetPacking.LimitIsSharp | crates/msi-ffi/src/builder.rs:876-944 | the file limit is the largest for which no sequence number is truncated |
| LastError.ThreadError.FfiBoundary | crates/msi-ffi/src/error.rs:194-266 | stores and returns what the closure's outcome demands, a panic included, whatever the closure itself left stored |
| LastError.ThreadError.SetLastError | crates/msi-ffi/src/error.rs:50-54 | replaces the stored code and message |
| LastError.ThreadError.ClearLastError | crates/msi-ffi/src/error.rs:67-71 | resets to code 0 and no message |
| LastError.ThreadError.GetLastErrorMessage | crates/msi-ffi/src/error.rs:95-118 | reports the size needed; writes message and NUL and leaves the tail of the buffer, or writes nothing and reports a short buffer; the stored error stays |
| LastError.ThreadError.SizeThenRead | crates/msi-ffi/src/error.rs:73-87 | asking for the size and then reading always succeeds with exactly the message and a NUL |
| LastError.ThreadError.Perform | crates/msi-ffi/src/error.rs:259-286 | a run of boundaries, nested ones included, direct sets, clears and queries leaves the error the history function says |
| LastError.FailureThatLeavesNoError | crates/msi-ffi/src/error.rs:209-212 | a failure with code 0 and no message leaves "no error" stored |
| LastError.OnlyTheLastCallCounts | crates/msi-ffi/src/error.rs:259-266 | over any run the stored error is what the last boundary, set or clear left: for a boundary nothing, the failure's code and message, or -99 with the panic's message; it reads as no error exactly after a clear, a closure that returned, or code 0 with no message |

## Left out

Of the registry:

- Lock poisoning and closures that panic or call back into the registry: closures are functions of the objects they are given.
- Fairness and scheduling: `HoldersFinish` bounds the work under a lock, nothing says that a waiting thread is ever chosen.
- Memory ordering of the counter: it is only ever incremented under the map's write lock, so the increments are modelled as atomic steps of the lock holder.
- Release of the singleton and its initialisation, and the contents of the objects: `MsiObject` tells objects apart by kind and an id.
- `HandleTable.WithHandle` and its mutable siblings take pure closures; effects of closures outside the table are not modelled.
- Alloc: requires that fewer than 2^32 - 1 handles are live, because in a full table the original never returns (`SearchEndsExactly`).

Of the directory:

- The class of the root and the length and start of the short streams' container, which the root's entry tells: these, and the first sector of each stream, are parameters.
- Storages inside storages and the contents of streams; the sectors and allocation tables on the way, through which the directory's bytes are taken to pass unchanged.
- BuildDirectory: requires no more streams than there are valid ids; the original numbers entries with a 32-bit cast and does not check.
- FindInTree: requires that the search ends, because otherwise the original does not return (`EndsExactly`).
- The table of upper-case forms is a parameter, of which only that no character vanishes is used; whether a character of two units has a case is a matter of that table.

Of the text helpers:

- Unicode tables: character classes are parameters about which only the facts in `CharClasses.Valid` are used.
- Fonts: the width of a line is a function of its text; `WrapIsOptimal` assumes that parts of fitting runs of the given words fit.
- FontTagErasedExactly: does not cover tags whose name starts with `rtf`, because such a caption is taken for an RTF document, nor text with no closing brace, which has no tag.
- All other code of the script: window capture, image drawing, state parsing, the command line.

Of the source list API:

- ANSI and wide variants are one operation each; the exports that return constants are not modelled.
- Decoding of argument strings (an absent string stands for a null or undecodable one), output buffers and their sizes, the panic guard that returns 1603, and user, context and option arguments, which the original ignores.
- Paths are strings: a media path that is not valid UTF-8 is not modelled.
- Locking of the cache: each call holds it throughout.

Of the packing loop:

- File contents, MD5 quads, the hashing of over-long identifiers, path splitting and the finished cabinet are the parameter `Env`; deduplication and compression inside the cabinet are not modelled, and building it always succeeds.
- The version and language columns, which the loop leaves empty, and every part of the builder other than the File, FileHash and Media rows and the embedded cabinets.
- The messages of failed packs; only their codes are modelled.

Of the last error:

- The message recorded for a panic that carries none is the parameter `unknown`; the tables that map errors of the engine to codes are not modelled.
- Messages are byte strings no longer than an allocation can be, so the size computation never saturates.

The rest of the repository (other parts of compound files, cabinets, database and linker, transactions, patching, advertisement, WiX, bindings) is not part of this model.
