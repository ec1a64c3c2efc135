# ts-engine: index, merge protocol and the structures below, verified

ts-engine keeps documents in segments. A segment is an inverted index: posting lists by
term, documents by primary key, a growing bitmap of deleted ids, and counters. One thread
takes add and remove tasks from an input queue; when the active segment is full it is
sealed and a new one is started. A second thread merges: in seven stages it copies what is
live in two sealed segments into a new one, lets the input thread put the new segment in
place, releases the old ones, and has the removals repeated that arrived meanwhile.
Queries walk over all segments.

This project models that logic in Dafny and proves what it promises.

- **Memory.** `Documents`, `Docids`, `Bitmaps`, `Intersect`, `Segments`, `Store`, `Merge`
  and `Engine` model the code as it works, on objects that are changed in place: documents
  whose id field is overwritten, bitmaps, generators, segments, the engine with its merger.
  Every method is proved against a function of values (`SegmentValues`, `LookupSpec`,
  `Protocol`), and each entry point, input handler and merge procedure of `Engine.Engine`
  takes exactly the step that the protocol has for it (a migration takes two: the move of
  the documents, and the queueing of the replacement).
- **Protocol.** `Protocol` is the engine and its merger as a state machine. `ProtocolSafety`
  and `ProtocolRuns` prove its invariant over all runs and settle when merging is
  invisible: exactly as long as no step is *harmful*, which can be recognised before the
  step is taken. `Migration` takes the migration apart into one step a document, with the
  tasks of the input thread in between, and proves that it refines the protocol.
  `Answers` carries all this through to the answers of lookups, and `Submissions` back to
  what callers have submitted. `HarmfulRuns`, on top of `Traces`, gives runs with harmful steps, for every limit on the size of segments, after
  which lookups answer wrongly.
- **Structures.** `Queues` (linked FIFO with a limit), `ThreadPool` (one event bit, any
  number of workers and pushers), `ConcurrentReader` (one appending writer, any number of
  readers), `UtHash` (the hash table) and `UtString` (Knuth-Morris-Pratt in both
  directions).

Results that are not what one might expect:

- Merging is *not* always invisible. An add that is taken from the queue after the bitmap
  of the second segment has been copied and before the new segment is put in place (in
  stage 2, and in the last part of stage 1, while documents are still being moved) does
  not remove a document with the same pk that is moved, because the new segment is not
  listed yet and adds are not recorded in `merging_deletion`: when the merge is over, a
  lookup finds two documents with one pk (`HarmfulRuns.AddIsSeen`). And
  `merging_deletion` is never cleared, so that a removal from one merge is repeated in the
  next one and takes away a document that was added since (`HarmfulRuns.RemovalIsSeen`).
  Both runs exist for every limit, the 100000 documents of the configuration included.
  `ProtocolRuns.StepExact` and `ProtocolRuns.MergeIsInvisible` say that there is nothing
  else when a migration is one step, and `Migration.MigrationIsInvisible` says it for
  documents that are moved one by one: the guard is necessary and sufficient.
- A lookup for one single term returns deleted documents, too. It answers from the map if
  and only if no deleted document with the term is in a listed segment in which anything is
  live (`Answers.OneTermAnswers`).
- The release of two merged segments leaves the engine usable only if their counters of
  lookups in flight are both zero or both not: with one of them released, the next call
  reads its counter through a null pointer (`Engine.Engine.Release`).
- The total of a lookup is wrong when a segment leaves the variable for it alone and
  that variable holds something: a new engine reports whatever memory held
  (`Answers.TotalOfNew`), and a fully deleted segment adds the total of the segment before
  it once more (`Answers.TotalIsExact`).
- A comment on the selection of segments fears that a merged segment may exceed the limit
  of documents. It cannot: the deleted ratio is an integer division, so the first of the
  two segments is always fully deleted (`ProtocolSafety.SelectionIsExact`,
  `ProtocolRuns.IdsInBounds`).
- `ts_queue_dequeue` reads the size of an empty queue after it has released the lock. A
  worker can therefore take its previous task for a new one and run it twice
  (`ThreadPool.StaleHappens`); every accepted task is queued, running or finished exactly
  once if and only if no worker makes that read too late (`ThreadPool.PoolExact`). No
  wake-up is ever lost, late reads or not (`ThreadPool.NoLostWakeUp`).

How to read the code. `Ids` is a snapshot of the ids that documents carry; `Carry` and
`Identified` tie it to memory. `SegV` is what a segment amounts to. Several predicates are
*closed*: their definition stands behind a lock of its own, and a proof that needs the
definition says that it is unlocked (`Unlocked(ChainLock, 0)`), which is always true.
Ghost parameters named `views` or `w` are maps from segments to their contents.

`dafny verify dfyconfig.toml` checks the whole project.

## Model

| member | source | states |
|---|---|---|
| Documents.WalkIsPermutation | merger.c:148-160 | iterating over the pk table and each of its containers meets every document of a segment exactly once |
| Documents.WalkInOrder | merger.c:151-152 | iterating meets the pks in the order of their first documents, and the documents of one pk in the order in which they were added |
| Documents.IndexedIs | segment.c:57-58 | a document is listed under the names of exactly those of its fields that are indexable |
| Docids.Generator.Incr | docid.c:8-15 | hands out the counter and increments it with 32-bit wrap-around |
| Docids.Append | docid.c:50-55 | a chain of doubling buckets refines a sequence: append adds one document at its end and keeps all buckets but the last full |
| Docids.Reserve | docid.c:25-42 | a bucket of twice the size is linked exactly when the last one is full, and the contents stay |
| Docids.Foreach | docid.h:45-52 | the two nested loops enumerate exactly the contents, in order |
| Docids.Next | docid.h:74-87 | the iterator yields the contents one by one whatever the bucket boundaries, then null |
| Docids.Container.Reset | docid.h:62-65 | a reset container is empty |
| Docids.Container.CopyFrom | docid.h:67-72 | copying appends the whole contents of the other container in order |
| Docids.BucketGeometry | docid.c:17-42 | bucket k has 8*2^k slots and starts after 8*(2^k - 1) of them |
| Docids.ChainIsLogarithmic | docid.c:25-48 | the number of buckets is logarithmic in the number of documents and the allocation size at most that number plus 8 |
| Bitmaps.Bitmap.Reserve | bitmap.h:37-45 | growing changes no bit and gives exactly the aligned length |
| Bitmaps.Bitmap.Set | bitmap.h:47-50 | adds one number to the finite set that the bits are, growing only as far as that number needs |
| Bitmaps.Bitmap.Unset | bitmap.h:52-54 | removes one number from the set and never grows the buffer |
| Bitmaps.Bitmap.Get | bitmap.h:56-57 | is membership in the set, for numbers beyond the buffer too |
| Bitmaps.AlignIsMask | bitmap.h:33 | aligning clears the low bits of n + 127, and the result is the least multiple of 128 that is not below n |
| Bitmaps.DigAndMod | bitmap.h:34-35 | the byte index is a shift, the bit index a mask, and together they are quotient and remainder by 8 |
| Engine.BitmapInBounds | bitmap.h:37-50 | in every valid engine the bitmap of every segment stays within 12544 bytes |
| Intersect.LinearIntersect | intersect.c:4-31 | terminates on any two lists; when their ids are increasing, appends exactly the common documents that are not deleted, in order, whatever the bucket boundaries |
| Intersect.WalkIsCommon | intersect.c:12-30 | the walk of two iterators computes the sorted intersection without the deleted ids |
| Intersect.CommonElems | intersect.c:12-30 | what the sorted intersection contains, both directions |
| Intersect.SeekIntersect | intersect.c:33-65 | the loop over two alternating buffers computes the fold of all intersections; when it is not empty, total is its full size and its first documents are copied out, otherwise neither changes |
| Intersect.FoldedIsSeek | intersect.c:45-53 | on lists with increasing ids, what the loop computes is the fold of the sorted intersections |
| Intersect.SeekIs | intersect.c:45-53 | the fold is increasing and made of documents of the first list |
| Intersect.FoldedStaysEmpty | intersect.c:49-51 | leaving the loop at an empty intersection loses nothing |
| LookupSpec.SeekIsMatches | segment.c:135-165 | for two terms or more, the fold over the posting lists is the naive scan: the documents that are not deleted and have every term as an indexable field, in id order |
| LookupSpec.SoughtIsMatches | segment.c:135-165 | by the ids that the segment gave them, what a query for two terms or more seeks is exactly the naive scan, also when a term is missing |
| LookupSpec.MissingTerm | segment.c:143-153 | when a term has no documents, nothing matches |
| Segments.AddToTerms | segment.c:56-62 | after the loop over the fields, each posting list holds exactly the documents with that indexable field in insertion order, with its own counter, and the term counter is the number of terms |
| Segments.AddToPk | segment.c:63-64 | each pk container holds exactly the documents with that pk, and the table keeps the order of first occurrence |
| Segments.Segment.AddDocument | segment.c:49-67 | numbers the document in place; -1 exactly when it has pk 0 or no fields, and otherwise it is appended to the contents; both tables describe the new contents |
| Segments.Segment.RemoveDocument | segment.c:69-87 | marks exactly the ids that the documents with the pk carry now; the counter of deletions stays the number of one bits; -1 when the pk is unknown |
| Segments.Segment.Lookup | segment.c:89-173 | appends exactly what the specification finds under the limit, by whatever ids the documents carry, with the total as the code assigns it on each path |
| Segments.CollectLive | segment.c:114-131 | without terms: the first live documents in the order of the pk table |
| Segments.Query | segment.c:132-170 | with terms: nothing when a term is missing, a prefix of the posting list for one term, the first matches for several |
| Answers.FoundIsTake | segment.c:89-173 | a limited query finds the first of what an unlimited one would find, whatever ids the documents carry |
| Answers.AllDeleted | segment.c:101-103 | when as many ids are deleted as there are documents, none is live: the short cut for such a segment loses nothing |
| Answers.OneTermHits | segment.c:154-161 | a query for one term finds exactly the documents that have it, deleted ones included, none twice and in the order of their ids, unless all of the segment is deleted |
| Answers.TotalCases | segment.c:95-165 | the total of a query, case by case: unassigned when nothing is looked at or several terms have nothing in common, 0 for a term without documents, otherwise the number of what there is to find |
| Answers.LiveCount | segment.c:101-119 | documents less deletions is the number of live documents |
| Answers.TotalIsLive | segment.c:114-119 | the total of a query without terms is the number of live documents, which is what there is to find |
| Answers.HitsAre | segment.c:89-173 | except for one single term, a query finds exactly the live documents that have all terms, none twice |
| Answers.AllAreLive | engine.c:152-187 | whenever no replacement is pending, the listed segments together answer with exactly the live documents that match, none twice |
| Answers.TotalIsExact | engine.c:162-178 | the total of a lookup is the number of all hits in the segments it visits if and only if the totals added again by segments that leave the variable alone come to nothing |
| Answers.LookupTotal | engine.c:162-185 | spelled out: a lookup visits one segment at least, goes on only while there is not enough, and its total counts the hits of just those segments if and only if nothing stale is added |
| Answers.TotalOfNew | engine.c:162-178 | in a new engine every lookup reports as total what memory held, and finds nothing |
| Answers.LookupAnswers | engine.c:152-187 | in stages 0 and 6, and in stage 1 until documents are moved, a lookup answers from the map pk to document: no document twice, all matches when they fit the limit and otherwise as many as the limit says |
| Answers.OneTermAll | engine.c:163-185 | over all listed segments, a lookup for one term finds exactly the documents that have it in segments that are not fully deleted, none twice |
| Answers.OneTermAnswers | engine.c:152-187 | a lookup for one term answers from the map if and only if no deleted document with the term is in a listed segment in which anything is live |
| Answers.RunAnswers | engine.c:44-59 | the same after any run of adds, removals and merge steps without a harmful step, for the map that the adds and removals alone have built |
| Submissions.FirstInFirstOut | engine.c:48-50 | over any run, what was queued and what was accepted is what was run, followed by what is still queued: nothing is lost, repeated or overtaken |
| Submissions.MapIsEffects | engine.c:48-55 | the map after any run is the effect of the tasks it has run, one after the other |
| Submissions.DrainedAnswers | engine.c:83-117 | once all accepted tasks have been run, without a harmful step, lookups answer from the map that the accepted submissions build in the order in which they were made |
| Store.RemoveFromAll | engine.c:128-131 | the loop over the segments removes the pk from each listed segment and from no other |
| Merge.GetSegments | merger.c:169-198 | the loop over the segment list selects exactly what the protocol selects, without dividing by zero |
| Merge.MigrateSegment | merger.c:142-162 | although ids are overwritten in the loop, every document goes by its old id: the live ones into the new segment, renumbered in the order of the walk, the others to the list of the dead |
| Merge.MigrateOne | merger.c:153-159 | one document goes to exactly one of the two sides |
| Engine.Engine.constructor | engine.c:20-35 | a new engine is in the initial state of the protocol |
| Engine.Engine.AddDocument | engine.c:83-101 | -1 exactly for a document with pk 0 or no fields, -2 for a full queue, otherwise 0 and the task is the last one in the queue; the invariant lasts if the document is handed over only once |
| Engine.Engine.RemoveDocument | engine.c:103-117 | -2 for a queue of 128 tasks, otherwise 0 and the task is the last one in the queue |
| Engine.Engine.ProcessInput | engine.c:48-55 | the first task of the queue, whichever it is, leaves it and takes the protocol's step, which keeps the invariant |
| Engine.Engine.AddHandler | engine.c:119-136 | rotates a full active segment, removes the pk from every listed segment, then adds |
| Engine.Engine.RemoveHandler | engine.c:138-150 | removes the pk from every listed segment and records it while a merge is under way |
| Engine.Engine.Check | merger.c:35-47 | takes the protocol's step |
| Engine.Engine.Migrate | merger.c:49-66 | takes the protocol's two steps, the move into a newly allocated segment and the queueing of the replacement |
| Engine.MigratedPostings | segment.c:49-67 | after a migration, the posting list of each term in the new segment is exactly the survivors that have the term, in strictly increasing ids and none twice |
| Engine.Engine.ReplaceHandler | merger.c:68-79 | takes the protocol's step: the new segment replaces the old ones, unless it is empty |
| Engine.Engine.Release | merger.c:81-109 | a segment is let go exactly when its counter of lookups is zero; takes the protocol's step when both are, none when neither is; the engine stays valid if and only if the counters agree, and otherwise holds a null pointer that the next call follows |
| Engine.Engine.RequestRedelete | merger.c:121-131 | takes the protocol's step |
| Engine.Engine.RedeleteHandler | merger.c:111-119 | takes the protocol's step: every recorded removal is repeated on the new segment |
| Engine.Engine.Reset | merger.c:133-140 | takes the protocol's step, which leaves the recorded removals alone |
| Engine.Engine.Lookup | engine.c:152-187 | in every stage, with a shrinking limit over the segments, returns exactly the first of all that the segments answer, and as total the 32-bit sum over the visited segments, garbage included; -1 for a limit that is too large |
| ProtocolSafety.SelectionIsExact | merger.c:169-198 | selection succeeds exactly when a sealed segment other than the first sealed one is fully deleted; it takes the last such one and the previous candidate, two distinct sealed segments |
| ProtocolSafety.RatiosAreSpent | merger.c:11-12 | ratios are 0 or 1, 1 exactly for a segment without live documents, and no listed sealed segment is empty |
| ProtocolSafety.MigrationPartitions | merger.c:49-58 | moved and dead documents split those of the two old segments, by the ids and deletions from before; the moved ones fit into one segment |
| ProtocolSafety.MigrationRenumbers | merger.c:142-162 | the moved documents get the ids 1, 2, ... in their order and no other id changes |
| ProtocolSafety.HandleAddLive | engine.c:119-136 | what an add leaves live: everything with another pk, the new document, and what is out of reach in a segment not listed yet |
| ProtocolSafety.HandleRemoveCore | engine.c:138-150 | a removal takes exactly its pk out of the visible documents, in every stage |
| ProtocolSafety.HandleReplaceCore | merger.c:68-79 | putting the new segment in place changes nothing visible |
| ProtocolSafety.HandleRedeleteCore | merger.c:111-119 | repeating the removals changes nothing visible: the mask becomes real |
| ProtocolRuns.StepInv | merger.c:35-140 | every step keeps the invariant: segment list, sizes, ids, ownership of documents, stage data and queue |
| ProtocolRuns.StepExact | engine.c:119-150 | after a step the visible documents are those of the map pk to document if and only if the step is not harmful |
| ProtocolRuns.MergeIsInvisible | merger.c:35-140 | over a whole run, in every state: exactly the map if and only if no step is harmful |
| ProtocolRuns.CycleIsInvisible | merger.c:35-140 | from a state with no removal recorded, through a whole merge with its reset and on until the next migration, only adds between the migration and the replacement can do harm |
| ProtocolRuns.VisibleByStage | merger.c:49-140 | what is visible in each stage: the listed segments, from the migration on the new one instead of the old two less the recorded pks, in stages 3 to 5 the list less what the new segment still has of them |
| ProtocolRuns.OnePerPk | engine.c:127-132 | after every run without a harmful step at most one visible document per pk; at stage 0, at most one live document in all listed segments together |
| ProtocolRuns.OneActive | engine.c:121-126 | in every reachable state exactly one listed segment is active, the one that is written to |
| ProtocolRuns.IdsInBounds | engine.c:121-132 | in every reachable state no segment exceeds the limit, ids are exactly 1 to the number of documents, and the generator does not wrap around |
| ProtocolRuns.QueueMatchesStage | merger.c:49-131 | in every reachable state the replace task is queued exactly in stage 2 and the redelete task exactly in stage 5; the queue exceeds its limit by at most that one task |
| ProtocolRuns.FreedIsUnreachable | merger.c:94-100 | no document of a listed segment has been freed |
| Migration.MoveAs | merger.c:142-162 | every part of a migration, and every task and call in between, is one step of the protocol or none: the step of the migration is the copy of the second bitmap |
| Migration.RunRefines | merger.c:49-66 | every run in which documents are moved one by one, with any tasks in between, is a run of the protocol |
| Migration.Undisturbed | merger.c:54-59 | left alone, a migration that has begun comes to its end and stands for exactly one step of the protocol |
| Migration.SeenIsVisible | merger.c:142-162 | at every moment of a migration, what is moved, what will be, and the other segments together are what the protocol shows |
| Migration.HarmsSame | engine.c:119-150 | an add does harm from the copy of the second bitmap on exactly if it has the pk of a document that is moved and not recorded |
| Migration.MigrationIsInvisible | merger.c:49-162 | from a new engine on, in every state and in the middle of migrations, too: exactly the map if and only if no move does harm |
| HarmfulRuns.AddIsSeen | engine.c:119-136 | for every limit, a run with an add before the replacement after which, back at stage 0, a lookup finds two documents with one pk |
| HarmfulRuns.RemovalIsSeen | merger.c:133-140 | for every limit, a run with a removal left over from one merge after which, back at stage 0, a document of the map is missing from a lookup |
| Queues.Queue.Enqueue | queue.c:17-35 | turns an entry down, with -1, exactly when it is not forced and the queue is limited and full; otherwise appends it and returns the new size |
| Queues.Queue.Dequeue | queue.c:37-50 | takes the first entry and returns the size before, 0 when there is none; a stale tail is harmless |
| Queues.FirstInFirstOut | queue.c:17-50 | over any run, what was there and what was accepted is what was handed out followed by what is still there |
| Queues.LimitKept | queue.c:20-25 | only forced entries take a limited queue above its limit, one each |
| ThreadPool.StepInv | threadpool.c:15-68 | every step of any worker, pusher or of the owner keeps the wake-up invariant |
| ThreadPool.NoLostWakeUp | threadpool.c:15-68 | before exit, a waiting task always finds a draining worker, an awake worker with the signal set, or a pusher about to signal |
| ThreadPool.StepExact | queue.c:37-50 | one step keeps every accepted task around exactly once if and only if it does not read a size that has grown since the queue was found empty |
| ThreadPool.RunExact | threadpool.c:49-68 | the same over whole runs |
| ThreadPool.PoolExact | threadpool.c:70-84 | so for every pool that starts with any threads and an empty queue |
| ThreadPool.StaleHappens | queue.c:48-49 | a run of one worker and one pusher in which a task is run twice |
| ThreadPool.PoolInOrder | threadpool.c:43-68 | the tasks handed out, followed by those still queued, are the accepted pushes in their order; a push is accepted when fewer than twice as many tasks as threads are waiting |
| ThreadPool.SignalsLetThrough | threadpool.c:29-36 | no more workers get past the wait than signals were given |
| ThreadPool.ExitEnds | threadpool.c:53-68 | after exit every step of a worker leaves less to do, so that without further pushes and signals all workers are soon asleep or gone |
| ThreadPool.BroadcastReleases | threadpool.c:86-91 | after exit a broadcast lets any one sleeping worker out, and the count of threads alive follows |
| ThreadPool.NobodyLeft | threadpool.c:86-99 | when the count of threads alive is zero, no worker can take a step |
| ConcurrentReader.StepInv | docid.c:25-55 | link, write, publish and count in any interleaving with the reads of any number of readers keep the invariant |
| ConcurrentReader.AppendEnds | docid.c:50-55 | four steps of the writer make an append: its document is published |
| ConcurrentReader.AppendsAdd | docid.c:50-55 | from one rest of the writer to another, whatever readers do in between, exactly the documents whose appends have begun are added, in order, and the total counts them |
| ConcurrentReader.ListIsRead | docid.h:48-52 | a walk that starts when the writer rests and has ended has yielded everything appended since the list was made |
| ConcurrentReader.ReadAhead | docid.h:48-52 | every step of a reader brings it closer to the end of the list as it is, so that it ends when nothing more is appended |
| ConcurrentReader.ReaderSeesPrefix | docid.h:48-52 | what a reader has yielded is always a prefix of the list as it is and will be, and a walk that has ended has yielded at least what was published when it started |
| ConcurrentReader.ListSeesPrefix | docid.h:48-52 | so for every list from its beginning, whatever its writer and other readers have done before |
| ConcurrentReader.NeverStuck | docid.h:48-52 | neither writer nor reader ever waits for the other |
| UtHash.MaskIsSlot | lib/uthash.h:441-444 | masking with a power of two less one is the remainder |
| UtHash.SplitsInTwo | lib/uthash.h:943-963 | doubling sends the items of bucket b to b or b + n |
| UtHash.AddToBkt | lib/uthash.h:860-869 | puts an item in front of a chain, all links right |
| UtHash.DelInBkt | lib/uthash.h:882-895 | takes an item out of a chain, all links right |
| UtHash.FindInBkt | lib/uthash.h:838-857 | finds an item of the chain with the key, or there is none |
| UtHash.ExpandBuckets | lib/uthash.h:926-963 | every item lands in its bucket among twice as many; the ideal length is items by buckets rounded up; limits and the count of items beyond the ideal are as specified |
| UtHash.ExcessIsSurplus | lib/uthash.h:949-954 | the items counted one by one while moving are the surplus of all chains over the ideal length |
| UtHash.MultCovers | lib/uthash.h:949-954 | the stretched limit of a bucket covers its chain and is not larger than that calls for |
| UtHash.IdealIs | lib/uthash.h:939-941 | shift and mask compute the quotient rounded up |
| UtHash.Table.Expand | lib/uthash.h:926-976 | doubling keeps the table, leaves the application order alone, counts the surplus of the chains, stretches limits as far as the chains call for, and inhibits itself after two ineffective doublings |
| UtHash.Table.Add | lib/uthash.h:407-426 | the item comes last in the application order and into its bucket; a first item makes 32 buckets, and later the buckets double exactly when the chain of the item has reached ten times its stretched limit and doubling is not inhibited |
| UtHash.Table.Delete | lib/uthash.h:461-488 | the item leaves the list and its bucket; deleting the last one drops the buckets |
| UtHash.Table.Find | lib/uthash.h:164-184 | finds an item with the key or there is none; with unique keys, what a linear scan of the list finds |
| UtHash.Table.Fsck | lib/uthash.h:526-573 | on any table that can be walked forwards, the written integrity check succeeds if and only if all backward links and counters are right |
| UtHash.Table.ValidIsChecked | lib/uthash.h:526-573 | on every table that the operations leave behind, the check succeeds |
| UtString.BuildTable | lib/utstring.h:171-207 | the table holds at i the longest border of the first i characters that is followed by another character, or -1 |
| UtString.FindWithTable | lib/utstring.h:251-280 | returns the leftmost occurrence or -1, early cut-off included |
| UtString.BuildTableR | lib/utstring.h:211-247 | the table of the search from the right is the mirror image of the table of the reversed needle |
| UtString.FindWithTableR | lib/utstring.h:284-314 | returns the rightmost occurrence or -1 |
| UtString.OccursMirror | lib/utstring.h:284-314 | an occurrence is one in the reversed strings, counted from the other end |
| UtString.RightmostIsLeftmost | lib/utstring.h:284-314 | the rightmost occurrence is the leftmost one of the reversed strings |
| UtString.Find | lib/utstring.h:318-360 | searches from a start position on, counted from the end when negative, whatever memory holds there |
| UtString.FindR | lib/utstring.h:364-402 | searches backwards from a start position |
| UtString.FindInside | lib/utstring.h:318-360 | from a start inside the text, what is returned is the leftmost occurrence at the start or later, as a position in the whole text |
| UtString.FindRInside | lib/utstring.h:364-402 | from a start inside the text, what is returned is the rightmost of the occurrences that end there or before |

## Left out

- Sockets, event loop, packets, protocol buffers, options, signals, debug output: plumbing around the index.
- Memory allocation, failure to allocate, leaks: ownership of documents is modelled (`Owned` in `Protocol`), the allocator is not.
- Locks: one task, one merge procedure, one entry point and one lookup are atomic steps, but for the migration, which `Migration` takes apart. The write of a merge stage and the enqueue before it are one step. Weak memory is not modelled.
- Engine.Engine.Migrate: changes memory in one go; what other threads do meanwhile is modelled on values, in `Migration`.
- Engine.Engine.Release: takes the two counters of lookups as given; that lookups in flight raise and lower them is not modelled.
- Engine.Engine.Lookup: the answer lists the documents themselves where the code appends clones. From the migration to the replacement the old segments are still listed while their documents carry the ids of the new one: what the code then returns is modelled, but not related to the map.
- Engine.Engine.ProcessInput: takes a task atomically; the late read of the size in the dequeue is modelled in `ThreadPool`, for many workers, and not once more for the one input thread, where the task that would be run again has been freed, so that the code does not say what happens then.
- Engine.Engine.AddDocument: keeps the invariant only if the document is handed over once and its field names differ, which is what callers and `ts_document_field_add` see to.
- Segments.Segment.Lookup: a query for one term returns a prefix of the posting list, deleted documents included, as the code does; a total that is not assigned is modelled as the value that was there before.
- Segment tables in a segment: entries are values in maps with a sequence for the order of the pk table, and containers are values embedded in them (`Chain`); the pointers of the hash table are modelled in `UtHash`, those of buckets as the order of a sequence.
- The list of segments and the queue inside the engine are sequences; the linked queue is modelled in `Queues`.
- Hash functions: any function from keys to numbers will do; an item carries its hash value from the start. In-order insertion, sorting and selection of `uthash.h` are not modelled.
- UtHash.Table.Add: numbers of buckets and items are unbounded, so that 32-bit wrap-around is not modelled.
- UtString.FindWithTable: lengths are unbounded, so that the casts to `int` of lengths of 2^31 or more are not modelled.
- UtString.Find: a start position outside the text searches what memory holds around it, taken as readable; likewise backwards.
- Queues.Queue.Dequeue: is one step; the read of the size after the lock has been released is modelled in `ThreadPool`.
- ConcurrentReader.ReaderSeesPrefix: is about the foreach loops; the iterator is modelled only on a list at rest, because it reads the offset before the link.
- Liveness: that a scheduler lets everybody take steps is not modelled; what steps lead to is (`ExitEnds`, `ReadAhead`, `Undisturbed`).
