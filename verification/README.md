# vrc-video-proxy: the download engine, modelled and proved

The server fetches a video from an upstream into a temp file while players already stream from it.
Where the upstream supports ranges the file is *sparse*: one sequential filler works upward from the
lowest gap, any number of seeks start fetches of their own, and readers wait for the bytes they need.
Otherwise one sequential copy appends to the file and readers tail it. A finished file is renamed into
a disk cache that evicts its oldest entries. This project models that engine and proves what it keeps
under every schedule, every pattern of short reads, failures and cancellations.

## How the model is laid out

| file | models |
|---|---|
| Intervals.dfy | `intervalSet` as a class over a list of ranges, against the plain set of offsets |
| SparseSpec.dfy | the shared state of a sparse file and its critical sections, on values |
| SparseFiles.dfy | `SparseFile` as a class, each method proved against SparseSpec |
| FillProtocol.dfy | one sparse job as a state machine: filler, seek fills, fill steps, hand-over |
| FillInvariant.dfy | the invariant over all interleavings |
| FillTheorems.dfy | no orphaned byte, publication safety, write accounting, no write after completion |
| FillOutcome.dfy | exactly when a job succeeds, what becomes of it, how each fetch ended |
| FetchBound.dfy | how many fetches the filler makes, and what they achieve |
| FillSchedules.dfy | runs in which the filler misses its wake-up and an offset is written twice; jobs gone quiet |
| FillSlots.dfy | all jobs of a manager sharing the fetch semaphore |
| FillWakeups.dfy | exactly when a job can still wake its sleepers, slots shared |
| WaitByte.dfy | readers blocked in `waitByte`, with the mutex explicit, in product with the job |
| Sleepers.dfy | exactly when a reader's sleep can end, and a reader left behind |
| Transfers.dfy | the loops of `fillRange` and `serveSparse` |
| RangeHeaders.dfy | Range and Content-Range texts |
| SeqTail.dfy | `copyTee`, `tailReader` and `serveLive` |
| Registry.dfy | registry, cache and the checks of `liveHandler` under any interleaving |
| Eviction.dfy | `finalize`, the directory scan, eviction |
| Dash.dfy | DASH timeline expansion and the HLS target duration |

A step of FillProtocol is one critical section, one piece of a disk write (a `WriteAt` reaches the disk
in any number of pieces and may fail after any of them), or one local decision of a goroutine. Its
critical sections are the values `SparseSpec.Op`, applied by `SparseSpec.After`; the methods of
`SparseFiles.SparseFile` are proved to perform exactly these, and its reservations are exactly what the
class hands out, which `ReservationUnique` and `LowestUnique` show to be determined. In the methods of
Transfers and SeqTail the other goroutines appear as calls of `Interference`, whose contract is all a
caller knows. Those contracts are proved of every run: for the sparse file by `RunEvolves`,
`PublishedIsUpstream` and `OwnRangeKept` of FillTheorems, for the sequential job by `SeqTail.RunGrows`,
whose steps are exactly those `CopyTee`, `Finish` and `Run` are proved to take.

Every fill, dead or alive, stays in the state's list of fills, so counts over a run are counts over
that list. `hits` and `lost` count, per offset, the disk writes and those made by a `WriteAt` that
then failed.

## Assumptions

- A reader opened for a range returns the upstream's bytes from its start on, in pieces of any size,
  perhaps short, perhaps too long (the contract of `rangeFetchFunc`, server/jobs.go:40-42).
  `httpFetchRange` also accepts a 200 reply to a ranged request (server/jobs.go:704), so this alignment
  is assumed and not proved.
- `size + chunk` fits a signed 64-bit integer. The code adds the two without a check; sums are written
  with the wrap-around of 64-bit addition (`Add64`) and the bound is part of `SparseFile.Valid`.
- Results of I/O, contexts and the network are parameters or arbitrary choices. Waits are followed for
  any given number of wake-ups, failed reads of the temp file for any given number of failures.
- White space is trimmed as `strings.TrimSpace` does on a sequence of characters; malformed UTF-8 is
  not modelled.

## What the proofs show that the comments do not

- `runSparse` looks for work and then sleeps in two separate critical sections. `FillerMissesWakeUp`
  gives a run after which the filler sleeps although every byte is present, nothing is in flight and no
  fill is live: only a context or a reader going away would wake it. `FillerWokenIff` gives the exact
  condition, with the fetch slots shared by all jobs: fills can wake a sleeping filler if and only if
  something of its own job is in flight. Those fills may have to include other jobs', which give back
  slots the job's own fills wait for. `NapStrands` states it before the sleep, where it can be checked.
- For the same reason one failed seek fetch can leave a reader waiting for a byte that nobody fetches,
  in an unfinished file with every context live: `ReaderLeftBehind`. `SleepEndsIff` gives the exact
  condition: without a new seek or the end of a context, a reader's sleep can end if and only if
  something is in flight or the filler is neither asleep nor bound to fall asleep.
- `SucceedsIff`: the error for an incomplete file without an ended context (server/jobs.go:338) is
  never returned; and one broken fetch of the filler fails the job even if seeks complete the file.
- An offset can be written to disk twice: `OffsetWrittenTwice` is a run in which a `WriteAt` puts one
  byte of two on disk, fails, and the range is fetched again. `WriteOnceIff` proves of every state of
  every run that no offset was written twice if and only if none that a failed `WriteAt` put on disk
  was written again.
- `parseSingleRange` answers 416 to a last position or a suffix length above 2^63-1, where section
  14.1.2 of RFC 9110 cuts the range to the file: `WholeFileRefused` has two such requests for a file of
  one byte, `LargeNumberRefused` says exactly which ranges are refused although they ask for a byte.
- The comment on `maxConcurrentFills` speaks of a cap per video; the semaphore belongs to the manager
  and is shared by all jobs (server/jobs.go:29-32, server/jobs.go:83, server/jobs.go:427). FillSlots
  models the code.
- `parseSingleRange` answers 416 where section 14.1.1 of RFC 9110 calls a range invalid (last before
  first, text that is no number), and accepts a sign before a number. The model follows the code.
- An entry larger than the whole cache budget evicts itself (`TooLargeEvictsItself`).

## Model

| member | source | states |
|---|---|---|
| Intervals.IntervalSet.Add | server/sparse.go:27-56 | the list stays sorted, non-empty, merged and denotes the union with the range |
| Intervals.IntervalSet.Remove | server/sparse.go:59-77 | the list stays canonical and denotes the difference |
| Intervals.IntervalSet.Covers | server/sparse.go:81-91 | true exactly when every offset of the range is held |
| Intervals.IntervalSet.Missing | server/sparse.go:94-118 | the canonical list of exactly the offsets of the range not held |
| Intervals.IntervalSet.RunEnd | server/sparse.go:121-128 | the first offset at or after `off` that is not held |
| Intervals.IntervalSet.TotalBytes | server/sparse.go:130-136 | the number of offsets held |
| Intervals.CanonicalUnique | server/sparse.go:21-24 | a set of offsets has one canonical list only |
| Intervals.AddOrderIrrelevant | server/sparse.go:26-56 | two sequences of additions of the same ranges end in the same list |
| Intervals.RunInOne | server/sparse.go:79-91 | a run of held offsets lies inside one stored range, which is why `covers` may look at single ranges |
| Intervals.TotalIsCardinality | server/sparse.go:130-136 | the sum of lengths of a canonical list counts each offset once |
| Intervals.HeldPlusMissing | server/sparse.go:93-118 | held and missing bytes of a range add up to its length |
| SparseSpec.ReservationMarksFree | server/sparse.go:193-220 | a reservation takes exactly the free bytes of the clipped range and leaves none of it free |
| SparseSpec.SeekGetsOwnPiece | server/jobs.go:343-354 | a free start offset begins the first reserved piece, so a seek gets a fetch of its own |
| SparseSpec.ReservationUnique | server/sparse.go:195-220 | the reserved pieces are determined by the state and the range |
| SparseSpec.LowestUnique | server/sparse.go:226-238 | the filler's piece is determined by the state |
| SparseSpec.OpEvolves | server/sparse.go:326-344 | every critical section only adds bytes and raises flags, and keeps the first error |
| SparseFiles.SparseFile.constructor | server/sparse.go:155-171 | nothing present or in flight, zeroed data, the default chunk for a chunk that is not positive |
| SparseFiles.SparseFile.Reserve | server/sparse.go:195-220 | sorted disjoint non-empty pieces of at most a chunk, free bytes only, none left out, cut short only where the free run ends; all of them and nothing else marked in flight |
| SparseFiles.SparseFile.ReserveGap | server/sparse.go:210-217 | the middle loop of reserve, although `inflight` changes under it |
| SparseFiles.SparseFile.ReserveSub | server/sparse.go:211-216 | the innermost loop of reserve: a free run cut into chunks |
| SparseFiles.SparseFile.ReserveLowest | server/sparse.go:226-238 | fails exactly when no byte is free, else reserves one piece at the least free byte |
| SparseFiles.SparseFile.ReleaseInflight | server/sparse.go:243-248 | the range leaves `inflight`, all sleepers are woken, nothing else changes |
| SparseFiles.SparseFile.AvailableEnd | server/sparse.go:251-255 | every byte from `off` to the result is present and the result is not |
| SparseFiles.SparseFile.IsComplete | server/sparse.go:302-306 | true exactly when every byte of the file is present |
| SparseFiles.SparseFile.CloseWriter | server/sparse.go:338-344 | the closed flag is raised, all sleepers are woken, nothing else changes |
| SparseFiles.SparseFile.MarkDone | server/sparse.go:327-335 | done is raised, the first error kept, all sleepers woken |
| SparseFiles.SparseFile.WakeAll | server/sparse.go:319-324 | all sleepers are woken, nothing else changes |
| SparseFiles.SparseFile.Publish | server/sparse.go:186-190 | exactly the written range becomes present, and all sleepers are woken |
| SparseFiles.SparseFile.LookAt | server/sparse.go:284-298 | one round of waitByte: byte, then context, then terminal state, else sleep |
| SparseFiles.SparseFile.WaitByte | server/sparse.go:278-299 | a present byte means success; each other answer means the byte absent, and which of: outside the file, the reader's context ended, the file done with that error |
| SparseFiles.SparseFile.WriteAt | server/sparse.go:174-191 | refused exactly if closed, failed exactly if the disk does not take it all; success publishes the whole buffer, failure nothing, and published bytes are the upstream's throughout |
| FillInvariant.StepKeeps | server/jobs.go:280-463 | every step of filler, seeks, fills and contexts keeps the invariant |
| FillInvariant.RunKeeps | server/jobs.go:280-463 | the invariant holds in every state of every run |
| FillInvariant.SeeksKeep | server/jobs.go:345-354 | a whole seek reservation turning into fills in one critical section keeps disjoint ownership |
| FillTheorems.EveryByteAccounted | server/sparse.go:240-248 | each offset is present, or free, or fetched by exactly one live fill, and only one of these |
| FillTheorems.InflightIffLive | server/jobs.go:387-388 | something is in flight exactly while a fill is live |
| FillTheorems.RunEvolves | server/sparse.go:173-191 | along any run bytes are only added and flags only raised |
| FillTheorems.PublishedIsUpstream | server/sparse.go:182-189 | in every state each present offset holds the upstream's byte, writes pending or not |
| FillTheorems.OwnRangeUntouched | server/jobs.go:387-463 | no step of another changes what a live fill has reserved and not published |
| FillTheorems.NoWriteOnceComplete | server/jobs.go:440-454 | once complete no fill, queued or holding a slot, can take a writing step |
| FillTheorems.CompleteIsFinal | server/jobs.go:314-340 | from a complete state no run changes the disk |
| FillTheorems.FinishedFileIsUpstream | server/jobs.go:192-207 | when runSparse returned nil, or the entry was finalized, the file equals the upstream, and keeps to it in every continuation |
| FillTheorems.WritesConserved | server/jobs.go:439-461 | bytes ever written are bytes present, bytes of writes in progress, and bytes of failed writes; on completion the size plus the last |
| FillTheorems.OwnRangeKept | server/jobs.go:387-463 | through any run of the others a live fill's unpublished range stays reserved, absent and, on disk, as it was |
| FillTheorems.WriteOnceIff | server/jobs.go:439-461 | in every state of every run no offset was written twice, if and only if what a failed write had put on disk was not written again |
| FillTheorems.WrittenExactlyOnceIff | server/jobs.go:439-461 | each offset of a finished file written exactly once if and only if no write failed half way |
| FillTheorems.PresentIsPublished | server/sparse.go:130-136 | the bytes present are the sum of what all fills published, none counted twice |
| FillTheorems.ReleasedOnce | server/jobs.go:388-431 | each fill gives back its slot exactly as often as it took it, at most once, and releases its reservation exactly once, on every exit path |
| FillTheorems.SlotHolderOwns | server/jobs.go:426-431 | a fill holding a slot still owns its whole reservation |
| FillOutcome.SucceedsIff | server/jobs.go:326-340 | runSparse returns nil if and only if every byte is present and no fetch of the filler broke; if not, one broke or the job's context ended, so the file is never found incomplete otherwise |
| FillOutcome.EndsAs | server/jobs.go:200-232 | after runSparse has returned the job is finalized once, and ends with its entry placed and no error if and only if runSparse succeeded and the rename worked |
| FillOutcome.CutByJobOnly | server/jobs.go:345-354 | fetches are cut short only by the end of the job's context, not by the filler's own cancellation |
| FillOutcome.EndedAsTold | server/jobs.go:387-463 | each fill answers what made it leave, on every exit path, and leaves for no other reason |
| FillOutcome.NoWriteOnceClosed | server/sparse.go:174-180 | once the writer is closed no write begins; one still running was running before |
| FetchBound.FillerFetchesBounded | server/jobs.go:312-324 | if every fetch delivers its range, the filler makes at most size/chunk + 1 fetches plus one per seek interval |
| FetchBound.LowestEnds | server/sparse.go:226-238 | a filler piece short of a chunk ends at the end of the file or where a seek's interval begins |
| FetchBound.TidyKept | server/jobs.go:312-354 | while fetches deliver, all intervals ever reserved are disjoint and the filler only moves up |
| FetchBound.ProductiveBounded | server/jobs.go:439-461 | whatever fails, at most as many fetches yield a byte as there are bytes |
| FetchBound.FillerFetchShrinksMissing | server/jobs.go:314-324 | a filler fetch that yields a byte strictly shrinks the bytes missing, whatever seeks do meanwhile |
| FillSchedules.QuietStays | server/jobs.go:314-319 | a job with nothing in flight and its filler asleep, bound to be, or gone, changes nothing by itself |
| FillSchedules.FillerMissesWakeUp | server/jobs.go:315-318 | a run that leaves the filler asleep with the file complete and nobody to wake it |
| FillSchedules.OffsetWrittenTwice | server/sparse.go:182-184 | a run in which an offset is written to disk twice |
| FillSlots.SlotsNeverExceeded | server/jobs.go:426-431 | over all jobs together the fills holding a slot are the tokens taken, never more than the capacity |
| FillSlots.JobsKeepInvariant | server/jobs.go:123-147 | every job sharing the semaphore keeps the invariant of a job on its own |
| FillWakeups.LiveFillRouses | server/jobs.go:387-463 | from any live fill, even one queued behind a full semaphore, fills alone can reach a broadcast of its job |
| FillWakeups.FillerRouses | server/jobs.go:312-340 | with nothing in flight the filler itself reaches a broadcast, unless the job is quiet |
| FillWakeups.RousedIff | server/jobs.go:312-340 | a job can by itself come to wake its sleepers if and only if it is not quiet |
| FillWakeups.FillerWokenIff | server/jobs.go:314-319 | fills, slots shared, can wake a sleeping filler if and only if something of its job is in flight |
| FillWakeups.NapStrands | server/jobs.go:315-318 | the same before the sleep: what waitProgress would have to check |
| FillWakeups.CancelRescues | server/jobs.go:289-298 | once the job's context ends and its watcher calls wake, a filler asleep is up again and the job can end |
| WaitByte.WorldKeeps | server/sparse.go:278-335 | the invariant of readers, mutex and job over every trace |
| WaitByte.NoWakeMissed | server/serve.go:241-250 | a reader asleep waits for an absent byte of an unfinished file, and if its context ended a wake is due |
| WaitByte.WaitSucceedsAfterSuccess | server/sparse.go:284-298 | no wait ends in the unexpected-EOF branch; after an error-free job no reader sleeps or gets past its byte check |
| WaitByte.AnswersMean | server/sparse.go:278-299 | what each answer of a wait means, at any time after it was given |
| WaitByte.KeepsOffset | server/sparse.go:278-299 | an answer is for the offset asked for |
| WaitByte.BroadcastWakesAll | server/sparse.go:320-335 | a broadcast leaves no reader asleep, and not the filler |
| Sleepers.SleepEndsIff | server/serve.go:241-250 | a reader's sleep can end without new seeks or ended contexts if and only if something is in flight or the filler is not asleep for good |
| Sleepers.ReaderLeftBehind | server/serve.go:241-250 | a run in which one failed fetch leaves a reader asleep for a free byte, every context live, with nothing to end its sleep |
| RangeHeaders.RangeIsCut | server/serve.go:139-192 | a range in the form of RFC 9110 yields exactly the bytes it asks for cut to the file, if its numbers fit 64 bits and it asks for some; else it is refused |
| RangeHeaders.LargeNumberRefused | server/serve.go:164-187 | exactly the ranges refused although they ask for a byte: a last position or a suffix length above 2^63-1 |
| RangeHeaders.WholeFileRefused | server/serve.go:164-187 | two such requests |
| RangeHeaders.AcceptedExactly | server/serve.go:143-192 | any header is accepted exactly when it carries a range with numbers of 64 bits that picks a byte, then with exactly the bytes picked; refused exactly when it asks for one range otherwise; else ignored |
| RangeHeaders.UpstreamRangeParses | server/jobs.go:692-697 | the header sent upstream parses back to the same inclusive range |
| RangeHeaders.ContentRangeParses | server/jobs.go:711-722 | the Content-Range sent parses back to the size |
| RangeHeaders.ContentRangeReads | server/serve.go:220 | the Content-Range sent reads, digit by digit, as its first position, last position and size, and as nothing else |
| RangeHeaders.TotalExactly | server/jobs.go:711-722 | for any header the total is the number after the last slash, or -1 where there is none |
| RangeHeaders.TrimExactly | server/serve.go:149-158 | trimming takes the white space off both ends and nothing else |
| RangeHeaders.Blanks | server/serve.go:149-158 | which characters are trimmed |
| RangeHeaders.TextsOfTheStandard | server/serve.go:143-192 | examples of RFC 9110, letter for letter |
| RangeHeaders.AcceptedInside | server/serve.go:143-192 | an accepted range lies inside the file and is empty only for an empty file |
| Transfers.FillLoop | server/jobs.go:439-462 | what was copied is published, what was not stays reserved and absent; the answer and the place are those `Answers` allows for the reads and the disk |
| Transfers.FillRange | server/jobs.go:387-463 | on every path the reservation is released, the published part is a prefix, the rest is absent, and the answer is that of the path |
| Transfers.AnswerUnique | server/jobs.go:439-462 | with the writer open, reads and disk determine the answer, the place and how many reads were made |
| Transfers.StreamEnds | server/jobs.go:455-460 | the first read that ends the stream decides: nil at its end, an error at a read error, unless the range was filled before |
| Transfers.StreamLasts | server/jobs.go:440-462 | if no read ends the stream, nil once the range is filled, else cut short |
| Transfers.ServeSparse | server/serve.go:197-312 | status and headers by case, Content-Range read as the range announced; the body is a prefix of that range, all of it on a normal end, and ends early only at a missing byte or with the client gone |
| Transfers.Deliver | server/serve.go:252-311 | at every end the client has exactly the upstream's bytes from `start`; all of them if they were present and it stays; else the next byte is missing |
| Transfers.DeliverOnce | server/serve.go:254-310 | each pass asks for the bytes, and unless it ends the delivery or a read fails sends at least one, and all of the run that was present |
| Transfers.AwaitRun | server/serve.go:255-289 | exactly the free bytes of the next chunk are reserved, so `pos` is not free; a wait that succeeds is followed by a non-empty present run |
| Transfers.SendRun | server/serve.go:290-309 | what is sent is the upstream's bytes of the available run |
| SeqTail.SeqJob.CopyTee | server/jobs.go:494-521 | what readers see happen is a run of legal writes and counts; the first read to end the stream, or to break the disk, decides the answer |
| SeqTail.CopiedUnique | server/jobs.go:494-521 | reads and disk determine the answer |
| SeqTail.CopyEnds | server/jobs.go:514-519 | a stream that ends is copied, one that breaks is not |
| SeqTail.RunGrows | server/jobs.go:494-521 | whatever legal steps the job takes, readers see a sane state that has grown |
| SeqTail.PassedSane | server/jobs.go:494-521 | every state passed on the way is sane and grows into each later one |
| SeqTail.SeqJob.Append | server/jobs.go:506-508 | a write, whole or partial, keeps the file a prefix of the stream |
| SeqTail.SeqJob.Count | server/jobs.go:509-512 | the count follows the file and never passes it |
| SeqTail.SeqJob.Finish | server/jobs.go:212-220 | termination is recorded; without error the file is whole |
| SeqTail.SeqJob.Run | server/jobs.go:247-274 | the job ends with the copy's error, or else with what followed it; without error it has the whole stream |
| SeqTail.TailReader.Wait | server/jobs.go:612-631 | more to read, or the job's own end, or still blocked, each with what it means |
| SeqTail.TailReader.Read | server/jobs.go:601-633 | the next bytes of the stream, at once if the file has any; re-reads at most once after a wait; end-of-file only after the whole stream of a successful job; refuses with the job's error only |
| SeqTail.ServeLive | server/serve.go:82-95 | the client holds a prefix of the stream, all of it when the copy ends well, as it does once the job has ended well and all is calm |
| Registry.RunKeeps | server/jobs.go:123-232 | the invariant of registry, cache and requests over every run |
| Registry.OneLiveJobPerId | server/jobs.go:123-147 | an id has at most one job that has not left, and the registry finds it |
| Registry.StartRegisters | server/jobs.go:123-147 | after startJob the id has one registered job: a new one about to probe, or the one there was, untouched |
| Registry.DeletesOwnEntry | server/jobs.go:222-224 | finishJob removes its own entry and no other |
| Registry.FiledBeforeDeleted | server/jobs.go:202-207 | when a job is filed it is still registered, and cached unless evicted at once |
| Registry.KnownKept | server/jobs.go:157-232 | an id being downloaded or cached stays so through every step unless its job fails or it is evicted |
| Registry.NotFoundExplained | server/handler.go:297-312 | a 404 means, in the history of the run, that the id was unknown on arrival, or failed since, or was evicted since |
| Registry.CachedIffFiled | server/cache.go:108-122 | an id is cached if and only if a job of it was filed with its rename working, and it has not been evicted since |
| Registry.EndsWellIffFiled | server/jobs.go:192-232 | a job ends well if and only if it was filed and the rename worked |
| Registry.History | server/handler.go:297-312 | the flags of a request are what was so when it came and what has happened since |
| Registry.AnswerAfterJob | server/handler.go:314-343 | a request that found a job and stays is routed to it if its probe succeeds, answered 502 if not, unless the id was cached meanwhile; served from the cache only if the file was there |
| Registry.UnheardIs404 | server/handler.go:297-312 | a request for an id neither registered nor cached is answered 404 |
| Registry.RepliesMatchProbe | server/handler.go:322-343 | a 502 means a job of that id whose probe failed, a routed request one whose probe succeeded |
| Eviction.Cache.Scan | server/cache.go:140-164 | exactly the readable finished entries, once each, and their total |
| Eviction.Cache.SortByMtime | server/cache.go:174-176 | some ascending arrangement of the same entries |
| Eviction.Cache.Evict | server/cache.go:168-187 | of the sorted listing, the directory loses exactly the victims; the running total is the scanned total less theirs |
| Eviction.Cache.Finalize | server/cache.go:108-122 | an error leaves the directory alone; else the entry is placed and the directory loses exactly the victims; what is left is within budget or cannot be removed, and nothing newer went before it |
| Eviction.VictimsInOrder | server/cache.go:178-186 | removals go in order of modification time and skip what cannot be removed |
| Eviction.RemovedOnlyOverBudget | server/cache.go:179-181 | each removal happened while over budget |
| Eviction.WithinBudgetOrAllTried | server/cache.go:178-186 | at the end within budget, or every entry removed or failed to be |
| Eviction.ShortestPrefix | server/cache.go:178-186 | the victims are the removable entries of the shortest sufficient prefix of the order, all of it where nothing fails |
| Eviction.EvictionTrims | server/cache.go:168-187 | only removable entries go, none newer than a removable one that stays, and every listing of the rest is within budget or stuck |
| Eviction.PlacedIsEntry | server/cache.go:73-78 | the placed file is a finished entry under the name its id is looked up by |
| Eviction.Cache.RemoveInOrder | server/cache.go:178-186 | the loop removes exactly the victims and keeps the running total |
| Eviction.TotalIsWhatRemains | server/cache.go:182-185 | after each removal the running total is the size of the entries that the directory still lists |
| Eviction.TooLargeEvictsItself | server/cache.go:106-122 | an entry above the whole budget is evicted however recent, whatever other removals fail, exactly if its own removal works |
| Dash.TimelineSegments | server/dash.go:77-96 | the list is the closed-form expansion: segment q of entry i has its number, time and duration modulo 2^64 |
| Dash.Repeat | server/dash.go:89-93 | the inner loop: one entry repeated 1 + max(r, 0) times |
| Dash.NumberedConsecutively | server/dash.go:79-92 | segments are numbered consecutively from the start number |
| Dash.RunningSum | server/dash.go:80-91 | a segment starts where the one before ends, the first at 0, unless its entry states a time |
| Dash.HowMany | server/dash.go:84-93 | there is a segment for each entry and one more for each positive repeat |
| Dash.SecondsAreTicks | server/dash.go:143-147 | a duration in seconds is its ticks over the timescale |
| Dash.DashToHls | server/dash.go:129-164 | no segments is the error case; the media sequence is the first segment's number; the target is the least whole second no segment exceeds |
| Dash.RoundedWithinTarget | server/dash.go:143-162 | every duration rounded to milliseconds, or to seconds, is at most the target (section 4.3.3.1 of RFC 8216) |

## Left out

- `runSparse`, `run`, `startJob` and `finishJob` are steps of state machines, not methods with loops: what they promise is about interleavings.
- The case `size == 0` of `runSparse`: a job is sparse only for a positive size (server/jobs.go:178, server/jobs.go:282).
- Dafny's three methods for the nested loops of `reserve` are one function in the source.
- SparseFiles.SparseFile.CloseWriter: closing the descriptor itself is not modelled.
- Liveness: that a woken goroutine ever runs, or that a fetch ever returns.
- SparseFiles.SparseFile.WaitByte: follows a wait for a given number of wake-ups; that a wake-up comes is not claimed.
- Transfers.ServeSparse: the temp file may be gone before it is opened (it is opened after the headers); then nothing is sent, as in the source.
- Registry.NotFoundExplained: which file a cached reply serves is not modelled; a file evicted between the check and the open is answered 404 and counts as evicted.
- SeqTail.ServeLive: the Content-Length header and the HEAD answer of the sequential mode are not modelled.
- Dash.DashToHls: durations are exact rationals; the source divides and rounds in floating point.
- `expandDASHTemplate`, XML, BaseURL and representation choice: regular expressions and library parsing in front of the arithmetic.
- HTTP, sockets, probes, SSRF checks, DNS: environment actions with the assumptions above.
- yt-dlp, ffmpeg and ffprobe: a remux is a sequential stream whose exit status may fail it.
- Tokens, ids, in-memory cache, configuration, logging, timers: wrappers over libraries; ids are opaque keys, time-outs are cancel steps.
- HLS playlist rewriting: line-by-line text substitution.
