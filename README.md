# Slideshow video generator: a verified model of its core

The system turns a set of property photos into short slideshow videos, one for
each social platform the user enables (TikTok, Instagram, Facebook, YouTube).
Each platform gets one of four frame formats. This project models the core of
that system in Dafny and proves properties of the model.

- **The orchestrator** (`api/app.ts`) is an HTTP service. It keeps a job
  registry, a FIFO queue of job ids and a single "a renderer is running"
  slot. It normalises submissions and starts one renderer child process at a
  time. It reads progress markers from the child's stderr and the result
  record from the last lines of its stdout, then packages the outputs. It also
  handles cancellation, downloads, deletions and the job list.
- **The renderer** (`api/generator/generator.py`) maps enabled platforms to
  formats. It renders each distinct format once, then copies the file for the
  other platforms that share the format. It tries a list of encoders in
  order, places and wraps the overlay text, and prints one JSON result record.
- **The client** keeps the followed job in a small store
  (`src/stores/generationStore.ts`) and translates interface strings
  (`src/i18n/LanguageContext.tsx`). The generation page
  (`src/pages/Generate.tsx`) has list helpers for the chosen images, a text
  preview, a start guard and a font-size input.

Files:

- `wrappers.dfy`: `Option` and `Result`.
- `strings.dfy`: the string operations the three programs share:
  - JavaScript and Python whitespace, `trim`, `split()` into words;
  - `split`/`join` on one character, `indexOf`, Python's `replace`;
  - decimal printing and parsing;
  - pairing words two to a line;
  - clamping.
- `protocol.dfy`: what passes between orchestrator and renderer: the
  renderer's command line with the argument parser that reads it, the
  progress marker with the regular expression that reads it, and the result
  record.
- `orchestrator.dfy`: the orchestrator as a state machine over values:
  - one function per event;
  - the scheduler invariant `Inv` and the lemmas that every event keeps it;
  - the request handlers;
  - the four findings below.
- `server.dfy`: the orchestrator's module-level state as a class whose
  handlers update it in place. Each handler is proved equal to the matching
  event function. The loops (the backward stdout scan, the stderr lines, the
  file filter) are methods proved against their specification functions.
- `renderer.dfy`: the platform-to-format map, deduplication, worker count,
  output and clone names, encoder attempts, the slideshow as a whole,
  position parsing and text wrapping.
- `generation_store.dfy`: the client store as a class.
- `i18n.dfy`: the translation function `t`.
- `generate_page.dfy`: the page helpers.

Code that reads the clock, the file system, the network, the GPU or a child
process is not modelled. Where such a result matters, the model takes it as a
parameter:

- the existence of a file or of an executable;
- whether a ZIP archive was written;
- how JSON decodes;
- whether a text fits the frame width;
- what a render task returns;
- whether a copy succeeded;
- the current time.

## Model

| member | source | states |
|---|---|---|
| Protocol.ProgressLineRoundTrip | api/generator/generator.py:88-93 | every progress line the renderer writes is read back by the orchestrator's regular expression as the same format key and percentage, even when a non-digit (such as a `\r`) follows it |
| Protocol.MatchProgress | api/app.ts:251 | a progress match is only found where the `::PROGRESS::` tag occurs in the line |
| Protocol.MatchFrom | api/app.ts:251 | the leftmost match at or after a position lies at an occurrence of the tag |
| Protocol.MatchAt | api/app.ts:251 | a match at a position requires the tag at that position |
| Protocol.LazyGroup | api/app.ts:251 | the lazy `(.*?)` group ends at the first `::digit` and crosses no line terminator |
| Protocol.DigitRun | api/app.ts:251-254 | the greedy `\d+` takes every leading digit and stops at the first non-digit |
| Protocol.AfterTagOfMarker | api/app.ts:251-254 | what follows the tag in a written marker yields its format key and its number |
| Protocol.LazyGroupSkipsFormat | api/app.ts:251 | the lazy group passes over a format key that holds no `::` and no line terminator |
| Protocol.DigitRunOfDigits | api/app.ts:251-254 | the digit run of printed digits followed by a non-digit is exactly the printed digits |
| Protocol.NoTagNoMatch | api/app.ts:251-261 | a stderr line without the tag is never taken for progress |
| Protocol.ValueRun | api/generator/generator.py:951 | the values after an option run up to the next option-like argument |
| Protocol.ParseFrom | api/generator/generator.py:950-956 | the parser fails only with exit status 2, and a success always has at least one image |
| Orchestrator.EmptyStateInv | api/app.ts:121-123 | the initial state (no jobs, empty queue, slot free) satisfies the scheduler invariant |
| Orchestrator.Start | api/app.ts:138-146 | starting a job takes the slot, marks it running with all four format progresses at 0, and changes no other job |
| Orchestrator.Drain | api/app.ts:126-137 | `processQueue` does nothing while the slot is taken or the queue is empty; it keeps the registry's keys and only consumes the queue's front |
| Orchestrator.DrainStartsHead | api/app.ts:126-146 | with the slot free, a drain starts exactly the job at the head of the queue and removes it; no other job changes |
| Orchestrator.DrainSkipsDiscarded | api/app.ts:133-137 | a canceled or unknown id at the head is dropped and the drain goes on with the rest |
| Orchestrator.DrainKeepsUnqueued | api/app.ts:126-146 | a drain never touches a job that is not in the queue |
| Orchestrator.DrainPreservesInv | api/app.ts:126-146 | a drain keeps the invariant: the slot is taken exactly when one job is running; the queue holds exactly the queued jobs, each once |
| Orchestrator.StderrLine | api/app.ts:249-261 | a progress line updates only the percentage of a format key the job already tracks; any other non-blank line is appended to the stderr buffer; nothing else changes |
| Orchestrator.StderrLinesSnoc | api/app.ts:249-250 | a chunk's lines are applied in order, one after the other |
| Orchestrator.StderrLinesKeep | api/app.ts:244-263 | stderr output never changes a job's status, files or archive, and never adds or removes a progress key |
| Orchestrator.ChildOutputPreservesInv | api/app.ts:238-263 | child output keeps the scheduler invariant |
| Orchestrator.LastRecord | api/app.ts:270-284 | the backward scan returns the last stdout line that decodes to a record with a truthy status, or nothing when no line does |
| Orchestrator.Basename | api/app.ts:607 | a base name holds no path separator |
| Orchestrator.BasenameOfJoin | api/app.ts:291-292 | the base name of `dir/name` is `name` |
| Orchestrator.ZipBasename | api/app.ts:291-292 | the archive's base name is `<propertyId>_output.zip` |
| Orchestrator.CleanExit | api/app.ts:268-299 | after exit code 0, a success record with a file list adopts the files and leaves the job's status as it was while the archive is built; a success record without a list, another record or none fails the job with a message; nothing but status, files, error and the packing mark changes |
| Orchestrator.Packaged | api/app.ts:294-303 | once the archive settles, the job is done with its archive path, or failed with the archiver's message; the adopted files stay either way |
| Orchestrator.FinishRunning | api/app.ts:266-313 | ending the running job and freeing the slot keeps the invariant |
| Orchestrator.Close | api/app.ts:265-314 | the corrected `close` handler keeps the registry's keys and the registration order |
| Orchestrator.CloseAsWritten | api/app.ts:265-294 | the `close` handler as written, up to its `await`: it keeps the registry's keys and the registration order |
| Orchestrator.ZipSettledAsWritten | api/app.ts:294-313 | the rest of the handler as written, after the archive settles: it keeps the registry's keys and the registration order |
| Orchestrator.CloseThroughAsWritten | api/app.ts:265-314 | the as-written handler run to its end with no event in between keeps the registry's keys and the registration order |
| Orchestrator.ZipSettled | api/app.ts:294-313 | the corrected end of the handler keeps the registry's keys and the registration order |
| Orchestrator.SpawnError | api/app.ts:230-236 | the corrected `error` handler keeps the registry's keys and the registration order |
| Orchestrator.SpawnErrorAsWritten | api/app.ts:230-236 | the `error` handler as written keeps the registry's keys and the registration order |
| Orchestrator.ClosePreservesInv | api/app.ts:265-314 | the corrected `close` handler keeps the invariant (at most one job running, the slot taken exactly when one is), also while the archive is being built |
| Orchestrator.ZipSettledPreservesInv | api/app.ts:294-313 | the corrected end of the handler, once the archive settles, keeps the invariant |
| Orchestrator.SpawnErrorPreservesInv | api/app.ts:230-236 | the corrected `error` handler keeps the invariant |
| Orchestrator.CloseSuccess | api/app.ts:286-296 | a success record with exit code 0 leaves the job running with the record's files and the slot taken while the archive is built; a written archive then makes it done with the files and the archive path |
| Orchestrator.CloseZipFailure | api/app.ts:294-303 | a success record whose archive cannot be written fails the job with the "Failed to parse generator output" message and the archiver's error; the files stay |
| Orchestrator.CloseWithoutFileList | api/app.ts:286-328 | a success record without a file list fails the job at once with the `TypeError` that `files.forEach` raises inside `createZip` |
| Orchestrator.CloseWithoutSuccess | api/app.ts:297-299 | exit code 0 without a success record fails the job with the record's message or the "Unknown python error" text |
| Orchestrator.CloseNonZero | api/app.ts:304-309 | a non-zero or missing exit code fails a running job with the code and the buffered stderr |
| Orchestrator.CloseKeepsCanceled | api/app.ts:304-309 | a canceled job stays canceled, whatever the exit code (corrected for code 0, see Findings) |
| Orchestrator.RendererSuccessCompletesJob | api/generator/generator.py:962-965 | the renderer's success record, decoded faithfully, makes the job done with exactly the renderer's file list |
| Orchestrator.RendererErrorFailsJob | api/generator/generator.py:966-970 | the renderer's error record fails the job with the exception's message, although the exit code is 0 |
| Orchestrator.IndexOf | api/app.ts:651 | `queue.indexOf`: the first position of the id, or none exactly when the id is absent |
| Orchestrator.RemoveFirst | api/app.ts:651-652 | `splice(idx, 1)` removes one element when the id is present and nothing otherwise |
| Orchestrator.RemoveFirstFacts | api/app.ts:651-652 | on a queue without duplicates, the id is gone afterwards and every other id stays in order |
| Orchestrator.NotQueued | api/app.ts:121-123 | under the invariant, a job that is not queued is not in the queue |
| Orchestrator.Cancel | api/app.ts:640-657 | an unknown id is refused with not-found; a cancel changes no other job and keeps the registry's keys |
| Orchestrator.CancelRunning | api/app.ts:644-648 | canceling the running job marks it canceled and frees the slot for the deferred drain |
| Orchestrator.CancelQueued | api/app.ts:649-652 | canceling a queued job marks it canceled and takes it out of the queue; the invariant holds |
| Orchestrator.CancelEnded | api/app.ts:640-656 | canceling a finished job changes nothing |
| Orchestrator.CancelWhilePackaging | api/app.ts:640-656 | canceling a job whose child has gone and whose archive is being built changes nothing; the job then ends done |
| Orchestrator.CanceledQueuedNeverStarts | api/app.ts:133-137 | a queued job that is canceled is never started by a later drain |
| Orchestrator.LeadingBreaks | api/app.ts:500 | the run of line breaks at the start of a text |
| Orchestrator.UnseparatedSkip | api/app.ts:500 | skipping leading separators does not change the non-separator characters |
| Orchestrator.CollapseBreaksFacts | api/app.ts:500 | `/[\r\n]+/g → ' '` leaves no line break and keeps every non-space character in order |
| Orchestrator.CollapseSpacesFacts | api/app.ts:500 | `/\s{2,}/g → ' '` leaves no two whitespace characters in a row and keeps every non-space character in order |
| Orchestrator.CollapsedTrimmed | api/app.ts:500 | the collapsed, trimmed text has no line break, no double space, no space at either end, and the same non-space characters |
| Orchestrator.SanitizeTextFacts | api/app.ts:499-501 | the overlay text is at most 200 characters, a prefix of the cleaned text, and has no line break and no double space |
| Orchestrator.ClampNumber | api/app.ts:502-506 | a value that is not a number gives the fallback; any other is clamped into the bounds and kept when inside them |
| Orchestrator.NormalizeOverlay | api/app.ts:507-516 | the stored overlay has sanitised text, is disabled when the text is empty, has positions in [0,100] (default 50), a font size in [10,300] (default 100) and a `px` or `percent` unit |
| Orchestrator.NewJob | api/app.ts:561-569 | a new job is queued, with the uploaded images, the property id or `prop`, the normalised overlay, and no files, archive, error, child or progress |
| Orchestrator.Submit | api/app.ts:490-583 | a submission is refused exactly when it is malformed or its id is already registered (corrected, see Findings) |
| Orchestrator.SubmitWhileBusy | api/app.ts:571-576 | while a job runs, a submission only registers and enqueues the new job |
| Orchestrator.SubmitEnqueues | api/app.ts:561-576 | an accepted submission registers and enqueues the job under its chosen id, then drains |
| Orchestrator.SubmitWhenIdle | api/app.ts:571-576 | with the slot free, a submission starts at once either the new job (empty queue) or the job at the head of the queue, and the new job waits at the end |
| Orchestrator.SubmitPreservesInv | api/app.ts:571-576 | an accepted submission keeps the invariant |
| Orchestrator.EnqueuedInv | api/app.ts:571-572 | registering and enqueuing a fresh id keeps the invariant |
| Orchestrator.Download | api/app.ts:600-616 | a download is allowed exactly for a recorded output file or the archive's base name of a known job, and only when the file exists; it serves `outputDir/filename` |
| Orchestrator.Without | api/app.ts:628 | `filter(file => file !== filename)` removes every copy of the name and keeps every other file |
| Orchestrator.WithoutCounts | api/app.ts:628 | the filter drops every copy of the name and keeps every other file exactly as often as before |
| Orchestrator.WithoutSingle | api/app.ts:628 | for a name listed once, the filter removes exactly that entry and keeps the others in order |
| Orchestrator.DeleteFile | api/app.ts:618-638 | deletion is allowed exactly for a recorded output file; it removes the name from the list, always drops the archive, and changes nothing else |
| Orchestrator.DeletedFileDenied | api/app.ts:606-628 | a deleted file can no longer be downloaded |
| Orchestrator.DeletePreservesInv | api/app.ts:618-638 | a deletion keeps the invariant |
| Orchestrator.InsertNewest | api/app.ts:662 | inserting an id into a newest-first list adds exactly that id |
| Orchestrator.InsertNewestSorted | api/app.ts:662 | inserting into a newest-first list keeps it newest first |
| Orchestrator.InsertNewestCreatedAt | api/app.ts:662 | inserting an id keeps the relative order of the ids created at any one time, the new id coming first among them |
| Orchestrator.SortNewestFirst | api/app.ts:662 | the sort is a permutation of the ids, ordered by creation time, newest first |
| Orchestrator.SortNewestFirstStable | api/app.ts:662 | the sort is stable: ids with the same creation time keep the order they had |
| Orchestrator.ListJobs | api/app.ts:659-673 | the list has one entry per registered job, newest first, and every entry is the summary of a registered job |
| Orchestrator.ListJobsComplete | api/app.ts:659-673 | every job appears in the list exactly once |
| Orchestrator.PermutationKeepsNoDuplicates | api/app.ts:662 | a permutation of a duplicate-free list is duplicate-free |
| Orchestrator.NoDuplicatesCount | api/app.ts:121-122 | in a duplicate-free queue every id occurs at most once |
| Orchestrator.RendererArgs | api/app.ts:182-187 | the renderer gets `--images` with every image, then `--id`, `--output` and `--settings` |
| Orchestrator.RendererArgsRoundTrip | api/app.ts:182-187 | the renderer's argument parser reads back exactly the job's images, property id, output directory and settings, when there is an image and no value looks like an option |
| Orchestrator.RendererArgsWithoutImages | api/generator/generator.py:950 | a job without images makes the renderer's parser stop with a usage error, exit status 2 |
| Orchestrator.ChooseLaunch | api/app.ts:177-219 | outside development the bundled executable is used (the working-directory copy first); otherwise Python runs the script, with the full Windows interpreter path or `python3` |
| Orchestrator.LaunchPassesJob | api/app.ts:177-219 | whichever launcher is chosen, the renderer parses back the job's own data from its arguments (after the script path for the interpreter) |
| Orchestrator.DetectSourceLanguage | api/app.ts:333-338 | Korean exactly when the text has a Hangul character; Georgian when it has no Hangul but a Georgian character; Russian likewise for Cyrillic; English otherwise |
| Orchestrator.DetectOneChar | api/app.ts:333-338 | a one-character text is in that character's script's language |
| Orchestrator.DetectConcat | api/app.ts:333-338 | the language of two texts together is whichever of theirs ranks higher, Korean over Georgian over Russian over English |
| Orchestrator.BusyStateInv | api/app.ts:121-123 | the sample state (`a` running, `b` and `c` queued) satisfies the invariant |
| Orchestrator.BusyStateFits | api/app.ts:121-146 | the findings' scenario can occur: the sample state satisfies the invariant with `a` running and `b`, then `c`, queued |
| Orchestrator.CancelThenDrain | api/app.ts:644-648 | canceling the running `a` and the deferred drain leave `a` canceled with its child alive, `b` running and `c` queued |
| Orchestrator.SecondStart | api/app.ts:126-146 | a drain with a free slot starts the queued job even while another job is marked running |
| Orchestrator.CloseWhileOtherRuns | api/app.ts:265-314 | the corrected `close` of a job that no longer runs, while the slot is taken, only drops its child |
| Orchestrator.LateCloseKeepsInv | api/app.ts:265-314 | cancel, drain and the canceled child's late `close` keep the invariant under the corrected handlers |
| Orchestrator.LateCloseRunsTwoJobs | api/app.ts:265-313 | as written: in any state where `a` runs and `b`, then `c`, wait, canceling `a` and a drain followed by `a`'s late `close` (any exit) leave `b` and `c` both running |
| Orchestrator.LateSpawnErrorRunsTwoJobs | api/app.ts:230-236 | as written: in the same states, a late `error` event of `a`'s child leaves `b` and `c` both running |
| Orchestrator.LateCloseCorrected | api/app.ts:265-314 | corrected: from any such state satisfying the invariant, the same events leave `a` canceled, `b` running and `c` queued, with the invariant intact |
| Orchestrator.CloseAfterCancelCompletes | api/app.ts:268-296 | as written: whenever the running job has printed its success record, canceling it and an exit with code 0 make it done, with an archive |
| Orchestrator.CloseAfterCancelCorrected | api/app.ts:265-314 | corrected: in every such case the job stays canceled and gets no archive |
| Orchestrator.ResubmittedIdHidesRunningJob | api/app.ts:571-572 | as written: from any state satisfying the invariant, resubmitting the running job's id is accepted and replaces its record by a queued one; the slot stays taken with no recorded job running, which breaks the invariant |
| Orchestrator.ResubmittedIdRefused | api/app.ts:571-572 | corrected: a well-formed submission naming the running job's id is refused as a duplicate |
| Orchestrator.PackagingWindowRunsTwoJobs | api/app.ts:265-296 | as written: while the running job's archive is being built, a new submission starts the next job, and two jobs are running |
| Orchestrator.PackagingWindowCorrected | api/app.ts:265-296 | corrected: the job keeps the slot while its archive is built, so the submission only queues and the invariant holds |
| Server.ScanResult | api/app.ts:270-284 | the backward loop over stdout lines finds the record `LastRecord` describes |
| Server.JobServer.constructor | api/app.ts:121-123 | the server starts empty, with the slot free, and satisfies the invariant |
| Server.JobServer.ProcessQueue | api/app.ts:126-146 | the in-place `processQueue` performs `Drain` |
| Server.JobServer.Submit | api/app.ts:490-583 | the handler performs `Submit`: an accepted job is registered, enqueued and drained; a refused one changes nothing; the invariant is kept |
| Server.JobServer.Cancel | api/app.ts:640-657 | the handler performs `Cancel` and keeps the invariant |
| Server.JobServer.OnStdout | api/app.ts:238-242 | the stdout handler buffers the lines and keeps the invariant |
| Server.JobServer.OnStderr | api/app.ts:244-263 | the stderr handler applies the chunk's lines in order and keeps the invariant |
| Server.JobServer.OnClose | api/app.ts:265-314 | the `close` handler performs the corrected `Close` and keeps the invariant |
| Server.JobServer.OnZipSettled | api/app.ts:294-313 | the end of the `close` handler performs the corrected `ZipSettled` and keeps the invariant |
| Server.JobServer.OnSpawnError | api/app.ts:230-236 | the `error` handler performs the corrected `SpawnError` and keeps the invariant |
| Server.JobServer.DeleteFile | api/app.ts:618-638 | the delete handler performs `DeleteFile` and keeps the invariant |
| Server.ReadStderr | api/app.ts:249-262 | the loop over a chunk's lines computes `StderrLines` |
| Server.Reconcile | api/app.ts:268-310 | the exit reconciliation gives `CleanExit` for code 0 and `FailedExit` otherwise |
| Server.FilterOut | api/app.ts:628 | the filter loop computes `Without` |
| Renderer.ResolveFormat | api/generator/generator.py:884-891 | the chosen format is always a known format and allowed for its platform; a known platform gets its selection when allowed and its default otherwise; an unknown platform gets its selection exactly when that is a known format |
| Renderer.PlatformFormats | api/generator/generator.py:880-892 | the platform map holds exactly the enabled platforms whose format resolves, each with that format |
| Renderer.BuildPlatformMap | api/generator/generator.py:880-892 | the loop builds the platform map `PlatformFormats` describes |
| Renderer.FindGroup | api/generator/generator.py:899-901 | the position of a format's group, or none exactly when no group has that format |
| Renderer.WithFormat | api/generator/generator.py:899-901 | the platforms of the map that asked for a format |
| Renderer.AddToGroupFacts | api/generator/generator.py:901 | `setdefault(...).append(...)` adds the platform to its format's group or opens a new group at the end; group formats stay distinct; no other group changes |
| Renderer.WithFormatAbsent | api/generator/generator.py:899-901 | no platform asked for a format the map does not hold |
| Renderer.GroupsOfFormats | api/generator/generator.py:898-901 | grouping gives exactly one group per format the map holds |
| Renderer.GroupsOfPlatforms | api/generator/generator.py:898-901 | each group holds exactly the platforms that asked for its format, in map order, and at least one |
| Renderer.GroupByFormat | api/generator/generator.py:898-901 | the grouping loop computes `GroupsOf` |
| Renderer.DistinctFormatsBound | api/generator/generator.py:903-908 | distinct formats drawn from a set are no more than the set's size |
| Renderer.TasksDeduplicated | api/generator/generator.py:898-908 | there is one task per distinct format, so at most four, and every enabled platform's format has its task |
| Renderer.WorkerCount | api/generator/generator.py:910-913 | the pool size is at most 4, the task count and the CPU count; at least 1 when there is a task and a CPU; 4 when everything allows it |
| Renderer.PrimaryNameAgrees | api/generator/generator.py:928-929 | for a label without ` + `, the clone step looks for the primary file under the name the render wrote it |
| Renderer.CopiedNames | api/generator/generator.py:933-940 | the clones of a group are exactly the copies that succeeded, named after their platforms |
| Renderer.CloneOutputs | api/generator/generator.py:923-940 | the clone loop computes `AllClones`: nothing for a lone platform or a missing primary file |
| Renderer.AllClonesMember | api/generator/generator.py:923-940 | every clone comes from a group of two or more whose primary file exists |
| Renderer.ClonesBelongToPlatforms | api/generator/generator.py:880-940 | every clone is named after an enabled platform and the format that platform resolved to, and its copy succeeded |
| Renderer.Codecs | api/generator/generator.py:826 | the codec of every attempt, in order |
| Renderer.EncodeAttempts | api/generator/generator.py:774-832 | there is always at least one attempt; every software attempt uses the profile's preset and quality; every attempt uses the per-process thread count |
| Renderer.EncoderOrder | api/generator/generator.py:802-832 | without hardware: libx264 alone; with hardware: libx264 first for the fast profiles, then NVENC when the CUDA runtime exists, then QSV, then libx264 when it is not in yet |
| Renderer.SoftwareEncoderOnce | api/generator/generator.py:825-832 | the software encoder is tried exactly once whatever the settings |
| Renderer.RunAttempts | api/generator/generator.py:834-856 | the loop stops at the first attempt that writes the file, after all earlier attempts failed; when all fail it keeps the last failure; no attempts means no error |
| Renderer.FinishFormat | api/generator/generator.py:834-860 | a render yields its output name exactly when some attempt succeeds, raises the last failure when all fail, and yields nothing when there is no attempt |
| Renderer.FirstRaised | api/generator/generator.py:916-917 | the exception the pool raises is one that some task raised; there is none exactly when no task raised |
| Renderer.RenderedNames | api/generator/generator.py:919 | `[f for f in results if f]` keeps exactly the non-empty file names |
| Renderer.TaskResults | api/generator/generator.py:915-916 | the pool gives one result per task, in task order |
| Renderer.GenerateSlideshow | api/generator/generator.py:866-947 | the slideshow's steps compute `Slideshow`: no file when no platform resolves to a format; otherwise the rendered names, then the clones, or the first exception |
| Renderer.RendererRecord | api/generator/generator.py:949-970 | the printed record lists exactly the slideshow's files on success and carries the exception's message on failure; the exit code is 0 both ways |
| Renderer.ParsePosition | api/generator/generator.py:284-295 | the alignment is always left, center or right, the horizontal part when that is one of them; `custom` and `center` are centred; a one-word position is left-aligned |
| Renderer.ParsePositionOfPair | api/generator/generator.py:288-293 | `vertical-horizontal` is read back as its two parts |
| Renderer.WrapByChars | api/generator/generator.py:431-443 | the loop computes the greedy wrap `CharWrap`; its lines spell out the text in order, each fits or is a single character, and each next character would not have fitted on the line before |
| Renderer.WrapText | api/generator/generator.py:416-429 | the lines are each word pair's lines in pair order: the pair itself when it fits, its wrap by characters otherwise; they spell out the pairs in order; each fits or is a single character; no line exactly when the text is all whitespace |
| Renderer.PairsNonEmpty | api/generator/generator.py:421-423 | pairs of non-empty words are non-empty, and there is one when there is a word |
| GenerationStore.MergeProgress | src/stores/generationStore.ts:35 | the merged progress has both key sets; the update's keys override; every other key is kept |
| GenerationStore.AllComplete | src/stores/generationStore.ts:38 | exactly the four format keys, each at 100 |
| GenerationStore.NextError | src/stores/generationStore.ts:36 | a left-out error argument keeps the message; `null` clears it; a message replaces it |
| GenerationStore.Store.constructor | src/stores/generationStore.ts:25-30 | the store starts idle, with no job, no progress, no files and no error |
| GenerationStore.Store.HasActiveJob | src/stores/generationStore.ts:42-45 | a job is active exactly when it is queued or running |
| GenerationStore.Store.SetJob | src/stores/generationStore.ts:32 | the store follows the given job with the given status; progress, files and error start empty |
| GenerationStore.Store.UpdateStatus | src/stores/generationStore.ts:33-37 | the status is set; progress is merged only when given; the error message follows `NextError`; job and files stay |
| GenerationStore.Store.CompleteJob | src/stores/generationStore.ts:38 | the store is done with the files and every format at 100; job id and error stay; no job is active |
| GenerationStore.Store.ClearJob | src/stores/generationStore.ts:39 | the store is back in its initial state |
| I18n.Placeholder | src/i18n/LanguageContext.tsx:24 | `{{name}}` is four characters longer than the name |
| I18n.ExpandLiteral | src/i18n/LanguageContext.tsx:24 | a replacement without `$` is inserted as it is |
| I18n.ReplaceFirst | src/i18n/LanguageContext.tsx:24 | `replace` with a string pattern replaces only the first occurrence and keeps the text around it; without an occurrence nothing changes |
| I18n.ReplaceFirstFillsOnce | src/i18n/LanguageContext.tsx:23-25 | a parameter's value stands where its placeholder first occurs; later occurrences stay |
| I18n.SubstituteAbsent | src/i18n/LanguageContext.tsx:23-25 | parameters whose placeholders do not occur leave the text unchanged |
| I18n.Translate | src/i18n/LanguageContext.tsx:10-29 | a key that leads nowhere gives the key itself; an object found at the key is returned as it is |
| I18n.T | src/i18n/LanguageContext.tsx:10-29 | the descent loop and the substitution loop compute `Translate` |
| I18n.DottedKey | src/i18n/LanguageContext.tsx:11-19 | `a.b.c` descends by `a`, then `b`, then `c`; the key itself is returned when the path is missing |
| I18n.NoParamsVerbatim | src/i18n/LanguageContext.tsx:22-28 | without parameters a text is returned as it stands |
| GeneratePage.Images | src/pages/Generate.tsx:400 | the filter keeps exactly the files whose type starts with `image/` |
| GeneratePage.ImagesAppend | src/pages/Generate.tsx:400 | the filter keeps order: the images of two lists are the images of each, one after the other |
| GeneratePage.ImagesOfOne | src/pages/Generate.tsx:400 | one file is kept exactly when its type starts with `image/` |
| GeneratePage.ImagesCount | src/pages/Generate.tsx:400 | each image is kept as often as it occurs, and nothing else is kept |
| GeneratePage.AddFiles | src/pages/Generate.tsx:398-409 | existing files stay first, unchanged; then the new images in order, as many as fit; the list never grows past 100; a full list is left alone; each new item has its preview and `name-index-time` key |
| GeneratePage.Remove | src/pages/Generate.tsx:412-418 | removing an index drops exactly that element and keeps the others in order |
| GeneratePage.Insert | src/pages/Generate.tsx:387 | inserting at an index puts the element there and shifts the rest right |
| GeneratePage.Move | src/pages/Generate.tsx:384-387 | a move is a permutation that puts the dragged element at the target and keeps the others in order |
| GeneratePage.RemoveInsert | src/pages/Generate.tsx:386-387 | removing what was just inserted gives back the list |
| GeneratePage.InsertRemove | src/pages/Generate.tsx:386-387 | putting a removed element back where it was gives back the list |
| GeneratePage.MoveBack | src/pages/Generate.tsx:381-390 | dragging an item back to where it came from restores the list |
| GeneratePage.DragOver | src/pages/Generate.tsx:381-390 | nothing changes without a dragged item or over its own position; otherwise the list is permuted, the dragged item lands at the target, the others keep their order, and the drag follows the item |
| GeneratePage.FormatPreviewText | src/pages/Generate.tsx:259-267 | a text of at most two words is shown as typed; a longer one becomes its words two to a line |
| GeneratePage.PairsHaveNoBreak | src/pages/Generate.tsx:263-265 | a line of paired words holds no line break |
| GeneratePage.StartJob | src/pages/Generate.tsx:479-498 | without images or without an enabled platform the store goes idle with the matching message and no job is made; otherwise the store follows a new queued job `job_<time>` |
| GeneratePage.FontSizeBounds | src/pages/Generate.tsx:809-812 | the bounds are ordered |
| GeneratePage.FontSizeInput | src/pages/Generate.tsx:806-814 | a value that is not a number changes nothing; any other is clamped to [12,200] for `px` and [10,300] otherwise, and kept when inside |
| Strings.Trim | api/app.ts:500 | `trim` removes exactly the whitespace at both ends and keeps the middle; the result is empty exactly for an all-whitespace text |
| Strings.Words | src/pages/Generate.tsx:260 | the words are non-empty and hold no separator |
| Strings.WordsOfWord | src/pages/Generate.tsx:260 | a non-empty run without whitespace is exactly one word |
| Strings.WordsSplitAtSeparator | api/generator/generator.py:417 | whitespace ends a word: the words on either side of a whitespace character are split independently |
| Strings.WordsKeepText | api/generator/generator.py:417 | the words spell out exactly the non-space characters of the text |
| Strings.AllSeparatorsIffEmpty | api/generator/generator.py:417-419 | a text has no words exactly when it is all whitespace |
| Strings.Split | api/generator/generator.py:288 | `split` on a character gives at least one part, none holding the character |
| Strings.JoinSplit | api/generator/generator.py:288 | joining the parts of a split with the separator gives back the text |
| Strings.SplitJoin | src/i18n/LanguageContext.tsx:11 | splitting a join of separator-free parts gives back the parts |
| Strings.IndexOf | src/i18n/LanguageContext.tsx:24 | `indexOf` finds the first occurrence, or none exactly when there is none |
| Strings.ReplaceAll | api/generator/generator.py:769 | `replace` changes nothing when the pattern does not occur |
| Strings.ReplaceAllFirst | api/generator/generator.py:769 | replacement goes left to right: the text before the first occurrence stays, the occurrence becomes the replacement, and the rest is replaced after it, so occurrences never overlap |
| Strings.ReplaceAllSame | api/generator/generator.py:769 | replacing a pattern by itself changes nothing |
| Strings.NatToString | api/generator/generator.py:92 | a number prints as decimal digits |
| Strings.DigitsRoundTrip | api/app.ts:253 | `parseInt` of a printed number gives the number back |
| Strings.Pairs | src/pages/Generate.tsx:263-265 | pairing gives half as many lines as words, rounded up |
| Strings.PairsAt | api/generator/generator.py:421-422 | line `i` holds words `2i` and `2i+1` joined by a space, or word `2i` alone at an odd end |
| Strings.PairsKeepWords | src/pages/Generate.tsx:263-265 | pairing only chooses line breaks: the lines joined by spaces are the words joined by spaces |
| Strings.PairUp | src/pages/Generate.tsx:263-265 | the step-by-two loop computes `Pairs` |
| Strings.Clamp | src/pages/Generate.tsx:813 | `Math.min(hi, Math.max(lo, v))` lies in the bounds and is `v` when `v` is inside them |

## Left out

- Child processes, signals and the file system: `spawn`, `kill`, the existence checks and `mkdir` (api/app.ts:149-224) are left out. The launcher choice takes the existence of each executable as a parameter.
- Stream chunking: a `data` chunk can end in the middle of a line (api/app.ts:244-249). The model hands the handlers complete lines.
- Packaging and parsing: ZIP creation (api/app.ts:317-331) is a parameter that either succeeds or fails with a message. For a success record without a file list, the model uses V8's text for the `TypeError` that `files.forEach` raises in `createZip`. `JSON.parse` is a decoding parameter.
- Upload plumbing: Multer storage and moving files out of the `unknown` directory (api/app.ts:37-51, 528-557) are left out. The submission carries the final image paths.
- The translation proxy (api/app.ts:340-487) talks to the network and is left out; only its language detection is modelled.
- The 100 ms `setTimeout` after a cancel (api/app.ts:648) is a separate drain event the caller issues.
- The read-only status endpoint (api/app.ts:585-598) only copies fields out and is not modelled.
- Orchestrator events are addressed by job id, while the source's handlers hold the job object itself. The two agree as long as an id is never registered twice, which the corrected `Submit` guarantees. Events of a record orphaned by the as-written resubmission are not modelled.
- Numbers: overlay numbers and font sizes are integers; fractional values are not modelled.
- Renderer: the moviepy pipeline is a parameter returning a file name, nothing or an exception:
  - image loading and PIL text drawing;
  - the panorama and transition effects (`api/generator/transitions.py`, `api/generator/preprocess.py`).

  Text measurement is a "fits" predicate. The process pool, `shutil.copy2` and `clean_temp` become, respectively, a function over the task list, a "copied" predicate and nothing.
- Renderer: the CUDA runtime check is a parameter. Parsing `parallelWorkers` and the thread count from settings is not modelled; the worker count takes the requested number.
- Renderer.ResolveFormat: the settings' `platforms` and `formats` values are strings and booleans; values of other JSON types are not modelled.
- Renderer.EncodeAttempts: `.lower()` and `.upper()` are modelled on ASCII letters only.
- Renderer.PlatformFormats: the `platforms` entries are taken to have distinct keys, as a JSON object's keys are.
- I18n.Translate: a key segment that names an inherited object property (such as `toString`) is not modelled. Parameters come in the order given; JavaScript's ordering of integer-like keys first is not modelled. Parameter values are strings.
- GeneratePage.AddFiles: preview URLs are a parameter, one clock value serves the whole batch, and revoking object URLs is not modelled.
- GeneratePage.DragOver: requires both indices to be in range. A dragged index made stale by a removal in the middle of a drag is not modelled.
- Logging and debug output in all three programs are not modelled.
- ZipSettled, ZipSettledAsWritten: an archive promise that never settles leaves the job running for ever. As written, the slot is already free, so later jobs still run. In the corrected model the slot stays taken, as it does for a renderer that never exits. No timeout is modelled.
- StderrLine, StderrLinesKeep, Cancel, Download, DeleteFile, Submit, Server.JobServer.OnStderr, Server.JobServer.Cancel: the source looks ids and format keys up in plain objects, where inherited properties such as `constructor` or `toString` are found too. The model's maps hold own keys only. So the model does not capture these source behaviours:
  - a progress marker naming such a property adds a progress key (StderrLinesKeep does not hold there);
  - cancel, download and delete of such an id are not answered with not-found;
  - a `jobId` of `__proto__` replaces the registry's prototype instead of registering a job.
- SanitizeText, SanitizeTextFacts: the 200-character cut counts characters (Unicode scalar values). JavaScript's `length` and `slice` count UTF-16 code units. Text with characters outside the Basic Multilingual Plane is therefore cut later in the model, and the source can split a surrogate pair where the model cannot.
- ListJobs, SortNewestFirst: `Object.values(jobs)` lists integer-like ids (such as `123`) first, in ascending numeric order, then the other ids in insertion order. The model starts from registration order for every id. Jobs with integer-like ids and equal creation times may therefore be listed in a different order.
- Cancel, Server.JobServer.Cancel: the response body, `{status: 'canceled'}` for every known job (even a finished one), is not modelled; the model returns the new state.
- Renderer.FirstRaised: when several renders fail, `pool.starmap` raises the failure that completes first. The model has no timing and takes the first one in task order; its contract only promises an exception some task raised.
- Protocol.ParseFrom, Protocol.ParseRendererArgs: argparse's abbreviated option names, the `--option=value` form, `--`, `-h`, negative numbers and values containing a space (which argparse reads as values even when they start with `-`), and the usage message texts are not modelled. Every usage error is exit status 2.
- NewJob, ZipPath: `path.join` is modelled as joining with `/`. It also normalises the path (no `.` or `..` segments, no doubled separators) and uses `\` on Windows, which the model does not.

## Findings

| source | as written | input that shows it | evidently intended | confidence | as-written member | corrected member |
|---|---|---|---|---|---|---|
| api/app.ts:265-267, 230-235 | the child's `close` and `error` handlers free the slot and drain, even when a cancel (api/app.ts:644-648) has already freed it and the next job has started | any state in which `a` runs and `b`, then `c`, wait (such as `BusyState`); cancel `a`; the deferred drain starts `b`; `a`'s child then closes, with any exit code (or reports an error) | a late event from a canceled child does not touch the slot; only one job runs | high; not executed | Orchestrator.LateCloseRunsTwoJobs, Orchestrator.LateSpawnErrorRunsTwoJobs | Orchestrator.ClosePreservesInv, Orchestrator.SpawnErrorPreservesInv, Orchestrator.LateCloseCorrected |
| api/app.ts:268-296 | with exit code 0 the `close` handler overwrites the status, even for a canceled job | any state in which the running job `a` has already printed its success record; cancel `a`; the child exits with code 0 | a canceled job stays canceled | medium; not executed | Orchestrator.CloseAfterCancelCompletes | Orchestrator.CloseKeepsCanceled, Orchestrator.CloseAfterCancelCorrected |
| api/app.ts:265-267, 294-296, 313 | the `close` handler frees the slot before it awaits the archive and marks the job done only after it; a submission in between starts the next job while this one still reads `running` | any state in which `a` runs and `b`, then `c`, wait; `a` exits 0 with a success record; before the archive is written, a new submission arrives | the job keeps the slot until it is done; only one job runs | medium; not executed | Orchestrator.PackagingWindowRunsTwoJobs | Orchestrator.PackagingWindowCorrected, Orchestrator.ClosePreservesInv, Orchestrator.ZipSettledPreservesInv |
| api/app.ts:493, 571-572 | the client-chosen `jobId` is registered without checking; an existing record is replaced | any state in which `a` runs; a well-formed submission with `jobId` `a` | an id already in use is refused | medium; not executed | Orchestrator.ResubmittedIdHidesRunningJob | Orchestrator.Submit, Orchestrator.ResubmittedIdRefused |
