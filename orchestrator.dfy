/**
 * The job orchestrator of api/app.ts as a state machine over values: the job
 * registry, the FIFO queue of job ids and the single `isProcessing` slot, and
 * one function per event that changes them (a submission, a drain, a line on
 * the child's stdout or stderr, the child's `error` and `close` events, a
 * cancellation, a file deletion). The class in server.dfy performs the same
 * events in place and is proved to agree with these functions.
 *
 * Where the handlers as written let a late child event undo a cancellation,
 * both versions are here: `...AsWritten` models the code as it stands and is
 * used only to exhibit the discrepancy; the corrected function is what the
 * rest of the model uses and what the invariant `Inv` is proved for.
 */
module Orchestrator {
  import opened Wrappers
  import opened Strings
  import opened Protocol

  type JobId = string

  datatype Status = Queued | Running | Done | Error | Canceled

  /** The result of `Number(value)` for an overlay field: integers only; anything that converts to NaN is `NotANumber`. */
  datatype NumberField = Number(value: int) | NotANumber

  /**
   * The text-overlay fields the submission handler normalises. `text` is `None`
   * when the field is missing or not a string; `rest` stands for every other
   * field, passed through untouched.
   */
  datatype TextOverlay = TextOverlay(
    enabled: Option<bool>,
    text: Option<string>,
    positionX: NumberField,
    positionY: NumberField,
    fontSize: NumberField,
    fontSizeUnit: Option<string>,
    rest: string)

  /**
   * A job's settings: the client's settings object (`base`, uninterpreted by
   * the orchestrator and passed to the renderer), with the uploaded music file
   * and the normalised overlay put in.
   */
  datatype JobSettings = JobSettings(base: string, musicFile: Option<string>, textOverlay: TextOverlay)

  /**
   * A job record. `process` is true while a child process is attached and its
   * `close` has not been seen; `packing` is true while the `close` handler is
   * suspended at `await createZip` (a state the source has but does not
   * record); `stdout` and `stderr` are what that child's handlers have
   * accumulated (closure variables in the source).
   */
  datatype Job = Job(
    id: JobId,
    status: Status,
    images: seq<string>,
    settings: JobSettings,
    propertyId: string,
    createdAt: int,
    outputDir: string,
    files: Option<seq<string>>,
    zipFile: Option<string>,
    error: Option<string>,
    process: bool,
    packing: bool,
    progress: Option<map<string, int>>,
    stdout: seq<string>,
    stderr: string)

  /** The module-level state: `jobs`, `queue`, `isProcessing`, and the insertion order of `jobs`' keys. */
  datatype State = State(jobs: map<JobId, Job>, queue: seq<JobId>, isProcessing: bool, registered: seq<JobId>)

  const EmptyState := State(map[], [], false, [])

  const OutputsDir: string := "outputs"

  /** The four output-format keys a starting job reports progress for. */
  const FormatKeys: set<string> := {"9x16", "1x1", "4x5", "16x9"}

  const InitialProgress: map<string, int> := map["9x16" := 0, "1x1" := 0, "4x5" := 0, "16x9" := 0]

  predicate NoDuplicates<T(==)>(s: seq<T>) {
    forall i, j :: 0 <= i < j < |s| ==> s[i] != s[j]
  }

  // ---------------------------------------------------------------------
  // Scheduler invariant
  // ---------------------------------------------------------------------

  ghost predicate AtMostOneRunning(s: State) {
    forall a, b :: a in s.jobs && b in s.jobs && s.jobs[a].status == Running && s.jobs[b].status == Running ==> a == b
  }

  ghost predicate SomeRunning(s: State) {
    exists id :: id in s.jobs && s.jobs[id].status == Running
  }

  /**
   * What the scheduler keeps true between events: ids are non-empty keys of
   * their own records; the queue holds each queued job exactly once and
   * nothing else; at most one job runs, exactly when the slot is taken, and a
   * running job has a child and a progress table; every progress table has the
   * four format keys; only a finished job has an archive; a job is waiting
   * for its archive only while it runs, after its child has gone.
   */
  ghost predicate Inv(s: State) {
    && KeysWellFormed(s)
    && QueueExact(s)
    && SlotExact(s)
    && ShapesKept(s)
    && RegistryExact(s)
  }

  ghost predicate KeysWellFormed(s: State) {
    forall id :: id in s.jobs ==> id != "" && s.jobs[id].id == id
  }

  /** The queue holds every queued job exactly once, and nothing else. */
  ghost predicate QueueExact(s: State) {
    && (forall i :: 0 <= i < |s.queue| ==> s.queue[i] in s.jobs && s.jobs[s.queue[i]].status == Queued)
    && (forall id :: id in s.jobs && s.jobs[id].status == Queued ==> id in s.queue)
    && NoDuplicates(s.queue)
  }

  /**
   * At most one job runs, exactly when the slot is taken; it has a child, or
   * its child has gone and its archive is being built.
   */
  ghost predicate SlotExact(s: State) {
    && AtMostOneRunning(s)
    && (s.isProcessing <==> SomeRunning(s))
    && (forall id :: id in s.jobs && s.jobs[id].status == Running ==> s.jobs[id].process || s.jobs[id].packing)
    && (forall id :: id in s.jobs && s.jobs[id].packing ==> s.jobs[id].status == Running && !s.jobs[id].process)
  }

  /** Progress tables have the four format keys; only a finished job has an archive. */
  ghost predicate ShapesKept(s: State) {
    && (forall id :: id in s.jobs && s.jobs[id].progress.Some? ==> s.jobs[id].progress.value.Keys == FormatKeys)
    && (forall id :: id in s.jobs && s.jobs[id].zipFile.Some? ==> s.jobs[id].status == Done)
  }

  /** `registered` lists each job once, in insertion order. */
  ghost predicate RegistryExact(s: State) {
    && NoDuplicates(s.registered)
    && (forall id :: id in s.registered <==> id in s.jobs)
  }

  /**
   * Replacing one job's record by one with the same id and status, a child
   * or a pending archive when it runs, the four format keys and an archive
   * only when it is done keeps the invariant.
   */
  lemma ReplaceKeepsInv(s: State, id: JobId, j: Job)
    requires Inv(s) && id in s.jobs
    requires j.id == id && j.status == s.jobs[id].status
    requires j.status == Running ==> j.process || j.packing
    requires j.packing ==> j.status == Running && !j.process
    requires j.progress.Some? ==> j.progress.value.Keys == FormatKeys
    requires j.zipFile.Some? ==> j.status == Done
    ensures Inv(s.(jobs := s.jobs[id := j]))
  {
    QueueAfterReplace(s, id, j);
    SlotAfterUpdate(s, id, j, s.queue, s.registered);
  }

  /** Replacing a job by one that is queued exactly when it was keeps the queue exact. */
  lemma QueueAfterReplace(s: State, id: JobId, j: Job)
    requires QueueExact(s) && id in s.jobs && (j.status == Queued <==> s.jobs[id].status == Queued)
    ensures QueueExact(s.(jobs := s.jobs[id := j]))
  {
  }

  /**
   * Setting a job that runs exactly when the one it replaces ran (or, for a
   * new id, that does not run) keeps the slot exact, whatever the queue.
   */
  lemma SlotAfterUpdate(s: State, id: JobId, j: Job, queue: seq<JobId>, registered: seq<JobId>)
    requires SlotExact(s)
    requires j.status == Running <==> id in s.jobs && s.jobs[id].status == Running
    requires j.status == Running ==> j.process || j.packing
    requires j.packing ==> j.status == Running && !j.process
    ensures SlotExact(s.(jobs := s.jobs[id := j], queue := queue, registered := registered))
  {
    var r := s.(jobs := s.jobs[id := j], queue := queue, registered := registered);
    if SomeRunning(s) {
      var x :| x in s.jobs && s.jobs[x].status == Running;
      assert r.jobs[x].status == Running;
    }
    if SomeRunning(r) {
      var x :| x in r.jobs && r.jobs[x].status == Running;
      assert x in s.jobs && s.jobs[x].status == Running;
    }
  }

  /** Ending the running job and freeing the slot leaves no job running. */
  lemma SlotAfterFinish(s: State, id: JobId, j: Job)
    requires SlotExact(s) && id in s.jobs && s.jobs[id].status == Running && j.status != Running && !j.packing
    ensures SlotExact(s.(jobs := s.jobs[id := j], isProcessing := false))
  {
    var r := s.(jobs := s.jobs[id := j], isProcessing := false);
    forall x | x in r.jobs ensures r.jobs[x].status != Running {
      if x != id {
        assert r.jobs[x] == s.jobs[x];
      }
    }
  }

  lemma EmptyStateInv()
    ensures Inv(EmptyState)
  {
  }

  // ---------------------------------------------------------------------
  // Drain (`processQueue`)
  // ---------------------------------------------------------------------

  /** The head job starts: it takes the slot, runs, gets a fresh progress table, a child and empty stream buffers. */
  function Start(s: State, id: JobId): (r: State)
    requires id in s.jobs
    ensures r.isProcessing && r.queue == s.queue && r.registered == s.registered
    ensures r.jobs.Keys == s.jobs.Keys
    ensures r.jobs[id].status == Running && r.jobs[id].process
    ensures r.jobs[id].progress == Some(InitialProgress) && r.jobs[id].progress.value.Keys == FormatKeys
    ensures forall k :: k in r.jobs[id].progress.value ==> r.jobs[id].progress.value[k] == 0
    ensures forall other :: other in s.jobs && other != id ==> r.jobs[other] == s.jobs[other]
  {
    var job := s.jobs[id];
    s.(isProcessing := true,
       jobs := s.jobs[id := job.(status := Running, progress := Some(InitialProgress), process := true, stdout := [], stderr := "")])
  }

  /**
   * `processQueue`: nothing while the slot is taken or the queue is empty;
   * otherwise pop the head, drop it (and go on) when its job is missing or was
   * canceled, stop on an empty id, or start it.
   */
  function Drain(s: State): (r: State)
    ensures s.isProcessing || |s.queue| == 0 ==> r == s
    ensures r.jobs.Keys == s.jobs.Keys && r.registered == s.registered
    ensures |r.queue| <= |s.queue| && r.queue == s.queue[|s.queue| - |r.queue|..]
    decreases |s.queue|
  {
    if s.isProcessing || |s.queue| == 0 then s
    else
      var id := s.queue[0];
      var s1 := s.(queue := s.queue[1..]);
      if id == "" then
        assert s1.queue == s.queue[1..];
        s1
      else if id !in s.jobs || s.jobs[id].status == Canceled then
        var r := Drain(s1);
        assert r.queue == s.queue[|s.queue| - |r.queue|..];
        r
      else Start(s1, id)
  }

  /** FIFO: with the slot free, a drain starts the job at the head of the queue, and only it. */
  lemma {:induction false} DrainStartsHead(s: State)
    requires !s.isProcessing && |s.queue| > 0 && s.queue[0] != ""
    requires s.queue[0] in s.jobs && s.jobs[s.queue[0]].status == Queued
    ensures var r := Drain(s);
      && r.jobs[s.queue[0]].status == Running
      && r.jobs[s.queue[0]].progress == Some(InitialProgress)
      && r.queue == s.queue[1..]
      && (forall id :: id in s.jobs && id != s.queue[0] ==> r.jobs[id] == s.jobs[id])
  {
    assert Drain(s) == Start(s.(queue := s.queue[1..]), s.queue[0]);
  }

  /** A popped id whose job is missing or canceled is dropped and the drain goes on, still without the slot. */
  lemma DrainSkipsDiscarded(s: State)
    requires !s.isProcessing && |s.queue| > 0 && s.queue[0] != ""
    requires s.queue[0] !in s.jobs || s.jobs[s.queue[0]].status == Canceled
    ensures Drain(s) == Drain(s.(queue := s.queue[1..]))
  {
  }

  /** A drain changes no job whose id is not in the queue: it only starts a queued one. */
  lemma {:induction false} DrainKeepsUnqueued(s: State, id: JobId)
    requires id in s.jobs && id !in s.queue
    ensures Drain(s).jobs[id] == s.jobs[id]
    decreases |s.queue|
  {
    if !s.isProcessing && |s.queue| > 0 {
      var head := s.queue[0];
      if head != "" && (head !in s.jobs || s.jobs[head].status == Canceled) {
        DrainKeepsUnqueued(s.(queue := s.queue[1..]), id);
      }
    }
  }

  lemma DrainPreservesInv(s: State)
    requires Inv(s)
    ensures Inv(Drain(s))
  {
    if !s.isProcessing && |s.queue| > 0 {
      var id := s.queue[0];
      assert id in s.jobs && s.jobs[id].status == Queued && id != "";
      assert Drain(s) == Start(s.(queue := s.queue[1..]), id);
      QueueAfterStart(s);
      SlotAfterStart(s, s.queue[1..]);
    }
  }

  /** Starting the head job and popping it keeps the queue exact. */
  lemma QueueAfterStart(s: State)
    requires QueueExact(s) && |s.queue| > 0
    ensures QueueExact(Start(s.(queue := s.queue[1..]), s.queue[0]))
  {
    var id := s.queue[0];
    var r := Start(s.(queue := s.queue[1..]), id);
    forall x | x in r.jobs && r.jobs[x].status == Queued ensures x in r.queue {
      assert x != id && x in s.queue;
      var i :| 0 <= i < |s.queue| && s.queue[i] == x;
      assert r.queue[i - 1] == x;
    }
    forall i | 0 <= i < |r.queue| ensures r.queue[i] != id {
      assert r.queue[i] == s.queue[i + 1];
    }
  }

  /** With the slot free, starting a job makes it the only one running. */
  lemma SlotAfterStart(s: State, queue: seq<JobId>)
    requires SlotExact(s) && !s.isProcessing && |s.queue| > 0 && s.queue[0] in s.jobs
    ensures SlotExact(Start(s.(queue := queue), s.queue[0]))
  {
    var id := s.queue[0];
    var r := Start(s.(queue := queue), id);
    forall x | x in r.jobs && x != id ensures r.jobs[x].status != Running && !r.jobs[x].packing {
      assert r.jobs[x] == s.jobs[x];
    }
    assert !s.jobs[id].packing;
  }

  // ---------------------------------------------------------------------
  // Child stdout / stderr
  // ---------------------------------------------------------------------

  /** A stdout chunk's lines are buffered for the scan at `close`. */
  function StdoutLines(job: Job, lines: seq<string>): Job {
    job.(stdout := job.stdout + lines)
  }

  /**
   * One stderr line: a progress marker sets `progress[fmt]` when `fmt` is
   * already a key; any other line that is not blank is kept as diagnostic
   * text, followed by a newline.
   */
  function StderrLine(job: Job, line: string): (j: Job)
    ensures j.(progress := job.progress, stderr := job.stderr) == job
    ensures j.progress.Some? <==> job.progress.Some?
    ensures j.progress.Some? ==> j.progress.value.Keys == job.progress.value.Keys
    ensures MatchProgress(line).Some? && job.progress.Some? ==>
      var m := MatchProgress(line).value;
      && j.stderr == job.stderr
      && (m.fmt in job.progress.value ==> j.progress.value[m.fmt] == m.percent)
      && (forall k :: k in job.progress.value && k != m.fmt ==> j.progress.value[k] == job.progress.value[k])
      && (m.fmt !in job.progress.value ==> j == job)
    ensures (MatchProgress(line).None? || job.progress.None?) ==>
      && j.progress == job.progress
      && j.stderr == (if Trim(line) != "" then job.stderr + line + "\n" else job.stderr)
  {
    var m := MatchProgress(line);
    if m.Some? && job.progress.Some? then
      if m.value.fmt in job.progress.value then
        job.(progress := Some(job.progress.value[m.value.fmt := m.value.percent]))
      else job
    else if Trim(line) != "" then job.(stderr := job.stderr + line + "\n")
    else job
  }

  /** The stderr lines of one chunk, in order. */
  function StderrLines(job: Job, lines: seq<string>): (j: Job)
    decreases |lines|
  {
    if |lines| == 0 then job else StderrLines(StderrLine(job, lines[0]), lines[1..])
  }

  lemma {:induction false} StderrLinesSnoc(job: Job, lines: seq<string>, line: string)
    ensures StderrLines(job, lines + [line]) == StderrLine(StderrLines(job, lines), line)
    decreases |lines|
  {
    if |lines| > 0 {
      assert (lines + [line])[1..] == lines[1..] + [line];
      StderrLinesSnoc(StderrLine(job, lines[0]), lines[1..], line);
    }
  }

  /** Stderr never changes a job's status, child, files or archive, and never adds or removes a progress key. */
  lemma {:induction false} StderrLinesKeep(job: Job, lines: seq<string>)
    ensures var j := StderrLines(job, lines);
      && j.(progress := job.progress, stderr := job.stderr) == job
      && (j.progress.Some? <==> job.progress.Some?)
      && (j.progress.Some? ==> j.progress.value.Keys == job.progress.value.Keys)
    decreases |lines|
  {
    if |lines| > 0 {
      StderrLinesKeep(StderrLine(job, lines[0]), lines[1..]);
    }
  }

  /** The child wrote to stdout or stderr: only that job's buffers and progress change. */
  function ChildOutput(s: State, id: JobId, stdout: seq<string>, stderr: seq<string>): State
    requires id in s.jobs
  {
    s.(jobs := s.jobs[id := StderrLines(StdoutLines(s.jobs[id], stdout), stderr)])
  }

  lemma ChildOutputPreservesInv(s: State, id: JobId, stdout: seq<string>, stderr: seq<string>)
    requires Inv(s) && id in s.jobs
    ensures Inv(ChildOutput(s, id, stdout, stderr))
  {
    StderrLinesKeep(StdoutLines(s.jobs[id], stdout), stderr);
    ReplaceKeepsInv(s, id, StderrLines(StdoutLines(s.jobs[id], stdout), stderr));
  }

  // ---------------------------------------------------------------------
  // Exit reconciliation
  // ---------------------------------------------------------------------

  /**
   * The backward scan of the `close` handler: the last stdout line that
   * decodes to a record with a truthy `status`.
   */
  function LastRecord(lines: seq<string>, decode: string -> Option<ResultRecord>): (r: Option<ResultRecord>)
    ensures r.Some? ==> Recognised(r)
    ensures r.Some? ==> exists i :: (0 <= i < |lines| && decode(lines[i]) == r
                                     && forall j :: i < j < |lines| ==> !Recognised(decode(lines[j])))
    ensures r.None? ==> forall i :: 0 <= i < |lines| ==> !Recognised(decode(lines[i]))
    decreases |lines|
  {
    if |lines| == 0 then None
    else
      var parsed := decode(lines[|lines| - 1]);
      if Recognised(parsed) then parsed
      else
        var r := LastRecord(lines[..|lines| - 1], decode);
        assert forall i :: 0 <= i < |lines| - 1 ==> lines[..|lines| - 1][i] == lines[i];
        r
  }

  /** `path.join(job.outputDir, `${job.propertyId}_output.zip`)`. */
  function ZipPath(job: Job): string {
    job.outputDir + "/" + job.propertyId + "_output.zip"
  }

  /** `path.basename`: what follows the last `/`. */
  function Basename(path: string): (b: string)
    ensures '/' !in b
    decreases |path|
  {
    if |path| == 0 then path
    else if path[|path| - 1] == '/' then []
    else Basename(path[..|path| - 1]) + [path[|path| - 1]]
  }

  lemma {:induction false} BasenameOfJoin(dir: string, name: string)
    requires '/' !in name
    ensures Basename(dir + "/" + name) == name
    decreases |name|
  {
    if |name| > 0 {
      var p := dir + "/" + name;
      assert p[..|p| - 1] == dir + "/" + name[..|name| - 1];
      BasenameOfJoin(dir, name[..|name| - 1]);
    } else {
      assert (dir + "/" + name) == dir + "/";
    }
  }

  /** The archive's download name is `<propertyId>_output.zip` when the property id holds no `/`. */
  lemma ZipBasename(job: Job)
    requires '/' !in job.propertyId
    ensures Basename(ZipPath(job)) == job.propertyId + "_output.zip"
  {
    assert ZipPath(job) == job.outputDir + "/" + (job.propertyId + "_output.zip");
    BasenameOfJoin(job.outputDir, job.propertyId + "_output.zip");
  }

  /**
   * `String(e)` for the `TypeError` V8 throws when `createZip` calls
   * `files.forEach` on a record without a file list: it is thrown inside the
   * promise's executor, so the promise is rejected before the handler's
   * `await` can yield to any other event.
   */
  const ZipTypeError: string := "TypeError: Cannot read properties of undefined (reading 'forEach')"

  const UnknownPythonError: string := "Unknown python error (no JSON result)"

  /**
   * Exit code 0, up to the handler's `await`: adopt the last recognised
   * record. A success record with a file list adopts the files and starts the
   * archive (`packing`), leaving the status as it was; one without a file list
   * fails at once; any other record, or none, fails with its message.
   */
  function CleanExit(job: Job, decode: string -> Option<ResultRecord>): (j: Job)
    ensures j.(status := job.status, files := job.files, error := job.error, packing := job.packing) == job
    ensures j.packing ==> j.status == job.status && j.error == job.error && j.files.Some?
    ensures !j.packing ==> j.status == Error && j.error.Some?
  {
    var result := LastRecord(job.stdout, decode);
    if result.Some? && result.value.status == "success" then
      var j1 := job.(files := result.value.files);
      if result.value.files.Some? then j1.(packing := true)
      else j1.(status := Error, error := Some("Failed to parse generator output: " + ZipTypeError), packing := false)
    else
      job.(status := Error, packing := false,
           error := Some(if result.Some? && result.value.message != "" then result.value.message else UnknownPythonError))
  }

  /**
   * The rest of the handler once the archive has settled: record the
   * archive's path and finish done, or fail with the archiver's error,
   * keeping the adopted files either way.
   */
  function Packaged(job: Job, zipError: Option<string>): (j: Job)
    ensures !j.packing && j.files == job.files && j.process == job.process && j.progress == job.progress
    ensures j.status == (if zipError.None? then Done else Error)
    ensures zipError.None? ==> j.zipFile.Some? && j.error == job.error
    ensures zipError.Some? ==> j.zipFile == job.zipFile && j.error.Some?
  {
    match zipError
    case None => job.(packing := false, zipFile := Some(ZipPath(job)), status := Done)
    case Some(e) => job.(packing := false, status := Error, error := Some("Failed to parse generator output: " + e))
  }

  /** `String(code)` for the child's exit code; `null` when it was ended by a signal. */
  function CodeText(code: Option<int>): string {
    match code
    case None => "null"
    case Some(c) => IntToString(c)
  }

  /** A non-zero exit: the job fails with the exit code and the diagnostic text. */
  function FailedExit(job: Job, code: Option<int>): Job {
    job.(status := Error, packing := false,
         error := Some("Generator exited with code " + CodeText(code) + ". Stderr: " + job.stderr))
  }

  /**
   * The `close` handler as written, up to its `await`: drop the child and
   * free the slot, then reconcile the exit (a non-zero exit leaves a canceled
   * job canceled, a zero exit does not look at the status). While the archive
   * is being built the handler is suspended: the slot is already free, the
   * job still has the status it had (running, unless it was canceled) and the
   * drain has not happened; `ZipSettledAsWritten` is the rest of the handler.
   * Otherwise the handler drains at once.
   */
  function CloseAsWritten(s: State, id: JobId, code: Option<int>, decode: string -> Option<ResultRecord>): (r: State)
    requires id in s.jobs
    ensures r.jobs.Keys == s.jobs.Keys && r.registered == s.registered
  {
    var job := s.jobs[id].(process := false);
    var ended :=
      if code == Some(0) then CleanExit(job, decode)
      else if job.status != Canceled then FailedExit(job, code)
      else job;
    var freed := s.(jobs := s.jobs[id := ended], isProcessing := false);
    if ended.packing then freed else Drain(freed)
  }

  /**
   * The `close` handler as written, after `await createZip`: the job is
   * marked done with its archive, whatever its status has become meanwhile,
   * or fails with the archiver's error; then the drain. Nothing happens for a
   * job whose handler is not suspended there.
   */
  function ZipSettledAsWritten(s: State, id: JobId, zipError: Option<string>): (r: State)
    requires id in s.jobs
    ensures r.jobs.Keys == s.jobs.Keys && r.registered == s.registered
  {
    if !s.jobs[id].packing then s
    else Drain(s.(jobs := s.jobs[id := Packaged(s.jobs[id], zipError)]))
  }

  /** The as-written `close` handler run to its end with no other event in between. */
  function CloseThroughAsWritten(s: State, id: JobId, code: Option<int>, decode: string -> Option<ResultRecord>,
                                 zipError: Option<string>): (r: State)
    requires id in s.jobs
    ensures r.jobs.Keys == s.jobs.Keys && r.registered == s.registered
  {
    ZipSettledAsWritten(CloseAsWritten(s, id, code, decode), id, zipError)
  }

  /**
   * The `close` handler, corrected in two ways. A job that no longer runs
   * with this child (canceled, or failed to spawn) only loses its child: it
   * keeps its terminal status, and the slot, which another job may hold by
   * now, is left alone. And a job whose archive is being built keeps the slot
   * until `ZipSettled` ends it; any other end frees the slot and drains.
   */
  function Close(s: State, id: JobId, code: Option<int>, decode: string -> Option<ResultRecord>): (r: State)
    requires id in s.jobs
    ensures r.jobs.Keys == s.jobs.Keys && r.registered == s.registered
  {
    var job := s.jobs[id].(process := false);
    if s.jobs[id].status != Running || !s.jobs[id].process then Drain(s.(jobs := s.jobs[id := job]))
    else
      var ended := if code == Some(0) then CleanExit(job, decode) else FailedExit(job, code);
      if ended.packing then s.(jobs := s.jobs[id := ended])
      else Drain(s.(jobs := s.jobs[id := ended], isProcessing := false))
  }

  /** The archive settled, corrected: the running job ends, and only then frees the slot and drains. */
  function ZipSettled(s: State, id: JobId, zipError: Option<string>): (r: State)
    requires id in s.jobs
    ensures r.jobs.Keys == s.jobs.Keys && r.registered == s.registered
  {
    var job := s.jobs[id];
    if !(job.packing && job.status == Running) then s
    else Drain(s.(jobs := s.jobs[id := Packaged(job, zipError)], isProcessing := false))
  }

  /** The child's `error` event as written: fail the job, free the slot, drain. */
  function SpawnErrorAsWritten(s: State, id: JobId, message: string): (r: State)
    requires id in s.jobs
    ensures r.jobs.Keys == s.jobs.Keys && r.registered == s.registered
  {
    var job := s.jobs[id].(status := Error, error := Some("Failed to spawn python process: " + message));
    Drain(s.(jobs := s.jobs[id := job], isProcessing := false))
  }

  /** The child's `error` event, corrected: it only acts on a job that still runs with its child. */
  function SpawnError(s: State, id: JobId, message: string): (r: State)
    requires id in s.jobs
    ensures r.jobs.Keys == s.jobs.Keys && r.registered == s.registered
  {
    if s.jobs[id].status != Running || !s.jobs[id].process then Drain(s)
    else SpawnErrorAsWritten(s, id, message)
  }

  /** Finishing the running job frees the slot: no job runs afterwards. */
  lemma FinishRunning(s: State, id: JobId, ended: Job)
    requires Inv(s) && id in s.jobs && s.jobs[id].status == Running
    requires ended.status != Running && ended.status != Queued && ended.id == id && !ended.packing
    requires ended.progress.Some? ==> ended.progress.value.Keys == FormatKeys
    requires ended.zipFile.Some? ==> ended.status == Done
    ensures Inv(s.(jobs := s.jobs[id := ended], isProcessing := false))
  {
    QueueAfterReplace(s, id, ended);
    SlotAfterFinish(s, id, ended);
  }

  lemma ClosePreservesInv(s: State, id: JobId, code: Option<int>, decode: string -> Option<ResultRecord>)
    requires Inv(s) && id in s.jobs
    ensures Inv(Close(s, id, code, decode))
  {
    var job := s.jobs[id].(process := false);
    if s.jobs[id].status != Running || !s.jobs[id].process {
      ReplaceKeepsInv(s, id, job);
      DrainPreservesInv(s.(jobs := s.jobs[id := job]));
    } else {
      assert s.jobs[id].zipFile.None? && !s.jobs[id].packing;
      var ended := if code == Some(0) then CleanExit(job, decode) else FailedExit(job, code);
      if ended.packing {
        ReplaceKeepsInv(s, id, ended);
      } else {
        FinishRunning(s, id, ended);
        DrainPreservesInv(s.(jobs := s.jobs[id := ended], isProcessing := false));
      }
    }
  }

  lemma ZipSettledPreservesInv(s: State, id: JobId, zipError: Option<string>)
    requires Inv(s) && id in s.jobs
    ensures Inv(ZipSettled(s, id, zipError))
  {
    var job := s.jobs[id];
    if job.packing && job.status == Running {
      assert job.zipFile.None?;
      FinishRunning(s, id, Packaged(job, zipError));
      DrainPreservesInv(s.(jobs := s.jobs[id := Packaged(job, zipError)], isProcessing := false));
    }
  }

  lemma SpawnErrorPreservesInv(s: State, id: JobId, message: string)
    requires Inv(s) && id in s.jobs
    ensures Inv(SpawnError(s, id, message))
  {
    if s.jobs[id].status != Running || !s.jobs[id].process {
      DrainPreservesInv(s);
    } else {
      var job := s.jobs[id].(status := Error, error := Some("Failed to spawn python process: " + message));
      FinishRunning(s, id, job);
      DrainPreservesInv(s.(jobs := s.jobs[id := job], isProcessing := false));
    }
  }

  /**
   * Exit code 0 with a success record: the job adopts the record's files and,
   * still running, keeps the slot while the archive is built; a working
   * archiver then makes it done with the archive, and frees the slot.
   */
  lemma {:induction false} CloseSuccess(s: State, id: JobId, decode: string -> Option<ResultRecord>, files: seq<string>)
    requires Inv(s) && id in s.jobs && s.jobs[id].status == Running && s.jobs[id].process
    requires LastRecord(s.jobs[id].stdout, decode) == Some(ResultRecord("success", Some(files), ""))
    ensures var s1 := Close(s, id, Some(0), decode);
      && s1.isProcessing && s1.queue == s.queue
      && s1.jobs[id].status == Running && s1.jobs[id].packing && s1.jobs[id].files == Some(files)
    ensures var r := ZipSettled(Close(s, id, Some(0), decode), id, None); var j := r.jobs[id];
      && j.status == Done && j.files == Some(files) && j.zipFile == Some(ZipPath(s.jobs[id])) && !j.process
      && (r.isProcessing ==> r.queue == s.queue[1..])
  {
    var packing := s.jobs[id].(process := false, files := Some(files), packing := true);
    ClosePacks(s, id, decode, files);
    NotQueued(s, id);
    assert |s.queue| > 0 ==> s.queue[0] in s.jobs && s.jobs[s.queue[0]].status == Queued;
    SettleAfterPacking(s.(jobs := s.jobs[id := packing]), id, None);
    assert ZipPath(packing) == ZipPath(s.jobs[id]);
  }

  /**
   * The archive of the packing job settles: the job takes its final state, and
   * when the queue's head is a waiting job, the drain starts exactly that one.
   */
  lemma SettleAfterPacking(s: State, id: JobId, zipError: Option<string>)
    requires id in s.jobs && s.jobs[id].packing && s.jobs[id].status == Running && id !in s.queue
    requires |s.queue| > 0 ==> s.queue[0] in s.jobs && s.jobs[s.queue[0]].status == Queued && s.queue[0] != ""
    ensures var r := ZipSettled(s, id, zipError);
      r.jobs[id] == Packaged(s.jobs[id], zipError) && (r.isProcessing ==> r.queue == s.queue[1..])
  {
    var s2 := s.(jobs := s.jobs[id := Packaged(s.jobs[id], zipError)], isProcessing := false);
    assert ZipSettled(s, id, zipError) == Drain(s2);
    DrainKeepsUnqueued(s2, id);
    if |s.queue| > 0 {
      DrainStartsHead(s2);
    }
  }

  /** The state right after a clean exit with a success record: the job, still running, holds the files and packs them. */
  lemma ClosePacks(s: State, id: JobId, decode: string -> Option<ResultRecord>, files: seq<string>)
    requires id in s.jobs && s.jobs[id].status == Running && s.jobs[id].process
    requires LastRecord(s.jobs[id].stdout, decode) == Some(ResultRecord("success", Some(files), ""))
    ensures Close(s, id, Some(0), decode) == s.(jobs := s.jobs[id := s.jobs[id].(process := false, files := Some(files), packing := true)])
  {
  }

  /** Exit code 0 with a success record but a failing archiver: the job errs, and keeps the file list it had adopted. */
  lemma {:induction false} CloseZipFailure(s: State, id: JobId, decode: string -> Option<ResultRecord>,
                                           files: seq<string>, zipError: string)
    requires Inv(s) && id in s.jobs && s.jobs[id].status == Running && s.jobs[id].process
    requires LastRecord(s.jobs[id].stdout, decode) == Some(ResultRecord("success", Some(files), ""))
    ensures var j := ZipSettled(Close(s, id, Some(0), decode), id, Some(zipError)).jobs[id];
      && j.status == Error && j.files == Some(files) && j.zipFile.None?
      && j.error == Some("Failed to parse generator output: " + zipError)
  {
    var packing := s.jobs[id].(process := false, files := Some(files), packing := true);
    ClosePacks(s, id, decode, files);
    NotQueued(s, id);
    assert s.jobs[id].zipFile.None?;
    assert |s.queue| > 0 ==> s.queue[0] in s.jobs && s.jobs[s.queue[0]].status == Queued;
    SettleAfterPacking(s.(jobs := s.jobs[id := packing]), id, Some(zipError));
  }

  /** Exit code 0 with a success record that has no file list: `createZip` throws, and the job errs at once. */
  lemma {:induction false} CloseWithoutFileList(s: State, id: JobId, decode: string -> Option<ResultRecord>, message: string)
    requires Inv(s) && id in s.jobs && s.jobs[id].status == Running && s.jobs[id].process
    requires LastRecord(s.jobs[id].stdout, decode) == Some(ResultRecord("success", None, message))
    ensures var j := Close(s, id, Some(0), decode).jobs[id];
      && j.status == Error && j.files.None? && !j.packing
      && j.error == Some("Failed to parse generator output: " + ZipTypeError)
  {
    var s1 := s.(jobs := s.jobs[id := CleanExit(s.jobs[id].(process := false), decode)], isProcessing := false);
    NotQueued(s1, id);
    DrainKeepsUnqueued(s1, id);
  }

  /** Exit code 0 without a success record: the job errs with the record's message, or a fixed one when there is none. */
  lemma {:induction false} CloseWithoutSuccess(s: State, id: JobId, decode: string -> Option<ResultRecord>)
    requires Inv(s) && id in s.jobs && s.jobs[id].status == Running && s.jobs[id].process
    requires var r := LastRecord(s.jobs[id].stdout, decode); r.None? || r.value.status != "success"
    ensures var j := Close(s, id, Some(0), decode).jobs[id];
      var r := LastRecord(s.jobs[id].stdout, decode);
      && j.status == Error && j.files == s.jobs[id].files
      && j.error == Some(if r.Some? && r.value.message != "" then r.value.message else UnknownPythonError)
  {
    var job := s.jobs[id].(process := false);
    var s1 := s.(jobs := s.jobs[id := CleanExit(job, decode)], isProcessing := false);
    NotQueued(s1, id);
    DrainKeepsUnqueued(s1, id);
  }

  /** A non-zero exit (or a signal) of a running job: it errs with the code and the diagnostic text. */
  lemma {:induction false} CloseNonZero(s: State, id: JobId, code: Option<int>, decode: string -> Option<ResultRecord>)
    requires Inv(s) && id in s.jobs && s.jobs[id].status == Running && s.jobs[id].process && code != Some(0)
    ensures var j := Close(s, id, code, decode).jobs[id];
      && j.status == Error
      && j.error == Some("Generator exited with code " + CodeText(code) + ". Stderr: " + s.jobs[id].stderr)
  {
    var job := s.jobs[id].(process := false);
    var s1 := s.(jobs := s.jobs[id := FailedExit(job, code)], isProcessing := false);
    NotQueued(s1, id);
    DrainKeepsUnqueued(s1, id);
  }

  /** A canceled job stays canceled whatever its child's exit code, and the slot is not touched on its behalf. */
  lemma {:induction false} CloseKeepsCanceled(s: State, id: JobId, code: Option<int>,
                                              decode: string -> Option<ResultRecord>, zipError: Option<string>)
    requires Inv(s) && id in s.jobs && s.jobs[id].status == Canceled
    ensures var r := Close(s, id, code, decode);
      r.jobs[id].status == Canceled && !r.jobs[id].packing && (s.isProcessing ==> r.isProcessing)
    ensures ZipSettled(Close(s, id, code, decode), id, zipError).jobs[id].status == Canceled
  {
    var s1 := s.(jobs := s.jobs[id := s.jobs[id].(process := false)]);
    NotQueued(s1, id);
    DrainKeepsUnqueued(s1, id);
  }

  /** The renderer's own success exit, read through a faithful decoder, completes the job with the renderer's files. */
  lemma RendererSuccessCompletesJob(s: State, id: JobId, encode: ResultRecord -> string,
                                    decode: string -> Option<ResultRecord>, before: seq<string>, files: seq<string>)
    requires Faithful(encode, decode)
    requires Inv(s) && id in s.jobs && s.jobs[id].status == Running && s.jobs[id].process
    requires s.jobs[id].stdout == before + [encode(MainExit(Ok(files)).record)]
    ensures MainExit(Ok(files)).code == 0
    ensures var j := ZipSettled(Close(s, id, Some(MainExit(Ok(files)).code), decode), id, None).jobs[id];
      j.status == Done && j.files == Some(files)
  {
    var lines := s.jobs[id].stdout;
    assert decode(lines[|lines| - 1]) == Some(ResultRecord("success", Some(files), ""));
    CloseSuccess(s, id, decode, files);
  }

  /** The renderer's own error exit (code 0 too) fails the job with the renderer's message, or the fixed one when it is empty. */
  lemma RendererErrorFailsJob(s: State, id: JobId, encode: ResultRecord -> string,
                              decode: string -> Option<ResultRecord>, before: seq<string>, message: string)
    requires Faithful(encode, decode)
    requires Inv(s) && id in s.jobs && s.jobs[id].status == Running && s.jobs[id].process
    requires s.jobs[id].stdout == before + [encode(MainExit(Err(message)).record)]
    ensures MainExit(Err(message)).code == 0
    ensures var j := Close(s, id, Some(MainExit(Err(message)).code), decode).jobs[id];
      j.status == Error && j.error == Some(if message != "" then message else UnknownPythonError)
  {
    var lines := s.jobs[id].stdout;
    assert decode(lines[|lines| - 1]) == Some(ResultRecord("error", None, message));
    CloseWithoutSuccess(s, id, decode);
  }

  // ---------------------------------------------------------------------
  // Cancel
  // ---------------------------------------------------------------------

  datatype Rejection = NotFound | AccessDenied | FileMissing | DuplicateJobId | MalformedRequest

  /** `queue.indexOf(x)`: the first position holding `x`, `None` for -1. */
  function IndexOf(q: seq<JobId>, x: JobId): (r: Option<nat>)
    ensures r.None? <==> x !in q
    ensures r.Some? ==> r.value < |q| && q[r.value] == x && x !in q[..r.value]
    decreases |q|
  {
    if |q| == 0 then None
    else if q[0] == x then Some(0)
    else match IndexOf(q[1..], x)
      case None => None
      case Some(k) =>
        assert q[..k + 1] == [q[0]] + q[1..][..k];
        Some(k + 1)
  }

  /** `if (idx > -1) queue.splice(idx, 1)`. */
  function RemoveFirst(q: seq<JobId>, x: JobId): (r: seq<JobId>)
    ensures x !in q ==> r == q
    ensures x in q ==> |r| == |q| - 1
  {
    match IndexOf(q, x)
    case None => q
    case Some(k) => q[..k] + q[k + 1..]
  }

  /** Removing an id from a queue without duplicates leaves a queue without duplicates, without that id, with every other one. */
  lemma RemoveFirstFacts(q: seq<JobId>, x: JobId)
    requires NoDuplicates(q)
    ensures var r := RemoveFirst(q, x);
      && x !in r && NoDuplicates(r)
      && (forall y :: y in r <==> y in q && y != x)
  {
    if x in q {
      var r := RemoveFirst(q, x);
      var k := IndexOf(q, x).value;
      assert r == q[..k] + q[k + 1..];
      forall i | 0 <= i < |r| ensures r[i] != x && r[i] == q[if i < k then i else i + 1] {
      }
      forall y | y in q && y != x ensures y in r {
        var i :| 0 <= i < |q| && q[i] == y;
        assert i != k;
        if i < k { assert r[i] == y; } else { assert r[i - 1] == y; }
      }
    }
  }

  /** An id that is registered but not queued is not in a queue that holds only queued jobs. */
  lemma NotQueued(s: State, id: JobId)
    requires QueueExact(s) && id in s.jobs && s.jobs[id].status != Queued
    ensures id !in s.queue
  {
  }

  /**
   * The cancel handler: a running job with a child is signalled, canceled and
   * frees the slot (the drain comes later, as its own event); a queued job is
   * canceled and its id leaves the queue; any other job is left as it is.
   */
  function Cancel(s: State, id: JobId): (r: Result<State, Rejection>)
    ensures r.Err? <==> id !in s.jobs
    ensures r.Err? ==> r.error == NotFound
    ensures r.Ok? ==> r.value.jobs.Keys == s.jobs.Keys && r.value.registered == s.registered
    ensures r.Ok? ==> forall x :: x in s.jobs && x != id ==> r.value.jobs[x] == s.jobs[x]
  {
    if id !in s.jobs then Err(NotFound)
    else
      var job := s.jobs[id];
      if job.status == Running && job.process then
        Ok(s.(jobs := s.jobs[id := job.(status := Canceled)], isProcessing := false))
      else if job.status == Queued then
        Ok(s.(jobs := s.jobs[id := job.(status := Canceled)], queue := RemoveFirst(s.queue, job.id)))
      else Ok(s)
  }

  /** Canceling the running job cancels it and frees the slot; the queue is left for the next drain. */
  lemma CancelRunning(s: State, id: JobId)
    requires Inv(s) && id in s.jobs && s.jobs[id].status == Running && s.jobs[id].process
    ensures Cancel(s, id).Ok?
    ensures var r := Cancel(s, id).value;
      && r.jobs[id].status == Canceled && !r.isProcessing && r.queue == s.queue
      && Inv(r)
  {
    var job := s.jobs[id].(status := Canceled);
    QueueAfterReplace(s, id, job);
    SlotAfterFinish(s, id, job);
  }

  /** Canceling a queued job cancels it and takes its id out of the queue; the slot is not touched. */
  lemma CancelQueued(s: State, id: JobId)
    requires Inv(s) && id in s.jobs && s.jobs[id].status == Queued
    ensures Cancel(s, id).Ok?
    ensures var r := Cancel(s, id).value;
      && r.jobs[id].status == Canceled && id !in r.queue && r.isProcessing == s.isProcessing
      && Inv(r)
  {
    var job := s.jobs[id].(status := Canceled);
    QueueAfterCancel(s, id);
    SlotAfterUpdate(s, id, job, RemoveFirst(s.queue, id), s.registered);
  }

  /** Canceling a queued job and taking its id out of the queue keeps the queue exact. */
  lemma QueueAfterCancel(s: State, id: JobId)
    requires QueueExact(s) && id in s.jobs && s.jobs[id].status == Queued
    ensures QueueExact(s.(jobs := s.jobs[id := s.jobs[id].(status := Canceled)], queue := RemoveFirst(s.queue, id)))
  {
    RemoveFirstFacts(s.queue, id);
  }

  /**
   * Canceling a running job whose child has gone and whose archive is being
   * built matches neither branch: nothing changes, and once the archive
   * settles the job is done all the same.
   */
  lemma CancelWhilePackaging(s: State, id: JobId)
    requires Inv(s) && id in s.jobs && s.jobs[id].packing
    ensures Cancel(s, id) == Ok(s)
    ensures ZipSettled(Cancel(s, id).value, id, None).jobs[id].status == Done
  {
    var s2 := s.(jobs := s.jobs[id := Packaged(s.jobs[id], None)], isProcessing := false);
    NotQueued(s2, id);
    DrainKeepsUnqueued(s2, id);
  }

  /** Canceling a job that has ended changes nothing. */
  lemma CancelEnded(s: State, id: JobId)
    requires id in s.jobs && s.jobs[id].status != Running && s.jobs[id].status != Queued
    ensures Cancel(s, id) == Ok(s)
  {
  }

  /** A canceled queued job never runs: no later drain starts it. */
  lemma CanceledQueuedNeverStarts(s: State, id: JobId)
    requires Inv(s) && id in s.jobs && s.jobs[id].status == Queued
    ensures var r := Cancel(s, id).value; Drain(r).jobs[id].status == Canceled
  {
    CancelQueued(s, id);
    var r := Cancel(s, id).value;
    DrainKeepsUnqueued(r, id);
  }

  // ---------------------------------------------------------------------
  // Submission
  // ---------------------------------------------------------------------

  predicate IsLineBreak(c: char) {
    c == '\r' || c == '\n'
  }

  function LeadingBreaks(s: string): (n: nat)
    ensures n <= |s| && forall k :: 0 <= k < n ==> IsLineBreak(s[k])
    decreases |s|
  {
    if |s| > 0 && IsLineBreak(s[0]) then 1 + LeadingBreaks(s[1..]) else 0
  }

  /** `s.replace(/[\r\n]+/g, ' ')`. */
  function CollapseBreaks(s: string): string
    decreases |s|
  {
    if |s| == 0 then []
    else if IsLineBreak(s[0]) then " " + CollapseBreaks(s[LeadingBreaks(s)..])
    else [s[0]] + CollapseBreaks(s[1..])
  }

  /** `s.replace(/\s{2,}/g, ' ')`. */
  function CollapseSpaces(s: string): string
    decreases |s|
  {
    if |s| == 0 then []
    else if LeadingSpaces(s) >= 2 then " " + CollapseSpaces(s[LeadingSpaces(s)..])
    else [s[0]] + CollapseSpaces(s[1..])
  }

  const MaxOverlayText := 200

  /** The overlay text chain: line breaks to spaces, white-space runs to one space, trim, at most 200 characters. */
  function SanitizeText(raw: string): string {
    var t := Trim(CollapseSpaces(CollapseBreaks(raw)));
    if |t| > MaxOverlayText then t[..MaxOverlayText] else t
  }

  predicate NoLineBreaks(s: string) {
    forall i :: 0 <= i < |s| ==> !IsLineBreak(s[i])
  }

  predicate NoDoubleSpace(s: string) {
    forall i :: 0 <= i < |s| - 1 ==> !(IsJsSpace(s[i]) && IsJsSpace(s[i + 1]))
  }

  lemma {:induction false} UnseparatedSkip(s: string, n: nat, isSep: char -> bool)
    requires n <= |s| && forall k :: 0 <= k < n ==> isSep(s[k])
    ensures Unseparated(s, isSep) == Unseparated(s[n..], isSep)
    decreases n
  {
    if n > 0 {
      assert s[1..][n - 1..] == s[n..];
      UnseparatedSkip(s[1..], n - 1, isSep);
    }
  }

  lemma {:induction false} CollapseBreaksFacts(s: string)
    ensures NoLineBreaks(CollapseBreaks(s))
    ensures Unseparated(CollapseBreaks(s), IsJsSpace) == Unseparated(s, IsJsSpace)
    decreases |s|
  {
    if |s| > 0 {
      if IsLineBreak(s[0]) {
        var n := LeadingBreaks(s);
        CollapseBreaksFacts(s[n..]);
        UnseparatedSkip(s, n, IsJsSpace);
        assert (" " + CollapseBreaks(s[n..]))[1..] == CollapseBreaks(s[n..]);
      } else {
        CollapseBreaksFacts(s[1..]);
        assert ([s[0]] + CollapseBreaks(s[1..]))[1..] == CollapseBreaks(s[1..]);
      }
    }
  }

  lemma CollapseSpacesFacts(s: string)
    ensures var r := CollapseSpaces(s);
      && (NoLineBreaks(s) ==> NoLineBreaks(r))
      && NoDoubleSpace(r)
      && (|s| > 0 ==> |r| > 0 && (IsJsSpace(r[0]) <==> IsJsSpace(s[0])))
      && Unseparated(r, IsJsSpace) == Unseparated(s, IsJsSpace)
  {
    CollapseSpacesKeeps(s);
    CollapseSpacesSingle(s);
  }

  /** Collapsing white-space runs adds no line break and keeps the other characters in order. */
  lemma {:induction false} CollapseSpacesKeeps(s: string)
    ensures var r := CollapseSpaces(s);
      && (NoLineBreaks(s) ==> NoLineBreaks(r))
      && Unseparated(r, IsJsSpace) == Unseparated(s, IsJsSpace)
    decreases |s|
  {
    if |s| > 0 {
      var r := CollapseSpaces(s);
      if LeadingSpaces(s) >= 2 {
        var n := LeadingSpaces(s);
        CollapseSpacesKeeps(s[n..]);
        UnseparatedSkip(s, n, IsJsSpace);
        assert r[1..] == CollapseSpaces(s[n..]);
        assert NoLineBreaks(s) ==> NoLineBreaks(s[n..]);
      } else {
        CollapseSpacesKeeps(s[1..]);
        assert r[1..] == CollapseSpaces(s[1..]);
        assert NoLineBreaks(s) ==> NoLineBreaks(s[1..]);
      }
    }
  }

  /** After collapsing, no two white-space characters follow each other, and the first character keeps its kind. */
  lemma {:induction false} CollapseSpacesSingle(s: string)
    ensures var r := CollapseSpaces(s);
      && NoDoubleSpace(r)
      && (|s| > 0 ==> |r| > 0 && (IsJsSpace(r[0]) <==> IsJsSpace(s[0])))
    decreases |s|
  {
    if |s| > 0 {
      var r := CollapseSpaces(s);
      if LeadingSpaces(s) >= 2 {
        var n := LeadingSpaces(s);
        CollapseSpacesSingle(s[n..]);
        assert r[1..] == CollapseSpaces(s[n..]);
      } else {
        CollapseSpacesSingle(s[1..]);
        assert r[1..] == CollapseSpaces(s[1..]);
        if IsJsSpace(s[0]) && |s| > 1 {
          assert !IsJsSpace(s[1]);
        }
      }
    }
  }

  /** The text before the cut: `Trim(CollapseSpaces(CollapseBreaks(raw)))`. */
  lemma CollapsedTrimmed(raw: string)
    ensures var t := Trim(CollapseSpaces(CollapseBreaks(raw)));
      && NoLineBreaks(t)
      && NoDoubleSpace(t)
      && (t == [] <==> forall i :: 0 <= i < |raw| ==> IsJsSpace(raw[i]))
  {
    var b := CollapseBreaks(raw);
    var c := CollapseSpaces(b);
    CollapseBreaksFacts(raw);
    CollapseSpacesFacts(b);
    TrimKeepsShape(c);
    AllSeparatorsIffEmpty(raw, IsJsSpace);
    AllSeparatorsIffEmpty(c, IsJsSpace);
  }

  /** Trimming a text without line breaks or double white space keeps it so. */
  lemma TrimKeepsShape(c: string)
    requires NoLineBreaks(c) && NoDoubleSpace(c)
    ensures NoLineBreaks(Trim(c)) && NoDoubleSpace(Trim(c))
  {
    var t := Trim(c);
    var n := LeadingSpaces(c);
    forall i | 0 <= i < |t| ensures !IsLineBreak(t[i]) {
      assert t[i] == c[n + i];
    }
    forall i | 0 <= i < |t| - 1 ensures !(IsJsSpace(t[i]) && IsJsSpace(t[i + 1])) {
      assert t[i] == c[n + i] && t[i + 1] == c[n + i + 1];
    }
  }

  /**
   * The sanitised overlay text has no line break, no two white-space
   * characters in a row, no leading white space and at most 200 characters,
   * ends without white space unless it was cut, and is empty exactly when the
   * raw text was only white space.
   */
  lemma SanitizeTextFacts(raw: string)
    ensures var r := SanitizeText(raw);
      && |r| <= MaxOverlayText
      && NoLineBreaks(r)
      && NoDoubleSpace(r)
      && (r == [] || !IsJsSpace(r[0]))
      && (|r| < MaxOverlayText ==> r == [] || !IsJsSpace(r[|r| - 1]))
      && (r == [] <==> forall i :: 0 <= i < |raw| ==> IsJsSpace(raw[i]))
  {
    var t := Trim(CollapseSpaces(CollapseBreaks(raw)));
    CollapsedTrimmed(raw);
    var r := SanitizeText(raw);
    assert r == t[..Min(|t|, MaxOverlayText)];
    assert forall i :: 0 <= i < |r| ==> r[i] == t[i];
  }

  /** `clampNumber(value, fallback, min, max)`. */
  function ClampNumber(value: NumberField, fallback: int, lo: int, hi: int): (r: int)
    requires lo <= hi
    ensures value.NotANumber? ==> r == fallback
    ensures value.Number? ==> lo <= r <= hi && (lo <= value.value <= hi ==> r == value.value)
  {
    match value
    case NotANumber => fallback
    case Number(v) => Clamp(v, lo, hi)
  }

  /** The normalised overlay of the submission handler. */
  function NormalizeOverlay(o: TextOverlay): (n: TextOverlay)
    ensures n.text.Some? && n.text.value == SanitizeText(o.text.GetOr(""))
    ensures n.enabled == Some(if n.text.value == "" then false else o.enabled.GetOr(true))
    ensures n.positionX.Number? && 0 <= n.positionX.value <= 100
    ensures n.positionY.Number? && 0 <= n.positionY.value <= 100
    ensures n.fontSize.Number? && 10 <= n.fontSize.value <= 300
    ensures o.positionX.NotANumber? ==> n.positionX.value == 50
    ensures o.positionY.NotANumber? ==> n.positionY.value == 50
    ensures o.fontSize.NotANumber? ==> n.fontSize.value == 100
    ensures n.fontSizeUnit == Some(if o.fontSizeUnit == Some("px") then "px" else "percent")
    ensures n.rest == o.rest
  {
    var text := SanitizeText(o.text.GetOr(""));
    o.(text := Some(text),
       enabled := Some(if |text| > 0 then o.enabled.GetOr(true) else false),
       positionX := Number(ClampNumber(o.positionX, 50, 0, 100)),
       positionY := Number(ClampNumber(o.positionY, 50, 0, 100)),
       fontSize := Number(ClampNumber(o.fontSize, 100, 10, 300)),
       fontSizeUnit := Some(if o.fontSizeUnit == Some("px") then "px" else "percent"))
  }

  /**
   * A submission as the handler sees it once uploads are stored: the form's
   * `jobId` and `propertyId` (empty when missing), the decoded `settings` and
   * `textOverlay` (`None` when `JSON.parse` threw), the stored image paths
   * and the music file.
   */
  datatype Submission = Submission(
    jobId: string,
    propertyId: string,
    settings: Option<string>,
    overlay: Option<TextOverlay>,
    images: seq<string>,
    musicFile: Option<string>)

  /** The queued job a submission creates under id `id` at time `now`. */
  function NewJob(req: Submission, id: JobId, now: int): (job: Job)
    requires req.settings.Some? && req.overlay.Some?
    ensures job.id == id && job.status == Queued && job.images == req.images
    ensures job.propertyId == (if req.propertyId != "" then req.propertyId else "prop")
    ensures job.settings.textOverlay == NormalizeOverlay(req.overlay.value)
    ensures job.files.None? && job.zipFile.None? && job.error.None? && !job.process && !job.packing && job.progress.None?
  {
    Job(id, Queued, req.images,
        JobSettings(req.settings.value, req.musicFile, NormalizeOverlay(req.overlay.value)),
        if req.propertyId != "" then req.propertyId else "prop",
        now, OutputsDir + "/" + id, None, None, None, false, false, None, [], "")
  }

  /** The id a submission uses: the client's, or a fresh uuid. */
  function SubmittedId(req: Submission, freshId: JobId): JobId {
    if req.jobId != "" then req.jobId else freshId
  }

  /** The submission handler as written: register (replacing any job with the same id), enqueue at the tail, drain. */
  function SubmitAsWritten(s: State, req: Submission, freshId: JobId, now: int): Result<(State, JobId), Rejection>
    requires freshId != "" && freshId !in s.jobs
  {
    if req.settings.None? || req.overlay.None? then Err(MalformedRequest)
    else
      var id := SubmittedId(req, freshId);
      var registered := if id in s.jobs then s.registered else s.registered + [id];
      Ok((Drain(s.(jobs := s.jobs[id := NewJob(req, id, now)], queue := s.queue + [id], registered := registered)), id))
  }

  /** The submission handler, corrected: an id that is already registered is refused instead of replacing its job. */
  function Submit(s: State, req: Submission, freshId: JobId, now: int): (r: Result<(State, JobId), Rejection>)
    requires freshId != "" && freshId !in s.jobs
    ensures r.Err? <==> req.settings.None? || req.overlay.None? || SubmittedId(req, freshId) in s.jobs
  {
    if req.settings.Some? && req.overlay.Some? && SubmittedId(req, freshId) in s.jobs then Err(DuplicateJobId)
    else SubmitAsWritten(s, req, freshId, now)
  }

  /** The state a submission builds before it drains. */
  function Enqueued(s: State, req: Submission, id: JobId, now: int): State
    requires req.settings.Some? && req.overlay.Some?
  {
    s.(jobs := s.jobs[id := NewJob(req, id, now)], queue := s.queue + [id], registered := s.registered + [id])
  }

  /** While a job runs, an accepted submission only registers its job and appends its id to the queue. */
  lemma SubmitWhileBusy(s: State, req: Submission, freshId: JobId, now: int)
    requires Inv(s) && s.isProcessing && freshId != "" && freshId !in s.jobs
    requires Submit(s, req, freshId, now).Ok?
    ensures Submit(s, req, freshId, now).value == (Enqueued(s, req, SubmittedId(req, freshId), now), SubmittedId(req, freshId))
  {
  }

  /**
   * With the slot free, an accepted submission starts the queue's head: its
   * own job when the queue was empty, otherwise the job that was waiting
   * longest, and its own job waits.
   */
  lemma SubmitWhenIdle(s: State, req: Submission, freshId: JobId, now: int)
    requires KeysWellFormed(s) && QueueExact(s) && !s.isProcessing && freshId != "" && freshId !in s.jobs
    requires Submit(s, req, freshId, now).Ok?
    ensures var (r, id) := Submit(s, req, freshId, now).value;
      && id == SubmittedId(req, freshId)
      && id in r.jobs && r.jobs[id].createdAt == now
      && r.jobs[id].status == (if |s.queue| == 0 then Running else Queued)
      && (|s.queue| > 0 ==> r.jobs[s.queue[0]].status == Running && r.queue == s.queue[1..] + [id])
  {
    assert |s.queue| > 0 ==> s.queue[0] in s.jobs && s.jobs[s.queue[0]].status == Queued && s.queue[0] != "";
    IdleSubmitStarts(s, req, freshId, now);
  }

  /** `SubmitWhenIdle` with only the facts about the queue's head it needs. */
  lemma IdleSubmitStarts(s: State, req: Submission, freshId: JobId, now: int)
    requires !s.isProcessing && freshId != "" && freshId !in s.jobs
    requires |s.queue| > 0 ==> s.queue[0] in s.jobs && s.jobs[s.queue[0]].status == Queued && s.queue[0] != ""
    requires Submit(s, req, freshId, now).Ok?
    ensures var (r, id) := Submit(s, req, freshId, now).value;
      && id == SubmittedId(req, freshId)
      && id in r.jobs && r.jobs[id].createdAt == now
      && r.jobs[id].status == (if |s.queue| == 0 then Running else Queued)
      && (|s.queue| > 0 ==> r.jobs[s.queue[0]].status == Running && r.queue == s.queue[1..] + [id])
  {
    var id := SubmittedId(req, freshId);
    SubmitEnqueues(s, req, freshId, now);
    var e := Enqueued(s, req, id, now);
    if |s.queue| > 0 {
      assert e.queue[0] == s.queue[0] && e.jobs[s.queue[0]] == s.jobs[s.queue[0]];
      assert e.queue[1..] == s.queue[1..] + [id];
    } else {
      assert e.queue == [id];
    }
    DrainStartsHead(e);
  }

  /** An accepted submission is the drain of the enqueued state. */
  lemma SubmitEnqueues(s: State, req: Submission, freshId: JobId, now: int)
    requires freshId != "" && freshId !in s.jobs
    requires req.settings.Some? && req.overlay.Some? && SubmittedId(req, freshId) !in s.jobs
    ensures Submit(s, req, freshId, now) == Ok((Drain(Enqueued(s, req, SubmittedId(req, freshId), now)), SubmittedId(req, freshId)))
  {
  }

  /** An accepted submission keeps the scheduler invariant. */
  lemma SubmitPreservesInv(s: State, req: Submission, freshId: JobId, now: int)
    requires Inv(s) && freshId != "" && freshId !in s.jobs
    requires Submit(s, req, freshId, now).Ok?
    ensures Inv(Submit(s, req, freshId, now).value.0)
  {
    var id := SubmittedId(req, freshId);
    var e := Enqueued(s, req, id, now);
    assert Submit(s, req, freshId, now).value == (Drain(e), id);
    EnqueuedInv(s, req, id, now);
    DrainPreservesInv(e);
  }

  lemma EnqueuedInv(s: State, req: Submission, id: JobId, now: int)
    requires Inv(s) && id != "" && id !in s.jobs && req.settings.Some? && req.overlay.Some?
    ensures Inv(Enqueued(s, req, id, now))
  {
    var job := NewJob(req, id, now);
    SlotAfterUpdate(s, id, job, s.queue + [id], s.registered + [id]);
    QueueAfterEnqueue(s, id, job);
    RegistryAfterEnqueue(s, id, job);
  }

  /** A fresh queued job whose id joins the queue's tail keeps the queue exact. */
  lemma QueueAfterEnqueue(s: State, id: JobId, job: Job)
    requires QueueExact(s) && RegistryExact(s) && id !in s.jobs && job.status == Queued
    ensures QueueExact(s.(jobs := s.jobs[id := job], queue := s.queue + [id]))
  {
    var e := s.(jobs := s.jobs[id := job], queue := s.queue + [id]);
    assert id !in s.queue;
    forall i | 0 <= i < |e.queue| ensures e.queue[i] in e.jobs && e.jobs[e.queue[i]].status == Queued {
      if i < |s.queue| { assert e.queue[i] == s.queue[i]; }
    }
  }

  /** A fresh id appended to the registry keeps it exact. */
  lemma RegistryAfterEnqueue(s: State, id: JobId, job: Job)
    requires RegistryExact(s) && id !in s.jobs
    ensures RegistryExact(s.(jobs := s.jobs[id := job], registered := s.registered + [id]))
  {
    assert id !in s.registered;
  }

  // ---------------------------------------------------------------------
  // Download, delete, list
  // ---------------------------------------------------------------------

  /** The download check: a recorded output file, or the archive's base name; then the file must exist. */
  function Download(s: State, id: JobId, filename: string, onDisk: bool): (r: Result<string, Rejection>)
    ensures r.Ok? <==> (id in s.jobs && onDisk
                        && ((s.jobs[id].files.Some? && filename in s.jobs[id].files.value)
                            || (s.jobs[id].zipFile.Some? && s.jobs[id].zipFile.value != ""
                                && filename == Basename(s.jobs[id].zipFile.value))))
    ensures r.Ok? ==> r.value == s.jobs[id].outputDir + "/" + filename
    ensures r == Err(AccessDenied) ==> id in s.jobs
  {
    if id !in s.jobs then Err(NotFound)
    else
      var job := s.jobs[id];
      var isValid := (job.files.Some? && filename in job.files.value)
                     || (job.zipFile.Some? && job.zipFile.value != "" && filename == Basename(job.zipFile.value));
      if !isValid then Err(AccessDenied)
      else if !onDisk then Err(FileMissing)
      else Ok(job.outputDir + "/" + filename)
  }

  /** `files.filter(file => file !== name)`. */
  function Without(files: seq<string>, name: string): (r: seq<string>)
    ensures name !in r
    ensures name !in files ==> r == files
    decreases |files|
  {
    if |files| == 0 then files
    else
      var init := files[..|files| - 1];
      var last := files[|files| - 1];
      assert files == init + [last];
      Without(init, name) + (if last == name then [] else [last])
  }

  /** Filtering drops every copy of the name and keeps every other file as often as before. */
  lemma {:induction false} WithoutCounts(files: seq<string>, name: string)
    ensures multiset(Without(files, name)) == multiset(files)[name := 0]
    decreases |files|
  {
    if |files| > 0 {
      var init := files[..|files| - 1];
      var last := files[|files| - 1];
      assert files == init + [last];
      WithoutCounts(init, name);
    }
  }

  /** With one occurrence of the name, the others stay in their order around it. */
  lemma {:induction false} WithoutSingle(files: seq<string>, k: nat)
    requires k < |files| && forall i :: 0 <= i < |files| && i != k ==> files[i] != files[k]
    ensures Without(files, files[k]) == files[..k] + files[k + 1..]
    decreases |files|
  {
    var name := files[k];
    var init := files[..|files| - 1];
    var last := files[|files| - 1];
    if k == |files| - 1 {
      assert name !in init by {
        forall i | 0 <= i < |init| ensures init[i] != name {
          assert init[i] == files[i];
        }
      }
      assert Without(files, name) == Without(init, name);
      assert files[k + 1..] == [];
    } else {
      assert init[k] == name && last != name;
      assert Without(files, name) == Without(init, name) + [last];
      WithoutSingle(init, k);
      assert init[..k] == files[..k];
      assert init[k + 1..] + [last] == files[k + 1..];
    }
  }

  /** The delete handler: only a recorded output file; it leaves the file list and always drops the archive. */
  function DeleteFile(s: State, id: JobId, filename: string): (r: Result<State, Rejection>)
    ensures r.Ok? <==> id in s.jobs && s.jobs[id].files.Some? && filename in s.jobs[id].files.value
    ensures r.Ok? ==> (r.value.jobs.Keys == s.jobs.Keys && r.value.queue == s.queue
                       && r.value.isProcessing == s.isProcessing && r.value.registered == s.registered
                       && forall x :: x in s.jobs && x != id ==> r.value.jobs[x] == s.jobs[x])
    ensures r.Ok? ==> var j := r.value.jobs[id];
      && j.files == Some(Without(s.jobs[id].files.value, filename))
      && j.zipFile.None?
      && j.(files := s.jobs[id].files, zipFile := s.jobs[id].zipFile) == s.jobs[id]
  {
    if id !in s.jobs then Err(NotFound)
    else
      var job := s.jobs[id];
      if !(job.files.Some? && filename in job.files.value) then Err(AccessDenied)
      else Ok(s.(jobs := s.jobs[id := job.(files := Some(Without(job.files.value, filename)), zipFile := None)]))
  }

  /** After a deletion the deleted file can no longer be downloaded, nor can the archive. */
  lemma DeletedFileDenied(s: State, id: JobId, filename: string, onDisk: bool)
    requires DeleteFile(s, id, filename).Ok?
    ensures Download(DeleteFile(s, id, filename).value, id, filename, onDisk) == Err(AccessDenied)
  {
  }

  lemma DeletePreservesInv(s: State, id: JobId, filename: string)
    requires Inv(s) && DeleteFile(s, id, filename).Ok?
    ensures Inv(DeleteFile(s, id, filename).value)
  {
    var job := s.jobs[id];
    ReplaceKeepsInv(s, id, job.(files := Some(Without(job.files.value, filename)), zipFile := None));
  }

  /** One row of the job list. */
  datatype JobSummary = JobSummary(jobId: JobId, propertyId: string, status: Status, createdAt: int, filesCount: nat, hasZip: bool)

  function Summary(job: Job): JobSummary {
    JobSummary(job.id, job.propertyId, job.status, job.createdAt,
               if job.files.Some? then |job.files.value| else 0, job.zipFile.Some? && job.zipFile.value != "")
  }

  ghost predicate NewestFirst(ids: seq<JobId>, jobs: map<JobId, Job>) {
    forall i, j :: 0 <= i < j < |ids| && ids[i] in jobs && ids[j] in jobs ==> jobs[ids[i]].createdAt >= jobs[ids[j]].createdAt
  }

  /** Insert `id` after every strictly newer job, so it goes in front of the jobs of its own time. */
  function InsertNewest(id: JobId, sorted: seq<JobId>, jobs: map<JobId, Job>): (r: seq<JobId>)
    requires id in jobs && forall x :: x in sorted ==> x in jobs
    ensures multiset(r) == multiset(sorted) + multiset{id}
    ensures forall x :: x in r ==> x == id || x in sorted
    ensures |r| == |sorted| + 1
    ensures |r| > 0 && (r[0] == id || (|sorted| > 0 && r[0] == sorted[0]))
    decreases |sorted|
  {
    if |sorted| == 0 || jobs[sorted[0]].createdAt <= jobs[id].createdAt then [id] + sorted
    else
      assert sorted == [sorted[0]] + sorted[1..];
      [sorted[0]] + InsertNewest(id, sorted[1..], jobs)
  }

  lemma {:induction false} InsertNewestSorted(id: JobId, sorted: seq<JobId>, jobs: map<JobId, Job>)
    requires id in jobs && forall x :: x in sorted ==> x in jobs
    requires NewestFirst(sorted, jobs)
    ensures NewestFirst(InsertNewest(id, sorted, jobs), jobs)
    decreases |sorted|
  {
    if |sorted| > 0 {
      HeadIsNewest(sorted, jobs);
      if jobs[sorted[0]].createdAt <= jobs[id].createdAt {
        ConsNewestFirst(id, sorted, jobs);
      } else {
        assert NewestFirst(sorted[1..], jobs);
        InsertNewestSorted(id, sorted[1..], jobs);
        InsertNewestBounded(id, sorted[1..], jobs, jobs[sorted[0]].createdAt);
        ConsNewestFirst(sorted[0], InsertNewest(id, sorted[1..], jobs), jobs);
      }
    }
  }

  /** The head of a newest-first list is at least as new as every job in it. */
  lemma HeadIsNewest(sorted: seq<JobId>, jobs: map<JobId, Job>)
    requires |sorted| > 0 && (forall x :: x in sorted ==> x in jobs) && NewestFirst(sorted, jobs)
    ensures forall k :: 0 <= k < |sorted| ==> jobs[sorted[k]].createdAt <= jobs[sorted[0]].createdAt
  {
    forall k | 0 < k < |sorted| ensures jobs[sorted[k]].createdAt <= jobs[sorted[0]].createdAt {
      assert sorted[k] in sorted;
    }
  }

  /** A job at least as new as every job of a newest-first list may go in front of it. */
  lemma ConsNewestFirst(h: JobId, t: seq<JobId>, jobs: map<JobId, Job>)
    requires h in jobs && NewestFirst(t, jobs)
    requires forall k :: 0 <= k < |t| && t[k] in jobs ==> jobs[t[k]].createdAt <= jobs[h].createdAt
    ensures NewestFirst([h] + t, jobs)
  {
    var r := [h] + t;
    forall i, j | 0 <= i < j < |r| && r[i] in jobs && r[j] in jobs ensures jobs[r[i]].createdAt >= jobs[r[j]].createdAt {
      if i == 0 {
        assert r[j] == t[j - 1];
      } else {
        assert r[i] == t[i - 1] && r[j] == t[j - 1];
      }
    }
  }

  /** Inserting a job no newer than a bound into jobs no newer than it gives jobs no newer than it. */
  lemma {:induction false} InsertNewestBounded(id: JobId, sorted: seq<JobId>, jobs: map<JobId, Job>, bound: int)
    requires id in jobs && forall x :: x in sorted ==> x in jobs
    requires jobs[id].createdAt <= bound
    requires forall k :: 0 <= k < |sorted| ==> jobs[sorted[k]].createdAt <= bound
    ensures forall k :: 0 <= k < |InsertNewest(id, sorted, jobs)| ==> jobs[InsertNewest(id, sorted, jobs)[k]].createdAt <= bound
    decreases |sorted|
  {
    if !(|sorted| == 0 || jobs[sorted[0]].createdAt <= jobs[id].createdAt) {
      InsertNewestBounded(id, sorted[1..], jobs, bound);
      var rest := InsertNewest(id, sorted[1..], jobs);
      var r := [sorted[0]] + rest;
      assert jobs[sorted[0]].createdAt <= bound;
      forall k | 0 <= k < |r| ensures jobs[r[k]].createdAt <= bound {
        if k > 0 {
          assert r[k] == rest[k - 1];
        }
      }
    } else {
      var r := [id] + sorted;
      forall k | 0 <= k < |r| ensures jobs[r[k]].createdAt <= bound {
        if k > 0 {
          assert r[k] == sorted[k - 1];
        }
      }
    }
  }

  /**
   * `Object.values(jobs).sort((a, b) => b.createdAt - a.createdAt)`, as ids:
   * an insertion sort that, like `Array.prototype.sort`, is stable.
   */
  function SortNewestFirst(ids: seq<JobId>, jobs: map<JobId, Job>): (r: seq<JobId>)
    requires forall x :: x in ids ==> x in jobs
    ensures multiset(r) == multiset(ids)
    ensures |r| == |ids| && forall x :: x in r ==> x in ids
    ensures NewestFirst(r, jobs)
    decreases |ids|
  {
    if |ids| == 0 then []
    else
      assert ids == [ids[0]] + ids[1..];
      var rest := SortNewestFirst(ids[1..], jobs);
      InsertNewestSorted(ids[0], rest, jobs);
      InsertNewest(ids[0], rest, jobs)
  }

  /** The jobs of `ids` created at time `t`, in the order of `ids`. */
  function CreatedAt(ids: seq<JobId>, jobs: map<JobId, Job>, t: int): seq<JobId>
    requires forall x :: x in ids ==> x in jobs
    decreases |ids|
  {
    if |ids| == 0 then []
    else (if jobs[ids[0]].createdAt == t then [ids[0]] else []) + CreatedAt(ids[1..], jobs, t)
  }

  /** Inserting a job puts it in front of the other jobs of its own time and leaves the other times alone. */
  lemma {:induction false} InsertNewestCreatedAt(id: JobId, sorted: seq<JobId>, jobs: map<JobId, Job>, t: int)
    requires id in jobs && forall x :: x in sorted ==> x in jobs
    ensures CreatedAt(InsertNewest(id, sorted, jobs), jobs, t)
         == (if jobs[id].createdAt == t then [id] else []) + CreatedAt(sorted, jobs, t)
    decreases |sorted|
  {
    var r := InsertNewest(id, sorted, jobs);
    if |sorted| == 0 || jobs[sorted[0]].createdAt <= jobs[id].createdAt {
      assert r[1..] == sorted;
    } else {
      assert r[1..] == InsertNewest(id, sorted[1..], jobs);
      InsertNewestCreatedAt(id, sorted[1..], jobs, t);
    }
  }

  /**
   * The sort is stable: for every time, the jobs created then come out in the
   * order they went in.
   */
  lemma {:induction false} SortNewestFirstStable(ids: seq<JobId>, jobs: map<JobId, Job>, t: int)
    requires forall x :: x in ids ==> x in jobs
    ensures CreatedAt(SortNewestFirst(ids, jobs), jobs, t) == CreatedAt(ids, jobs, t)
    decreases |ids|
  {
    if |ids| > 0 {
      SortNewestFirstStable(ids[1..], jobs, t);
      InsertNewestCreatedAt(ids[0], SortNewestFirst(ids[1..], jobs), jobs, t);
    }
  }

  /** The list handler: every registered job's summary, newest first. */
  function ListJobs(s: State): (list: seq<JobSummary>)
    requires forall x :: x in s.registered ==> x in s.jobs
    ensures |list| == |s.registered|
    ensures forall k :: 0 <= k < |list| ==> exists x :: x in s.registered && list[k] == Summary(s.jobs[x])
    ensures forall i, j :: 0 <= i < j < |list| ==> list[i].createdAt >= list[j].createdAt
  {
    var ids := SortNewestFirst(s.registered, s.jobs);
    var list := seq(|ids|, i requires 0 <= i < |ids| => Summary(s.jobs[ids[i]]));
    assert forall k :: 0 <= k < |list| ==> ids[k] in s.registered && list[k] == Summary(s.jobs[ids[k]]);
    list
  }

  /** Under the invariant the list holds each registered job exactly once. */
  lemma ListJobsComplete(s: State)
    requires Inv(s)
    ensures var ids := SortNewestFirst(s.registered, s.jobs);
      && NoDuplicates(ids)
      && (forall x :: x in s.jobs <==> x in ids)
  {
    var ids := SortNewestFirst(s.registered, s.jobs);
    PermutationKeepsNoDuplicates(ids, s.registered);
    forall x ensures x in s.jobs <==> x in ids {
      assert x in ids <==> x in multiset(ids);
    }
  }

  lemma PermutationKeepsNoDuplicates(a: seq<JobId>, b: seq<JobId>)
    requires multiset(a) == multiset(b) && NoDuplicates(b)
    ensures NoDuplicates(a)
  {
    forall i, j | 0 <= i < j < |a| ensures a[i] != a[j] {
      if a[i] == a[j] {
        var x := a[i];
        assert a == a[..j] + a[j..];
        assert x in a[..j] && x in a[j..];
        assert multiset(a)[x] == multiset(a[..j])[x] + multiset(a[j..])[x];
        NoDuplicatesCount(b, x);
      }
    }
  }

  lemma {:induction false} NoDuplicatesCount(q: seq<JobId>, x: JobId)
    requires NoDuplicates(q)
    ensures multiset(q)[x] <= 1
    decreases |q|
  {
    if |q| > 0 {
      assert q == [q[0]] + q[1..];
      NoDuplicatesCount(q[1..], x);
    }
  }

  // ---------------------------------------------------------------------
  // Spawn arguments and source-language detection
  // ---------------------------------------------------------------------

  /** The argument vector every launcher passes after its command (and, for Python, the script path). */
  function RendererArgs(job: Job, settingsJson: string): (args: seq<string>)
    ensures |args| == |job.images| + 7
    ensures args[0] == "--images" && args[1..|job.images| + 1] == job.images
    ensures args[|job.images| + 1..] == ["--id", job.propertyId, "--output", job.outputDir, "--settings", settingsJson]
  {
    ["--images"] + job.images + ["--id", job.propertyId, "--output", job.outputDir, "--settings", settingsJson]
  }

  /** The values the orchestrator passes are not mistaken for options. */
  predicate PlainValues(job: Job, settingsJson: string) {
    && (forall k :: 0 <= k < |job.images| ==> !IsOptionLike(job.images[k]))
    && !IsOptionLike(job.propertyId) && !IsOptionLike(job.outputDir) && !IsOptionLike(settingsJson)
  }

  /**
   * The renderer's parser reads back exactly the job's images, property id,
   * output directory and settings, when there is at least one image and no
   * value looks like an option.
   */
  lemma RendererArgsRoundTrip(job: Job, settingsJson: string)
    requires |job.images| > 0 && PlainValues(job, settingsJson)
    ensures ParseRendererArgs(RendererArgs(job, settingsJson))
         == Ok(RendererArguments(job.images, job.propertyId, job.outputDir, settingsJson))
  {
    var args := RendererArgs(job, settingsJson);
    var n := |job.images|;
    var tail := ["--id", job.propertyId, "--output", job.outputDir, "--settings", settingsJson];
    var t2 := ["--output", job.outputDir, "--settings", settingsJson];
    var t4 := ["--settings", settingsJson];
    var seen := SeenOptions(Some(job.images), None, None, None);
    ValueRunIsFirstOption(args[1..], n);
    assert args[1..][n] == "--id";
    assert args[1..1 + n] == job.images && args[1 + n..] == tail;
    assert ParseRendererArgs(args) == ParseFrom(tail, seen);
    ValueRunIsFirstOption(tail[1..], 1);
    assert tail[2..] == t2;
    assert ParseFrom(tail, seen) == ParseFrom(t2, seen.(id := Some(job.propertyId)));
    ValueRunIsFirstOption(t2[1..], 1);
    assert t2[2..] == t4;
    assert ParseFrom(t2, seen.(id := Some(job.propertyId)))
        == ParseFrom(t4, seen.(id := Some(job.propertyId), output := Some(job.outputDir)));
    ValueRunIsFirstOption(t4[1..], 1);
    assert t4[2..] == [];
  }

  /** A job without images makes the renderer stop with a usage error (exit status 2). */
  lemma RendererArgsWithoutImages(job: Job, settingsJson: string)
    requires job.images == []
    ensures ParseRendererArgs(RendererArgs(job, settingsJson)) == Err(UsageExitCode)
  {
    var args := RendererArgs(job, settingsJson);
    assert args[1] == "--id";
    ValueRunIsFirstOption(args[1..], 0);
  }

  datatype Launch = Launch(cmd: string, args: seq<string>)

  /**
   * The launcher choice: outside development the bundled executable (the
   * working-directory copy first, then the resources copy); otherwise, or
   * when neither exists, the Python interpreter with the script first.
   */
  function ChooseLaunch(job: Job, settingsJson: string, isDev: bool, isWin: bool,
                        devExe: string, devExeExists: bool, prodExe: string, prodExeExists: bool,
                        script: string): (l: Launch)
    ensures !isDev && devExeExists ==> l == Launch(devExe, RendererArgs(job, settingsJson))
    ensures !isDev && !devExeExists && prodExeExists ==> l == Launch(prodExe, RendererArgs(job, settingsJson))
    ensures isDev || (!devExeExists && !prodExeExists) ==>
      && l.args == [script] + RendererArgs(job, settingsJson)
      && l.cmd == (if isWin then "C:\\Users\\User\\AppData\\Local\\Programs\\Python\\Python311\\python.exe" else "python3")
  {
    if !isDev && devExeExists then Launch(devExe, RendererArgs(job, settingsJson))
    else if !isDev && prodExeExists then Launch(prodExe, RendererArgs(job, settingsJson))
    else Launch(if isWin then "C:\\Users\\User\\AppData\\Local\\Programs\\Python\\Python311\\python.exe" else "python3",
                [script] + RendererArgs(job, settingsJson))
  }

  /**
   * Whatever launcher is chosen, its arguments end with the renderer's
   * arguments (after the script path for the interpreter), so the renderer
   * parses back the job's own data.
   */
  lemma LaunchPassesJob(job: Job, settingsJson: string, isDev: bool, isWin: bool,
                        devExe: string, devExeExists: bool, prodExe: string, prodExeExists: bool,
                        script: string)
    requires |job.images| > 0 && PlainValues(job, settingsJson)
    ensures var l := ChooseLaunch(job, settingsJson, isDev, isWin, devExe, devExeExists, prodExe, prodExeExists, script);
      var skip := if isDev || (!devExeExists && !prodExeExists) then 1 else 0;
      && skip <= |l.args|
      && ParseRendererArgs(l.args[skip..]) == Ok(RendererArguments(job.images, job.propertyId, job.outputDir, settingsJson))
  {
    var l := ChooseLaunch(job, settingsJson, isDev, isWin, devExe, devExeExists, prodExe, prodExeExists, script);
    RendererArgsRoundTrip(job, settingsJson);
    if isDev || (!devExeExists && !prodExeExists) {
      assert l.args[1..] == RendererArgs(job, settingsJson);
    } else {
      assert l.args[0..] == RendererArgs(job, settingsJson);
    }
  }

  predicate IsHangul(c: char) {
    ('\U{1100}' <= c <= '\U{11FF}') || ('\U{3130}' <= c <= '\U{318F}') || ('\U{AC00}' <= c <= '\U{D7AF}')
  }

  predicate IsGeorgian(c: char) {
    '\U{10A0}' <= c <= '\U{10FF}'
  }

  predicate IsCyrillic(c: char) {
    '\U{0400}' <= c <= '\U{04FF}'
  }

  /** `detectSourceLanguage`: Korean if any Hangul, else Georgian, else Russian, else English. */
  function DetectSourceLanguage(text: string): (lang: string)
    ensures lang == "ko" <==> exists i :: 0 <= i < |text| && IsHangul(text[i])
    ensures lang == "ka" <==> (forall i :: 0 <= i < |text| ==> !IsHangul(text[i])) && exists i :: 0 <= i < |text| && IsGeorgian(text[i])
    ensures lang == "ru" <==> (forall i :: 0 <= i < |text| ==> !IsHangul(text[i]) && !IsGeorgian(text[i]))
                              && exists i :: 0 <= i < |text| && IsCyrillic(text[i])
    ensures lang == "en" <==> forall i :: 0 <= i < |text| ==> !IsHangul(text[i]) && !IsGeorgian(text[i]) && !IsCyrillic(text[i])
  {
    if exists i :: 0 <= i < |text| && IsHangul(text[i]) then "ko"
    else if exists i :: 0 <= i < |text| && IsGeorgian(text[i]) then "ka"
    else if exists i :: 0 <= i < |text| && IsCyrillic(text[i]) then "ru"
    else "en"
  }

  /** The order in which scripts win: Korean over Georgian over Russian over English. */
  function LanguageRank(lang: string): nat {
    if lang == "ko" then 3 else if lang == "ka" then 2 else if lang == "ru" then 1 else 0
  }

  /** The language of one character on its own. */
  function CharLanguage(c: char): string {
    if IsHangul(c) then "ko" else if IsGeorgian(c) then "ka" else if IsCyrillic(c) then "ru" else "en"
  }

  /** A text made of one character is in that character's language. */
  lemma DetectOneChar(c: char)
    ensures DetectSourceLanguage([c]) == CharLanguage(c)
  {
    assert [c][0] == c;
  }

  /** The language of two texts together is whichever of their languages ranks higher. */
  lemma DetectConcat(a: string, b: string)
    ensures var la, lb := DetectSourceLanguage(a), DetectSourceLanguage(b);
      DetectSourceLanguage(a + b) == if LanguageRank(la) >= LanguageRank(lb) then la else lb
  {
    var t := a + b;
    assert forall i :: 0 <= i < |a| ==> t[i] == a[i];
    assert forall i :: 0 <= i < |b| ==> t[|a| + i] == b[i];
    assert forall i :: |a| <= i < |t| ==> t[i] == b[i - |a|];
  }

  // ---------------------------------------------------------------------
  // The handlers as written, against the corrected ones
  // ---------------------------------------------------------------------

  /**
   * The scenario of the findings on the child's late events: job `a` runs and
   * `b`, then `c`, wait behind it.
   */
  predicate RunsThenTwoWait(s: State, a: JobId, b: JobId, c: JobId) {
    && a in s.jobs && b in s.jobs && c in s.jobs
    && a != b && a != c && b != c && b != "" && c != ""
    && s.jobs[a].status == Running && s.jobs[a].process && s.isProcessing
    && s.jobs[b].status == Queued && s.jobs[c].status == Queued
    && s.queue == [b, c]
  }

  /**
   * After `a` is canceled and the deferred drain has run, `b` runs, `c` waits,
   * and `a` is canceled while its child has not gone yet.
   */
  lemma CancelThenDrain(s: State, a: JobId, b: JobId, c: JobId)
    requires RunsThenTwoWait(s, a, b, c)
    ensures var s2 := Drain(Cancel(s, a).value);
      && s2.queue == [c] && s2.isProcessing
      && a in s2.jobs && b in s2.jobs && c in s2.jobs
      && s2.jobs[a].status == Canceled && s2.jobs[a].process
      && s2.jobs[b].status == Running && s2.jobs[c].status == Queued
  {
    var s1 := Cancel(s, a).value;
    assert s1 == s.(jobs := s.jobs[a := s.jobs[a].(status := Canceled)], isProcessing := false);
    assert Drain(s1) == Start(s1.(queue := [c]), b);
  }

  /** With `b` running, the slot free and `c` at the head of the queue, a drain starts `c` next to `b`. */
  lemma SecondStart(s: State, b: JobId, c: JobId)
    requires s.queue == [c] && !s.isProcessing && b in s.jobs && c in s.jobs && b != c && c != ""
    requires s.jobs[b].status == Running && s.jobs[c].status == Queued
    ensures Drain(s).jobs[b].status == Running && Drain(s).jobs[c].status == Running
    ensures !AtMostOneRunning(Drain(s))
  {
    assert Drain(s) == Start(s.(queue := []), c);
  }

  /**
   * As written: cancel `a`, let the next drain start `b`, and then `a`'s child
   * closes, whatever its exit: by the end of its `close` handler the slot has
   * been freed again and the handler's drain has started `c` while `b` still
   * runs.
   */
  lemma LateCloseRunsTwoJobs(s: State, a: JobId, b: JobId, c: JobId, code: Option<int>,
                             decode: string -> Option<ResultRecord>, zipError: Option<string>)
    requires RunsThenTwoWait(s, a, b, c)
    ensures var s3 := CloseThroughAsWritten(Drain(Cancel(s, a).value), a, code, decode, zipError);
      && s3.jobs[b].status == Running && s3.jobs[c].status == Running
      && !AtMostOneRunning(s3)
  {
    CancelThenDrain(s, a, b, c);
    var s2 := Drain(Cancel(s, a).value);
    var job := s2.jobs[a].(process := false);
    var ended :=
      if code == Some(0) then CleanExit(job, decode)
      else if job.status != Canceled then FailedExit(job, code)
      else job;
    var freed := s2.(jobs := s2.jobs[a := ended], isProcessing := false);
    assert CloseAsWritten(s2, a, code, decode) == if ended.packing then freed else Drain(freed);
    LateCloseOfCanceled(s2, a, b, c, ended, zipError);
  }

  /**
   * The as-written `close` of the canceled `a`'s child, once `b` runs and `c`
   * waits, whatever record it reconciles to: the slot is freed and `c` starts too.
   */
  lemma LateCloseOfCanceled(s2: State, a: JobId, b: JobId, c: JobId, ended: Job, zipError: Option<string>)
    requires s2.queue == [c] && a in s2.jobs && b in s2.jobs && c in s2.jobs
    requires a != b && a != c && b != c && c != ""
    requires s2.jobs[b].status == Running && s2.jobs[c].status == Queued
    ensures var freed := s2.(jobs := s2.jobs[a := ended], isProcessing := false);
      var s3 := ZipSettledAsWritten(if ended.packing then freed else Drain(freed), a, zipError);
      && s3.jobs[b].status == Running && s3.jobs[c].status == Running
      && !AtMostOneRunning(s3)
  {
    var freed := s2.(jobs := s2.jobs[a := ended], isProcessing := false);
    if ended.packing {
      var settled := freed.(jobs := freed.jobs[a := Packaged(ended, zipError)]);
      assert ZipSettledAsWritten(freed, a, zipError) == Drain(settled);
      SecondStart(settled, b, c);
    } else {
      var started := Drain(freed);
      assert started == Start(freed.(queue := []), c);
      assert ZipSettledAsWritten(started, a, zipError) == started;
      SecondStart(freed, b, c);
    }
  }

  /** As written: the same happens when the canceled child reports an `error` event late. */
  lemma LateSpawnErrorRunsTwoJobs(s: State, a: JobId, b: JobId, c: JobId, message: string)
    requires RunsThenTwoWait(s, a, b, c)
    ensures var s3 := SpawnErrorAsWritten(Drain(Cancel(s, a).value), a, message);
      && s3.jobs[b].status == Running && s3.jobs[c].status == Running
      && !AtMostOneRunning(s3)
  {
    CancelThenDrain(s, a, b, c);
    var s2 := Drain(Cancel(s, a).value);
    var job := s2.jobs[a].(status := Error, error := Some("Failed to spawn python process: " + message));
    SecondStart(s2.(jobs := s2.jobs[a := job], isProcessing := false), b, c);
  }

  /** Corrected: the same events leave `a` canceled, `b` the only job running and `c` waiting. */
  lemma LateCloseCorrected(s: State, a: JobId, b: JobId, c: JobId, code: Option<int>,
                           decode: string -> Option<ResultRecord>)
    requires Inv(s) && RunsThenTwoWait(s, a, b, c)
    ensures var s3 := Close(Drain(Cancel(s, a).value), a, code, decode);
      && s3.jobs[a].status == Canceled && s3.jobs[b].status == Running && s3.jobs[c].status == Queued
      && Inv(s3)
  {
    CancelThenDrain(s, a, b, c);
    CloseWhileOtherRuns(Drain(Cancel(s, a).value), a, code, decode);
    LateCloseKeepsInv(s, a, code, decode);
  }

  /** Cancel, drain, then the canceled child's `close`: the corrected handlers keep the invariant. */
  lemma LateCloseKeepsInv(s: State, a: JobId, code: Option<int>, decode: string -> Option<ResultRecord>)
    requires Inv(s) && a in s.jobs && s.jobs[a].status == Running && s.jobs[a].process
    ensures Inv(Close(Drain(Cancel(s, a).value), a, code, decode))
  {
    CancelRunning(s, a);
    DrainPreservesInv(Cancel(s, a).value);
    ClosePreservesInv(Drain(Cancel(s, a).value), a, code, decode);
  }

  /** The corrected `close` of a job that no longer runs, while the slot is taken, only drops the child. */
  lemma CloseWhileOtherRuns(s: State, id: JobId, code: Option<int>, decode: string -> Option<ResultRecord>)
    requires id in s.jobs && s.jobs[id].status != Running && s.isProcessing
    ensures Close(s, id, code, decode) == s.(jobs := s.jobs[id := s.jobs[id].(process := false)])
  {
  }

  /**
   * As written: the child had already printed its success record when `a` was
   * canceled, and exits with code 0: the `close` handler packages the
   * canceled job and marks it done.
   */
  lemma CloseAfterCancelCompletes(s: State, a: JobId, decode: string -> Option<ResultRecord>, files: seq<string>)
    requires Inv(s) && a in s.jobs && s.jobs[a].status == Running && s.jobs[a].process
    requires LastRecord(s.jobs[a].stdout, decode) == Some(ResultRecord("success", Some(files), ""))
    ensures var s1 := Cancel(s, a).value;
      var s2 := CloseThroughAsWritten(s1, a, Some(0), decode, None);
      s1.jobs[a].status == Canceled && s2.jobs[a].status == Done && s2.jobs[a].zipFile.Some?
  {
    CancelRunning(s, a);
    var s1 := Cancel(s, a).value;
    var ended := CleanExit(s1.jobs[a].(process := false), decode);
    var freed := s1.(jobs := s1.jobs[a := ended], isProcessing := false);
    NotQueued(s, a);
    DrainKeepsUnqueued(freed.(jobs := freed.jobs[a := Packaged(ended, None)]), a);
  }

  /** Corrected: the canceled job stays canceled and gets no archive. */
  lemma CloseAfterCancelCorrected(s: State, a: JobId, decode: string -> Option<ResultRecord>, files: seq<string>)
    requires Inv(s) && a in s.jobs && s.jobs[a].status == Running && s.jobs[a].process
    requires LastRecord(s.jobs[a].stdout, decode) == Some(ResultRecord("success", Some(files), ""))
    ensures var s2 := ZipSettled(Close(Cancel(s, a).value, a, Some(0), decode), a, None);
      s2.jobs[a].status == Canceled && s2.jobs[a].zipFile.None?
  {
    CancelRunning(s, a);
    var s1 := Cancel(s, a).value;
    DrainKeepsUnqueued(s1.(jobs := s1.jobs[a := s1.jobs[a].(process := false)]), a);
  }

  /**
   * As written: `a`'s child exits 0 with a success record, and the `close`
   * handler awaits the archive with the slot already free and `a` still
   * running. A submission arriving meanwhile drains the queue, which starts
   * `b` next to `a`.
   */
  lemma PackagingWindowRunsTwoJobs(s: State, a: JobId, b: JobId, c: JobId, decode: string -> Option<ResultRecord>,
                                   files: seq<string>, req: Submission, freshId: JobId, now: int)
    requires RunsThenTwoWait(s, a, b, c)
    requires LastRecord(s.jobs[a].stdout, decode) == Some(ResultRecord("success", Some(files), ""))
    requires freshId != "" && freshId !in s.jobs && req.settings.Some? && req.overlay.Some?
    requires SubmittedId(req, freshId) !in s.jobs
    ensures var s1 := CloseAsWritten(s, a, Some(0), decode);
      && !s1.isProcessing && s1.jobs[a].status == Running
      && SubmitAsWritten(s1, req, freshId, now).Ok?
      && var s2 := SubmitAsWritten(s1, req, freshId, now).value.0;
        s2.jobs[a].status == Running && s2.jobs[b].status == Running && !AtMostOneRunning(s2)
  {
    var s1 := CloseAsWritten(s, a, Some(0), decode);
    var id := SubmittedId(req, freshId);
    var e := s1.(jobs := s1.jobs[id := NewJob(req, id, now)], queue := s1.queue + [id], registered := s1.registered + [id]);
    assert SubmitAsWritten(s1, req, freshId, now) == Ok((Drain(e), id));
    assert e.queue == [b, c, id];
    assert Drain(e) == Start(e.(queue := [c, id]), b);
  }

  /** Corrected: the slot stays taken while `a`'s archive is built, so the same submission only queues. */
  lemma PackagingWindowCorrected(s: State, a: JobId, b: JobId, c: JobId, decode: string -> Option<ResultRecord>,
                                 files: seq<string>, req: Submission, freshId: JobId, now: int)
    requires Inv(s) && RunsThenTwoWait(s, a, b, c)
    requires LastRecord(s.jobs[a].stdout, decode) == Some(ResultRecord("success", Some(files), ""))
    requires freshId != "" && freshId !in s.jobs && req.settings.Some? && req.overlay.Some?
    requires SubmittedId(req, freshId) !in s.jobs
    ensures var s1 := Close(s, a, Some(0), decode);
      && Submit(s1, req, freshId, now).Ok?
      && var s2 := Submit(s1, req, freshId, now).value.0;
        s2.jobs[a].status == Running && s2.jobs[b].status == Queued && Inv(s2)
  {
    CloseSuccess(s, a, decode, files);
    var s1 := Close(s, a, Some(0), decode);
    ClosePreservesInv(s, a, Some(0), decode);
    SubmitWhileBusyKeeps(s1, req, freshId, now, a);
    SubmitWhileBusyKeeps(s1, req, freshId, now, b);
    SubmitPreservesInv(s1, req, freshId, now);
  }

  /** While the slot is taken, an accepted submission leaves every existing job as it was. */
  lemma SubmitWhileBusyKeeps(s: State, req: Submission, freshId: JobId, now: int, x: JobId)
    requires s.isProcessing && freshId != "" && freshId !in s.jobs && req.settings.Some? && req.overlay.Some?
    requires SubmittedId(req, freshId) !in s.jobs && x in s.jobs
    ensures Submit(s, req, freshId, now).Ok? && Submit(s, req, freshId, now).value.0.jobs[x] == s.jobs[x]
  {
    SubmitEnqueues(s, req, freshId, now);
  }

  /**
   * As written: a client that submits again under the id of the job that is
   * running replaces its record by a queued one: the slot is taken, yet no
   * recorded job is running, and the running child can no longer be reached
   * through its id (a cancel finds the queued record).
   */
  lemma ResubmittedIdHidesRunningJob(s: State, req: Submission, freshId: JobId, now: int)
    requires Inv(s) && freshId != "" && freshId !in s.jobs
    requires req.settings.Some? && req.overlay.Some?
    requires req.jobId in s.jobs && s.jobs[req.jobId].status == Running
    ensures var r := SubmitAsWritten(s, req, freshId, now);
      && r.Ok? && r.value.0.isProcessing && r.value.0.jobs[req.jobId].status == Queued
      && !SomeRunning(r.value.0) && !Inv(r.value.0)
  {
    var a := req.jobId;
    assert SomeRunning(s);
    var e := s.(jobs := s.jobs[a := NewJob(req, a, now)], queue := s.queue + [a]);
    assert SubmitAsWritten(s, req, freshId, now) == Ok((e, a));
    forall x | x in e.jobs ensures e.jobs[x].status != Running {
      if x != a {
        assert e.jobs[x] == s.jobs[x];
      }
    }
  }

  /** Corrected: the same submission is refused and the running job is left alone. */
  lemma ResubmittedIdRefused(s: State, req: Submission, freshId: JobId, now: int)
    requires freshId != "" && freshId !in s.jobs
    requires req.settings.Some? && req.overlay.Some?
    requires req.jobId != "" && req.jobId in s.jobs && s.jobs[req.jobId].status == Running
    ensures Submit(s, req, freshId, now) == Err(DuplicateJobId)
  {
  }

  // ---------------------------------------------------------------------
  // A state of the findings' scenario
  // ---------------------------------------------------------------------

  const NoOverlay := TextOverlay(None, None, NotANumber, NotANumber, NotANumber, None, "")

  /** A job with no output, in the given status. */
  function SampleJob(id: JobId, status: Status, process: bool, progress: Option<map<string, int>>): Job {
    Job(id, status, ["a.jpg"], JobSettings("{}", None, NoOverlay), "prop", 0, OutputsDir + "/" + id,
        None, None, None, process, false, progress, [], "")
  }

  /** Job `a` runs, `b` and `c` wait behind it. */
  function BusyState(): State {
    State(map["a" := SampleJob("a", Running, true, Some(InitialProgress)),
              "b" := SampleJob("b", Queued, false, None),
              "c" := SampleJob("c", Queued, false, None)],
          ["b", "c"], true, ["a", "b", "c"])
  }

  /** The findings' scenario can occur: the sample state satisfies the invariant and fits it. */
  lemma BusyStateFits()
    ensures Inv(BusyState()) && RunsThenTwoWait(BusyState(), "a", "b", "c")
  {
    BusyStateInv();
    BusyStateJobs();
  }

  lemma BusyStateInv()
    ensures Inv(BusyState())
  {
    BusyStateJobs();
    BusyStateQueue();
    BusyStateSlot();
  }

  /** Who is who in the sample state. */
  lemma BusyStateJobs()
    ensures var s := BusyState();
      && s.jobs.Keys == {"a", "b", "c"}
      && s.jobs["a"].status == Running && s.jobs["b"].status == Queued && s.jobs["c"].status == Queued
      && (forall id :: id in s.jobs ==> s.jobs[id].id == id && s.jobs[id].zipFile.None?)
      && (forall id :: id in s.jobs && s.jobs[id].progress.Some? ==> id == "a")
  {
  }

  lemma BusyStateQueue()
    ensures QueueExact(BusyState())
  {
    BusyStateJobs();
  }

  lemma BusyStateSlot()
    ensures SlotExact(BusyState())
  {
    BusyStateJobs();
    var s := BusyState();
    assert s.jobs["a"].process;
  }
}
