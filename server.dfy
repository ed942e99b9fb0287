/**
 * The orchestrator's module-level state in api/app.ts (`jobs`, `queue`,
 * `isProcessing`) as an object whose handlers update it in place. Each
 * handler is proved to perform the event the state machine in
 * orchestrator.dfy describes, and so to keep the scheduler invariant.
 */
module Server {
  import opened Wrappers
  import opened Protocol
  import opened Orchestrator

  /**
   * The backward scan of the `close` handler: walk the stdout lines from the
   * last to the first and stop at the first one that decodes to a record with
   * a truthy `status`.
   */
  method ScanResult(lines: seq<string>, decode: string -> Option<ResultRecord>) returns (result: Option<ResultRecord>)
    ensures result == LastRecord(lines, decode)
    ensures result.Some? ==> Recognised(result)
  {
    var i := |lines|;
    while i > 0
      invariant 0 <= i <= |lines|
      invariant LastRecord(lines, decode) == LastRecord(lines[..i], decode)
    {
      var parsed := decode(lines[i - 1]);
      if Recognised(parsed) {
        assert lines[..i][i - 1] == lines[i - 1];
        return parsed;
      }
      assert lines[..i][..i - 1] == lines[..i - 1];
      i := i - 1;
    }
    return None;
  }

  class JobServer {
    var jobs: map<JobId, Job>
    var queue: seq<JobId>
    var isProcessing: bool
    var registered: seq<JobId>

    /** The server's state as a value. */
    function State(): State
      reads this
    {
      Orchestrator.State(jobs, queue, isProcessing, registered)
    }

    ghost predicate Valid()
      reads this
    {
      Inv(State())
    }

    constructor ()
      ensures State() == EmptyState && Valid()
    {
      jobs := map[];
      queue := [];
      isProcessing := false;
      registered := [];
      new;
      EmptyStateInv();
    }

    /** `processQueue`. */
    method ProcessQueue()
      modifies this
      ensures State() == Drain(old(State()))
      decreases |queue|
    {
      if isProcessing || |queue| == 0 {
        return;
      }
      var id := queue[0];
      queue := queue[1..];
      if id == "" {
        return;
      }
      if id !in jobs || jobs[id].status == Canceled {
        ProcessQueue();
        return;
      }
      var job := jobs[id];
      isProcessing := true;
      jobs := jobs[id := job.(status := Running, progress := Some(InitialProgress), process := true, stdout := [], stderr := "")];
    }

    /** The submission handler: register, enqueue, drain; a malformed request or an id in use is refused. */
    method Submit(req: Submission, freshId: JobId, now: int) returns (r: Result<JobId, Rejection>)
      requires Valid() && freshId != "" && freshId !in jobs
      modifies this
      ensures Valid()
      ensures match Orchestrator.Submit(old(State()), req, freshId, now)
        case Ok((s, id)) => r == Ok(id) && State() == s
        case Err(e) => r == Err(e) && State() == old(State())
    {
      if req.settings.None? || req.overlay.None? {
        return Err(MalformedRequest);
      }
      var id := if req.jobId != "" then req.jobId else freshId;
      if id in jobs {
        return Err(DuplicateJobId);
      }
      ghost var s0 := State();
      jobs := jobs[id := NewJob(req, id, now)];
      queue := queue + [id];
      registered := registered + [id];
      assert State() == Enqueued(s0, req, id, now);
      ProcessQueue();
      SubmitEnqueues(s0, req, freshId, now);
      SubmitPreservesInv(s0, req, freshId, now);
      return Ok(id);
    }

    /** The cancel handler; the drain that follows a running job's cancellation is the caller's next event. */
    method Cancel(id: JobId) returns (r: Result<(), Rejection>)
      requires Valid()
      modifies this
      ensures Valid()
      ensures match Orchestrator.Cancel(old(State()), id)
        case Ok(s) => r == Ok(()) && State() == s
        case Err(e) => r == Err(e) && State() == old(State())
    {
      if id !in jobs {
        return Err(NotFound);
      }
      var job := jobs[id];
      ghost var s0 := State();
      if job.status == Running && job.process {
        jobs := jobs[id := job.(status := Canceled)];
        isProcessing := false;
        CancelRunning(s0, id);
      } else if job.status == Queued {
        jobs := jobs[id := job.(status := Canceled)];
        queue := RemoveFirst(queue, job.id);
        CancelQueued(s0, id);
      }
      return Ok(());
    }

    /** The child's stdout handler: buffer the chunk's lines. */
    method OnStdout(id: JobId, lines: seq<string>)
      requires Valid() && id in jobs
      modifies this
      ensures Valid()
      ensures State() == ChildOutput(old(State()), id, lines, [])
    {
      ChildOutputPreservesInv(State(), id, lines, []);
      jobs := jobs[id := StdoutLines(jobs[id], lines)];
    }

    /** The child's stderr handler: the chunk's lines one by one, each a progress marker or diagnostic text. */
    method OnStderr(id: JobId, lines: seq<string>)
      requires Valid() && id in jobs
      modifies this
      ensures Valid()
      ensures State() == ChildOutput(old(State()), id, [], lines)
    {
      ChildOutputPreservesInv(State(), id, [], lines);
      assert StdoutLines(jobs[id], []) == jobs[id];
      var job := ReadStderr(jobs[id], lines);
      jobs := jobs[id := job];
    }

    /**
     * The child's `close` handler, up to its `await`: reconcile the exit of a
     * job that still runs with its child; the slot stays taken while its
     * archive is built, and is freed, with a drain, when the job ends here.
     */
    method OnClose(id: JobId, code: Option<int>, decode: string -> Option<ResultRecord>)
      requires Valid() && id in jobs
      modifies this
      ensures Valid()
      ensures State() == Close(old(State()), id, code, decode)
    {
      ghost var s0 := State();
      var job := jobs[id].(process := false);
      if jobs[id].status != Running || !jobs[id].process {
        jobs := jobs[id := job];
        ghost var dropped := State();
        assert dropped == s0.(jobs := s0.jobs[id := job]);
        ProcessQueue();
        assert State() == Drain(dropped) == Close(s0, id, code, decode);
      } else {
        ghost var child := job;
        job := Reconcile(job, code, decode);
        assert job == if code == Some(0) then CleanExit(child, decode) else FailedExit(child, code);
        jobs := jobs[id := job];
        if !job.packing {
          isProcessing := false;
          ghost var ended := State();
          assert ended == s0.(jobs := s0.jobs[id := job], isProcessing := false);
          ProcessQueue();
          assert State() == Drain(ended) == Close(s0, id, code, decode);
        }
      }
      ClosePreservesInv(s0, id, code, decode);
      assert Inv(State());
    }

    /** The rest of the `close` handler once the archive has settled: end the job, free the slot, drain. */
    method OnZipSettled(id: JobId, zipError: Option<string>)
      requires Valid() && id in jobs
      modifies this
      ensures Valid()
      ensures State() == ZipSettled(old(State()), id, zipError)
    {
      ghost var s0 := State();
      var job := jobs[id];
      if job.packing && job.status == Running {
        job := job.(packing := false);
        if zipError.None? {
          job := job.(zipFile := Some(ZipPath(job)), status := Done);
        } else {
          job := job.(status := Error, error := Some("Failed to parse generator output: " + zipError.value));
        }
        assert job == Packaged(s0.jobs[id], zipError);
        jobs := jobs[id := job];
        isProcessing := false;
        ghost var ended := State();
        ProcessQueue();
        assert State() == Drain(ended) == ZipSettled(s0, id, zipError);
      }
      ZipSettledPreservesInv(s0, id, zipError);
    }

    /** The child's `error` handler: fail a job that still runs with its child, free the slot, drain. */
    method OnSpawnError(id: JobId, message: string)
      requires Valid() && id in jobs
      modifies this
      ensures Valid()
      ensures State() == SpawnError(old(State()), id, message)
    {
      ghost var s0 := State();
      if jobs[id].status == Running && jobs[id].process {
        jobs := jobs[id := jobs[id].(status := Error, error := Some("Failed to spawn python process: " + message))];
        isProcessing := false;
        ghost var failed := State();
        ProcessQueue();
        assert State() == Drain(failed) == SpawnErrorAsWritten(s0, id, message);
      } else {
        ProcessQueue();
      }
      SpawnErrorPreservesInv(s0, id, message);
    }

    /** The delete handler. */
    method DeleteFile(id: JobId, filename: string) returns (r: Result<(), Rejection>)
      requires Valid()
      modifies this
      ensures Valid()
      ensures match Orchestrator.DeleteFile(old(State()), id, filename)
        case Ok(s) => r == Ok(()) && State() == s
        case Err(e) => r == Err(e) && State() == old(State())
    {
      if id !in jobs {
        return Err(NotFound);
      }
      var job := jobs[id];
      if !(job.files.Some? && filename in job.files.value) {
        return Err(AccessDenied);
      }
      ghost var s0 := State();
      var kept := FilterOut(job.files.value, filename);
      jobs := jobs[id := job.(files := Some(kept), zipFile := None)];
      DeletePreservesInv(s0, id, filename);
      return Ok(());
    }
  }

  /** The stderr lines of one chunk, applied to the job in order. */
  method ReadStderr(job: Job, lines: seq<string>) returns (j: Job)
    ensures j == StderrLines(job, lines)
  {
    j := job;
    for i := 0 to |lines|
      invariant j == StderrLines(job, lines[..i])
    {
      StderrLinesSnoc(job, lines[..i], lines[i]);
      assert lines[..i + 1] == lines[..i] + [lines[i]];
      j := StderrLine(j, lines[i]);
    }
    assert lines[..|lines|] == lines;
  }

  /**
   * The exit reconciliation of the `close` handler for a job that still runs,
   * up to its `await`: scan for the record, adopt its files and start the
   * archive, or fail.
   */
  method Reconcile(job: Job, code: Option<int>, decode: string -> Option<ResultRecord>) returns (ended: Job)
    ensures ended == if code == Some(0) then CleanExit(job, decode) else FailedExit(job, code)
  {
    if code != Some(0) {
      return FailedExit(job, code);
    }
    var result := ScanResult(job.stdout, decode);
    if result.Some? && result.value.status == "success" {
      ended := job.(files := result.value.files);
      if result.value.files.Some? {
        ended := ended.(packing := true);
      } else {
        ended := ended.(status := Error, error := Some("Failed to parse generator output: " + ZipTypeError), packing := false);
      }
    } else {
      var message := if result.Some? && result.value.message != "" then result.value.message else UnknownPythonError;
      ended := job.(status := Error, error := Some(message), packing := false);
    }
  }

  /** `files.filter(file => file !== filename)`. */
  method FilterOut(files: seq<string>, filename: string) returns (kept: seq<string>)
    ensures kept == Without(files, filename)
  {
    kept := [];
    for i := 0 to |files|
      invariant kept == Without(files[..i], filename)
    {
      assert files[..i + 1][..i] == files[..i];
      if files[i] != filename {
        kept := kept + [files[i]];
      }
    }
    assert files[..|files|] == files;
  }
}
