/**
 * The client's job-state store of src/stores/generationStore.ts: the state of
 * the one job the page follows, updated in place by four actions, and the
 * derived "a job is active" predicate.
 */
module GenerationStore {
  import opened Wrappers

  /** `JobStatus`: the server's statuses plus `idle`, no job followed. */
  datatype ClientStatus = Idle | Queued | Running | Done | Error | Canceled

  /** `JobProgress`: percentages by format key. */
  type Progress = map<string, int>

  /** The format keys the store knows. */
  const ProgressKeys: set<string> := {"9x16", "1x1", "4x5", "16x9"}

  /** `updateStatus`'s error argument: left out (`undefined`), `null`, or a message. */
  datatype ErrorArg = Absent | Null | Message(text: string)

  /** The store's fields as a value. */
  datatype Snapshot = Snapshot(status: ClientStatus, jobId: Option<string>, progress: Progress,
                               resultFiles: seq<string>, errorMessage: Option<string>)

  /** The store's initial state. */
  const Initial: Snapshot := Snapshot(Idle, None, map[], [], None)

  /** `{ ...current, ...update }`: the update's keys override, every other key is kept. */
  function MergeProgress(current: Progress, update: Progress): (merged: Progress)
    ensures merged.Keys == current.Keys + update.Keys
    ensures forall k :: k in update ==> merged[k] == update[k]
    ensures forall k :: k in current && k !in update ==> merged[k] == current[k]
  {
    current + update
  }

  /** Every known format at 100 percent. */
  function AllComplete(): (p: Progress)
    ensures p.Keys == ProgressKeys
    ensures forall k :: k in p ==> p[k] == 100
  {
    map k | k in ProgressKeys :: 100
  }

  /** The error message after `updateStatus`: unchanged when the argument is left out, replaced otherwise, by `null` too. */
  function NextError(current: Option<string>, arg: ErrorArg): (next: Option<string>)
    ensures arg.Absent? ==> next == current
    ensures arg.Null? ==> next.None?
    ensures arg.Message? ==> next == Some(arg.text)
  {
    match arg
    case Absent => current
    case Null => None
    case Message(text) => Some(text)
  }

  /** `useHasActiveJob`. */
  predicate Active(status: ClientStatus) {
    status == Queued || status == Running
  }

  class Store {
    var status: ClientStatus
    var jobId: Option<string>
    var progress: Progress
    var resultFiles: seq<string>
    var errorMessage: Option<string>

    function Snap(): Snapshot
      reads this
    {
      Snapshot(status, jobId, progress, resultFiles, errorMessage)
    }

    constructor ()
      ensures Snap() == Initial
      ensures !HasActiveJob()
    {
      status := Idle;
      jobId := None;
      progress := map[];
      resultFiles := [];
      errorMessage := None;
    }

    /** `useHasActiveJob`: a job is queued or running. */
    function HasActiveJob(): (active: bool)
      reads this
      ensures active <==> status in {Queued, Running}
    {
      Active(status)
    }

    /** `setJob`: follow a new job; its progress, files and error start empty. */
    method SetJob(id: string, s: ClientStatus)
      modifies this
      ensures Snap() == Snapshot(s, Some(id), map[], [], None)
    {
      jobId := Some(id);
      status := s;
      progress := map[];
      resultFiles := [];
      errorMessage := None;
    }

    /**
     * `updateStatus`: set the status, merge the progress when one is given,
     * and replace the error message unless the argument is left out; the job
     * and its files stay.
     */
    method UpdateStatus(s: ClientStatus, update: Option<Progress>, error: ErrorArg)
      modifies this
      ensures status == s
      ensures update.None? ==> progress == old(progress)
      ensures update.Some? ==> progress == MergeProgress(old(progress), update.value)
      ensures errorMessage == NextError(old(errorMessage), error)
      ensures jobId == old(jobId) && resultFiles == old(resultFiles)
    {
      status := s;
      if update.Some? {
        progress := MergeProgress(progress, update.value);
      }
      errorMessage := NextError(errorMessage, error);
    }

    /** `completeJob`: done, with the files and every format at 100; the job id and error message stay. */
    method CompleteJob(files: seq<string>)
      modifies this
      ensures Snap() == old(Snap()).(status := Done, resultFiles := files, progress := AllComplete())
      ensures !HasActiveJob()
    {
      status := Done;
      resultFiles := files;
      progress := AllComplete();
    }

    /** `clearJob`: back to the initial state. */
    method ClearJob()
      modifies this
      ensures Snap() == Initial
      ensures !HasActiveJob()
    {
      status := Idle;
      jobId := None;
      progress := map[];
      resultFiles := [];
      errorMessage := None;
    }
  }
}
