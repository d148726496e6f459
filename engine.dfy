/**
 * The download engine's bookkeeping: which downloads have a worker, which
 * have a parameter change in flight, which wait in the queue, and what the
 * engine asks of the scheduler, the repository and its listeners.
 *
 * The engine's asynchronous continuations (a worker finishing, a record
 * read from the repository) are methods the environment calls. What the
 * engine hands to code outside it is appended to a log: scheduler requests
 * (`scheduler`), patches waiting to be applied (`applying`) and listener
 * and notifier events (`events`).
 */
module Engine {
  import opened Wrappers
  import opened DownloadData
  import opened EngineDecisions

  /** A download worker as the engine sees it. */
  datatype Worker = Worker(running: bool, pauseRequested: bool, stopRequested: bool) {
    function RequestPause(): Worker { this.(pauseRequested := true) }
    function RequestStop(): Worker { this.(stopRequested := true) }
  }

  /** A freshly created worker: not started yet, nothing requested. */
  const NewWorker: Worker := Worker(false, false, false)

  /** What the engine asks of the download scheduler. */
  datatype SchedulerRequest =
    | Run(id: Uuid)                  // eventually calls DoRunDownload(id)
    | RunAll(ignorePaused: bool)
    | Undone(id: Uuid)

  /** A parameter patch whose record is being read, and whether the download reruns afterwards. */
  datatype ApplyRequest = ApplyRequest(id: Uuid, params: ChangeableParams, runAfter: bool)

  /** What the engine tells its listeners and the notifier. */
  datatype EngineEvent =
    | DownloadsCompleted
    | ApplyingParams(id: Uuid)
    | ParamsApplied(id: Uuid, name: Option<string>, failed: bool)
    | PipelineFailure(id: Uuid, error: PipelineError, fileName: string)

  /** The notifier is told about move and extraction failures, and nothing else. */
  predicate Notifies(e: PipelineError) {
    e.MoveError? || e.MoveAlreadyExistsError? || e.UncompressArchiveError? || e.UncompressArchiveFormatError?
  }

  class DownloadEngine {
    const pref: Settings
    var activeDownloads: map<Uuid, Worker>
    var duringChange: map<Uuid, ChangeableParams>
    var queue: seq<Uuid>
    var storage: map<Uuid, DownloadInfo>
    var scheduler: seq<SchedulerRequest>
    var applying: seq<ApplyRequest>
    var events: seq<EngineEvent>
    /** Every id ever pushed on the queue, and every id popped from it, in order. */
    ghost var pushed: seq<Uuid>
    ghost var released: seq<Uuid>

    /**
     * The engine's invariant: the cap (at least 1, as the settings screen
     * enforces) is never exceeded; the queue is first in, first out (what
     * was popped followed by what waits is exactly what was pushed); and
     * every stored record sits under its own id.
     */
    ghost predicate Valid()
      reads this
    {
      && 1 <= pref.maxActiveDownloads
      && |activeDownloads| <= pref.maxActiveDownloads
      && pushed == released + queue
      && (forall id :: id in storage ==> storage[id].id == id)
    }

    constructor (pref: Settings, storage: map<Uuid, DownloadInfo>)
      requires 1 <= pref.maxActiveDownloads
      requires forall id :: id in storage ==> storage[id].id == id
      ensures Valid()
      ensures this.pref == pref && this.storage == storage
      ensures activeDownloads == map[] && duringChange == map[] && queue == []
      ensures scheduler == [] && applying == [] && events == []
    {
      this.pref := pref;
      this.storage := storage;
      activeDownloads := map[];
      duringChange := map[];
      queue := [];
      scheduler := [];
      applying := [];
      events := [];
      pushed := [];
      released := [];
    }

    /**
     * isMaxActiveDownloads: the cap test is equality, not "at least"; while
     * the invariant holds the two agree, so there is room exactly when the
     * test fails.
     */
    predicate AtCap(): (full: bool)
      reads this
      ensures Valid() ==> (full <==> |activeDownloads| >= pref.maxActiveDownloads)
    {
      |activeDownloads| == pref.maxActiveDownloads
    }

    /**
     * doRunDownload: ignored while a change is pending; at the cap the id
     * is queued (even one that already has a worker); a running worker is
     * left alone; otherwise a new worker replaces whatever was there.
     */
    method DoRunDownload(id: Uuid)
      requires Valid()
      modifies this
      ensures Valid()
      ensures id in old(duringChange) ==>
        activeDownloads == old(activeDownloads) && queue == old(queue) && pushed == old(pushed)
      ensures id !in old(duringChange) && old(AtCap()) ==>
        && activeDownloads == old(activeDownloads)
        && queue == old(queue) + [id] && pushed == old(pushed) + [id]
      ensures id !in old(duringChange) && !old(AtCap()) ==>
        && queue == old(queue) && pushed == old(pushed)
        && activeDownloads ==
             if id in old(activeDownloads) && old(activeDownloads)[id].running then old(activeDownloads)
             else old(activeDownloads)[id := NewWorker]
      // a running worker is never replaced
      ensures id in old(activeDownloads) && old(activeDownloads)[id].running ==>
        id in activeDownloads && activeDownloads[id] == old(activeDownloads)[id]
      ensures duringChange == old(duringChange) && storage == old(storage) && released == old(released)
      ensures scheduler == old(scheduler) && applying == old(applying) && events == old(events)
    {
      if id in duringChange {
        return;
      }
      if AtCap() {
        queue := queue + [id];
        pushed := pushed + [id];
        return;
      }
      if id in activeDownloads && activeDownloads[id].running {
        return;
      }
      activeDownloads := activeDownloads[id := NewWorker];
    }

    /**
     * scheduleWaitingDownload: below the cap, the longest-waiting id is
     * popped and handed to the scheduler to run.
     */
    method ScheduleWaitingDownload()
      requires Valid()
      modifies this
      ensures Valid()
      ensures old(AtCap()) || old(queue) == [] ==>
        queue == old(queue) && released == old(released) && scheduler == old(scheduler)
      ensures !old(AtCap()) && old(queue) != [] ==>
        && queue == old(queue)[1..]
        && released == old(released) + [old(queue)[0]]
        && scheduler == old(scheduler) + [Run(old(queue)[0])]
        // first in, first out: the id released is the earliest pushed one not yet released
        && old(queue)[0] == pushed[|old(released)|]
      ensures activeDownloads == old(activeDownloads) && duringChange == old(duringChange)
      ensures storage == old(storage) && pushed == old(pushed)
      ensures applying == old(applying) && events == old(events)
    {
      if AtCap() {
        return;
      }
      if queue == [] {
        return;
      }
      var id := queue[0];
      queue := queue[1..];
      released := released + [id];
      scheduler := scheduler + [Run(id)];
    }

    /**
     * pauseAllDownloads: asks every worker to pause, except the workers of
     * downloads whose parameters are being changed.
     */
    method PauseAllDownloads()
      requires Valid()
      modifies this
      ensures Valid()
      ensures activeDownloads.Keys == old(activeDownloads).Keys
      ensures forall id :: id in activeDownloads ==>
        activeDownloads[id] ==
          if id in duringChange then old(activeDownloads)[id] else old(activeDownloads)[id].RequestPause()
      ensures duringChange == old(duringChange) && queue == old(queue) && storage == old(storage)
      ensures scheduler == old(scheduler) && applying == old(applying) && events == old(events)
      ensures pushed == old(pushed) && released == old(released)
    {
      var todo := activeDownloads.Keys;
      while todo != {}
        invariant todo <= activeDownloads.Keys
        invariant activeDownloads.Keys == old(activeDownloads).Keys
        invariant forall id :: id in activeDownloads ==>
          activeDownloads[id] ==
            if id in todo || id in duringChange then old(activeDownloads)[id]
            else old(activeDownloads)[id].RequestPause()
        invariant duringChange == old(duringChange) && queue == old(queue) && storage == old(storage)
        invariant scheduler == old(scheduler) && applying == old(applying) && events == old(events)
        invariant pushed == old(pushed) && released == old(released)
        decreases todo
      {
        var id :| id in todo;
        todo := todo - {id};
        if id in duringChange {
          continue;
        }
        activeDownloads := activeDownloads[id := activeDownloads[id].RequestPause()];
      }
      SameKeysSameSize(activeDownloads, old(activeDownloads));
    }

    /**
     * stopDownloads: asks every worker to stop, except the workers of
     * downloads whose parameters are being changed.
     */
    method StopDownloads()
      requires Valid()
      modifies this
      ensures Valid()
      ensures activeDownloads.Keys == old(activeDownloads).Keys
      ensures forall id :: id in activeDownloads ==>
        activeDownloads[id] ==
          if id in duringChange then old(activeDownloads)[id] else old(activeDownloads)[id].RequestStop()
      ensures duringChange == old(duringChange) && queue == old(queue) && storage == old(storage)
      ensures scheduler == old(scheduler) && applying == old(applying) && events == old(events)
      ensures pushed == old(pushed) && released == old(released)
    {
      var todo := activeDownloads.Keys;
      while todo != {}
        invariant todo <= activeDownloads.Keys
        invariant activeDownloads.Keys == old(activeDownloads).Keys
        invariant forall id :: id in activeDownloads ==>
          activeDownloads[id] ==
            if id in todo || id in duringChange then old(activeDownloads)[id]
            else old(activeDownloads)[id].RequestStop()
        invariant duringChange == old(duringChange) && queue == old(queue) && storage == old(storage)
        invariant scheduler == old(scheduler) && applying == old(applying) && events == old(events)
        invariant pushed == old(pushed) && released == old(released)
        decreases todo
      {
        var id :| id in todo;
        todo := todo - {id};
        if id in duringChange {
          continue;
        }
        activeDownloads := activeDownloads[id := activeDownloads[id].RequestStop()];
      }
      SameKeysSameSize(activeDownloads, old(activeDownloads));
    }

    /**
     * rescheduleDownloads: stops the workers when the stop policy says so,
     * and otherwise asks the scheduler to run every download that is not
     * paused.
     */
    method RescheduleDownloads(env: EnvironmentReadings)
      requires Valid()
      modifies this
      ensures Valid()
      ensures CheckStopDownloads(pref, env) ==>
        && scheduler == old(scheduler)
        && activeDownloads.Keys == old(activeDownloads).Keys
        && forall id :: id in activeDownloads ==>
             activeDownloads[id] ==
               if id in duringChange then old(activeDownloads)[id] else old(activeDownloads)[id].RequestStop()
      ensures !CheckStopDownloads(pref, env) ==>
        activeDownloads == old(activeDownloads) && scheduler == old(scheduler) + [RunAll(true)]
      ensures duringChange == old(duringChange) && queue == old(queue) && storage == old(storage)
      ensures applying == old(applying) && events == old(events)
      ensures pushed == old(pushed) && released == old(released)
    {
      if CheckStopDownloads(pref, env) {
        StopDownloads();
      } else {
        scheduler := scheduler + [RunAll(true)];
      }
    }

    /**
     * What completing the worker of `id` does to everything but the
     * events: the worker is dropped; the download is rerun when its stored
     * status (if it could be read) says it waits to retry or for the
     * network; below the cap the longest-waiting id is let in; and a change
     * that waited for this worker is applied, rerunning afterwards.
     */
    twostate predicate CompletedFrom(id: Uuid, statusReadFailed: bool)
      reads this
    {
      var rerun :=
        if !statusReadFailed && id in old(storage) && HandleStatusCode(old(storage)[id].statusCode) then [Run(id)]
        else [];
      var cap := |old(activeDownloads) - {id}| == pref.maxActiveDownloads;
      && activeDownloads == old(activeDownloads) - {id}
      && (cap || old(queue) == [] ==>
            queue == old(queue) && released == old(released) && scheduler == old(scheduler) + rerun)
      && (!cap && old(queue) != [] ==>
            && queue == old(queue)[1..]
            && released == old(released) + [old(queue)[0]]
            && scheduler == old(scheduler) + rerun + [Run(old(queue)[0])])
      && (id !in old(duringChange) ==> applying == old(applying))
      && (id in old(duringChange) ==> applying == old(applying) + [ApplyRequest(id, old(duringChange)[id], true)])
      && duringChange == old(duringChange) && storage == old(storage) && pushed == old(pushed)
    }

    /**
     * The first steps of onDownloadCompleted: the rerun handleStatusCode
     * asks for, dropping the worker, and letting the longest-waiting
     * download in.
     */
    method ReleaseWorker(id: Uuid, statusReadFailed: bool)
      requires Valid()
      modifies this
      ensures Valid()
      ensures var rerun :=
          if !statusReadFailed && id in old(storage) && HandleStatusCode(old(storage)[id].statusCode) then [Run(id)]
          else [];
        var cap := |old(activeDownloads) - {id}| == pref.maxActiveDownloads;
        && activeDownloads == old(activeDownloads) - {id}
        && (cap || old(queue) == [] ==>
              queue == old(queue) && released == old(released) && scheduler == old(scheduler) + rerun)
        && (!cap && old(queue) != [] ==>
              && queue == old(queue)[1..]
              && released == old(released) + [old(queue)[0]]
              && scheduler == old(scheduler) + rerun + [Run(old(queue)[0])])
      ensures duringChange == old(duringChange) && storage == old(storage) && pushed == old(pushed)
      ensures applying == old(applying) && events == old(events)
    {
      if !statusReadFailed && id in storage && HandleStatusCode(storage[id].statusCode) {
        scheduler := scheduler + [Run(id)];
      }
      RemoveShrinks(activeDownloads, id);
      activeDownloads := activeDownloads - {id};
      ScheduleWaitingDownload();
    }

    /**
     * onDownloadCompleted: reruns the download when its stored status says
     * it waits to retry or for the network (a failed read of the record is
     * only logged), drops its worker, lets the longest-waiting download in,
     * and then either applies the change that was waiting for this worker
     * to stop or, with no worker left, reports that all downloads completed.
     */
    method OnDownloadCompleted(id: Uuid, statusReadFailed: bool)
      requires Valid()
      modifies this
      ensures Valid()
      ensures id !in activeDownloads
      ensures CompletedFrom(id, statusReadFailed)
      ensures events == old(events) +
        (if id !in old(duringChange) && |activeDownloads| == 0 then [DownloadsCompleted] else [])
    {
      ReleaseWorker(id, statusReadFailed);
      if id !in duringChange {
        if |activeDownloads| == 0 {
          events := events + [DownloadsCompleted];
        }
      } else {
        applying := applying + [ApplyRequest(id, duringChange[id], true)];
      }
    }

    /**
     * handleDownloadError: a worker that failed is completed like any
     * other, and a move or extraction failure is also reported to the
     * notifier with the stored file name (a failed read of the record is
     * only logged).
     */
    method HandleDownloadError(id: Uuid, error: Option<PipelineError>, statusReadFailed: bool, infoReadFailed: bool)
      requires Valid()
      modifies this
      ensures Valid()
      ensures id !in activeDownloads
      ensures CompletedFrom(id, statusReadFailed)
      ensures events == old(events) +
        (if id !in old(duringChange) && |activeDownloads| == 0 then [DownloadsCompleted] else []) +
        (if infoReadFailed then [] else NotifyFailure(id, error))
    {
      OnDownloadCompleted(id, statusReadFailed);
      if !infoReadFailed {
        events := events + NotifyFailure(id, error);
      }
    }

    /** The notification a failed worker's exception leads to, if any. */
    function NotifyFailure(id: Uuid, error: Option<PipelineError>): (r: seq<EngineEvent>)
      reads this
      ensures |r| <= 1
      ensures |r| == 1 <==> error.Some? && Notifies(error.value) && id in storage
      ensures |r| == 1 ==> r[0] == PipelineFailure(id, error.value, storage[id].fileName)
    {
      if error.Some? && Notifies(error.value) && id in storage then
        [PipelineFailure(id, error.value, storage[id].fileName)]
      else []
    }

    /**
     * doChangeParams: ignored while a change to the same download is
     * pending; otherwise the patch is recorded and listeners told, and a
     * running worker is asked to stop (the patch is applied when it
     * completes) or the patch is applied straight away.
     */
    method DoChangeParams(id: Uuid, params: ChangeableParams)
      requires Valid()
      modifies this
      ensures Valid()
      ensures id in old(duringChange) ==>
        && duringChange == old(duringChange) && activeDownloads == old(activeDownloads)
        && applying == old(applying) && events == old(events)
      ensures id !in old(duringChange) ==>
        && duringChange == old(duringChange)[id := params]
        && events == old(events) + [ApplyingParams(id)]
        && (id in old(activeDownloads) && old(activeDownloads)[id].running ==>
              && activeDownloads == old(activeDownloads)[id := old(activeDownloads)[id].RequestStop()]
              && applying == old(applying))
        && (!(id in old(activeDownloads) && old(activeDownloads)[id].running) ==>
              && activeDownloads == old(activeDownloads)
              && applying == old(applying) + [ApplyRequest(id, params, false)])
      ensures queue == old(queue) && storage == old(storage) && scheduler == old(scheduler)
      ensures pushed == old(pushed) && released == old(released)
    {
      if id in duringChange {
        return;
      }
      duringChange := duringChange[id := params];
      events := events + [ApplyingParams(id)];
      if id in activeDownloads && activeDownloads[id].running {
        activeDownloads := activeDownloads[id := activeDownloads[id].RequestStop()];
      } else {
        applying := applying + [ApplyRequest(id, params, false)];
      }
    }

    /**
     * applyParams, once the record was read: the patch is applied to the
     * stored record and the record is written back when the patch held
     * anything; whatever happened, the pending marker is removed and
     * listeners told, and the download reruns when asked to or when its URL
     * changed.
     */
    method ApplyParamsRead(k: nat, file: FileProbe, move: MoveResult, h: Hashers)
      requires Valid()
      requires k < |applying|
      modifies this
      ensures Valid()
      ensures var req := old(applying)[k];
        var report := ApplyReport(Lookup(old(storage), req.id), req.params, file, move, h);
        && applying == old(applying)[..k] + old(applying)[k + 1..]
        && duringChange == old(duringChange) - {req.id}
        && storage == (if report.write.Some? then old(storage)[req.id := report.write.value] else old(storage))
        && events == old(events) + [ParamsApplied(req.id, report.name, report.failed)]
        && scheduler == old(scheduler) + (if req.runAfter || report.urlChanged then [Run(req.id)] else [])
      ensures activeDownloads == old(activeDownloads) && queue == old(queue)
      ensures pushed == old(pushed) && released == old(released)
    {
      var req := applying[k];
      var report := ApplyToRecord(Lookup(storage, req.id), req.params, file, move, h);
      RecordReport(k, report);
    }

    /**
     * The rest of applyParams once doApplyParams reported: the record is
     * written back when asked to, the pending marker removed, listeners
     * told, and the download rerun when asked to or when its URL changed.
     */
    method RecordReport(k: nat, report: Report)
      requires Valid()
      requires k < |applying|
      requires report.write.Some? ==> report.write.value.id == applying[k].id
      modifies this
      ensures Valid()
      ensures var req := old(applying)[k];
        && applying == old(applying)[..k] + old(applying)[k + 1..]
        && duringChange == old(duringChange) - {req.id}
        && storage == (if report.write.Some? then old(storage)[req.id := report.write.value] else old(storage))
        && events == old(events) + [ParamsApplied(req.id, report.name, report.failed)]
        && scheduler == old(scheduler) + (if req.runAfter || report.urlChanged then [Run(req.id)] else [])
      ensures activeDownloads == old(activeDownloads) && queue == old(queue)
      ensures pushed == old(pushed) && released == old(released)
    {
      var req := applying[k];
      applying := applying[..k] + applying[k + 1..];
      if report.write.Some? {
        storage := storage[req.id := report.write.value];
      }
      duringChange := duringChange - {req.id};
      events := events + [ParamsApplied(req.id, report.name, report.failed)];
      if req.runAfter || report.urlChanged {
        scheduler := scheduler + [Run(req.id)];
      }
    }

    /**
     * applyParams, when reading the record failed: the pending marker is
     * removed, listeners are told the change failed, and completion is
     * reported when no worker is left.
     */
    method ApplyParamsReadFailed(k: nat)
      requires Valid()
      requires k < |applying|
      modifies this
      ensures Valid()
      ensures var req := old(applying)[k];
        && applying == old(applying)[..k] + old(applying)[k + 1..]
        && duringChange == old(duringChange) - {req.id}
        && events == old(events) + [ParamsApplied(req.id, None, true)] +
                     (if |activeDownloads| == 0 then [DownloadsCompleted] else [])
      ensures activeDownloads == old(activeDownloads) && queue == old(queue) && storage == old(storage)
      ensures scheduler == old(scheduler) && pushed == old(pushed) && released == old(released)
    {
      var req := applying[k];
      applying := applying[..k] + applying[k + 1..];
      duringChange := duringChange - {req.id};
      events := events + [ParamsApplied(req.id, None, true)];
      if |activeDownloads| == 0 {
        events := events + [DownloadsCompleted];
      }
    }

    /**
     * pauseResumeDownload, once the record was read: a paused or stopped
     * download is run again, any other one has its worker asked to pause
     * unless a change is pending. A failed read reports completion when no
     * worker is left; a missing record does nothing.
     */
    method PauseResumeDownload(id: Uuid, readFailed: bool)
      requires Valid()
      modifies this
      ensures Valid()
      ensures readFailed ==>
        && activeDownloads == old(activeDownloads) && scheduler == old(scheduler)
        && events == old(events) + (if |activeDownloads| == 0 then [DownloadsCompleted] else [])
      ensures !readFailed && id in storage && IsStatusStoppedOrPaused(storage[id].statusCode) ==>
        && activeDownloads == old(activeDownloads) && scheduler == old(scheduler) + [Run(id)]
      ensures !readFailed && id in storage && !IsStatusStoppedOrPaused(storage[id].statusCode) ==>
        && scheduler == old(scheduler)
        && activeDownloads ==
             if id in old(activeDownloads) && id !in duringChange
             then old(activeDownloads)[id := old(activeDownloads)[id].RequestPause()]
             else old(activeDownloads)
      ensures !readFailed && id !in storage ==>
        activeDownloads == old(activeDownloads) && scheduler == old(scheduler)
      ensures !readFailed ==> events == old(events)
      ensures duringChange == old(duringChange) && queue == old(queue) && storage == old(storage)
      ensures applying == old(applying) && pushed == old(pushed) && released == old(released)
    {
      if readFailed {
        if |activeDownloads| == 0 {
          events := events + [DownloadsCompleted];
        }
        return;
      }
      if id !in storage {
        return;
      }
      if IsStatusStoppedOrPaused(storage[id].statusCode) {
        scheduler := scheduler + [Run(id)];
      } else if id in activeDownloads && id !in duringChange {
        activeDownloads := activeDownloads[id := activeDownloads[id].RequestPause()];
      }
    }

    /**
     * resumeIfError, once the record was read: a download that ended in an
     * error is run again. A failed read reports completion when no worker
     * is left.
     */
    method ResumeIfError(id: Uuid, readFailed: bool)
      requires Valid()
      modifies this
      ensures Valid()
      ensures readFailed ==>
        && scheduler == old(scheduler)
        && events == old(events) + (if |activeDownloads| == 0 then [DownloadsCompleted] else [])
      ensures !readFailed ==>
        && events == old(events)
        && scheduler == old(scheduler) +
             (if id in storage && IsStatusError(storage[id].statusCode) then [Run(id)] else [])
      ensures activeDownloads == old(activeDownloads) && duringChange == old(duringChange)
      ensures queue == old(queue) && storage == old(storage) && applying == old(applying)
      ensures pushed == old(pushed) && released == old(released)
    {
      if readFailed {
        if |activeDownloads| == 0 {
          events := events + [DownloadsCompleted];
        }
        return;
      }
      if id in storage && IsStatusError(storage[id].statusCode) {
        scheduler := scheduler + [Run(id)];
      }
    }

    /**
     * doDeleteDownload: ignored while a change is pending; otherwise the
     * scheduler forgets the download, the record is deleted, and its worker
     * is asked to stop or, with no worker at all, completion is reported.
     */
    method DoDeleteDownload(info: DownloadInfo)
      requires Valid()
      modifies this
      ensures Valid()
      ensures info.id in old(duringChange) ==>
        && storage == old(storage) && activeDownloads == old(activeDownloads)
        && scheduler == old(scheduler) && events == old(events)
      ensures info.id !in old(duringChange) ==>
        && scheduler == old(scheduler) + [Undone(info.id)]
        && storage == old(storage) - {info.id}
        && (info.id in old(activeDownloads) ==>
              && activeDownloads == old(activeDownloads)[info.id := old(activeDownloads)[info.id].RequestStop()]
              && events == old(events))
        && (info.id !in old(activeDownloads) ==>
              && activeDownloads == old(activeDownloads)
              && events == old(events) + (if |activeDownloads| == 0 then [DownloadsCompleted] else []))
      ensures duringChange == old(duringChange) && queue == old(queue) && applying == old(applying)
      ensures pushed == old(pushed) && released == old(released)
    {
      if info.id in duringChange {
        return;
      }
      scheduler := scheduler + [Undone(info.id)];
      storage := storage - {info.id};
      if info.id in activeDownloads {
        activeDownloads := activeDownloads[info.id := activeDownloads[info.id].RequestStop()];
      } else if |activeDownloads| == 0 {
        events := events + [DownloadsCompleted];
      }
    }

    /** The worker of a download starts running (the worker's own doing, reported to the engine). */
    method WorkerStarted(id: Uuid)
      requires Valid()
      requires id in activeDownloads
      modifies this
      ensures Valid()
      ensures activeDownloads == old(activeDownloads)[id := old(activeDownloads)[id].(running := true)]
      ensures duringChange == old(duringChange) && queue == old(queue) && storage == old(storage)
      ensures scheduler == old(scheduler) && applying == old(applying) && events == old(events)
      ensures pushed == old(pushed) && released == old(released)
    {
      activeDownloads := activeDownloads[id := activeDownloads[id].(running := true)];
    }

    /** The worker stores what it learnt about its download (its status, say). */
    method WorkerUpdatedInfo(info: DownloadInfo)
      requires Valid()
      modifies this
      ensures Valid()
      ensures storage == old(storage)[info.id := info]
      ensures activeDownloads == old(activeDownloads) && duringChange == old(duringChange)
      ensures queue == old(queue) && scheduler == old(scheduler)
      ensures applying == old(applying) && events == old(events)
      ensures pushed == old(pushed) && released == old(released)
    {
      storage := storage[info.id := info];
    }
  }

  /** The record stored under an id, or null. */
  function Lookup(storage: map<Uuid, DownloadInfo>, id: Uuid): Option<DownloadInfo> {
    if id in storage then Some(storage[id]) else None
  }

  /**
   * What applying a patch to a record read from the repository leaves
   * behind: the record to write back (if any), the file name reported to
   * listeners, whether it failed and whether the URL changed.
   */
  datatype Report = Report(write: Option<DownloadInfo>, name: Option<string>, failed: bool, urlChanged: bool)

  /**
   * The report of applyParams's success branch: a null record fails with
   * no name; a patch that throws fails with the record's unchanged name;
   * one that applies reports the new name, writes the record back when
   * the patch held anything, and reports whether the URL changed.
   */
  function ApplyReport(stored: Option<DownloadInfo>, p: ChangeableParams, file: FileProbe, move: MoveResult, h: Hashers): Report {
    match stored
    case None => Report(None, None, true, false)
    case Some(info) =>
      if ApplyFailure(p, file, move, h).Some? then Report(None, Some(info.fileName), true, false)
      else
        var patched := Patched(info, p, file, h);
        Report(if ChangesAnything(p) then Some(patched) else None, Some(patched.fileName), false, p.url.Some?)
  }

  /** applyParams's success branch: run doApplyParams on the record read, if there is one. */
  method ApplyToRecord(stored: Option<DownloadInfo>, p: ChangeableParams, file: FileProbe, move: MoveResult, h: Hashers)
    returns (report: Report)
    ensures report == ApplyReport(stored, p, file, move, h)
    ensures report.write.Some? ==> stored.Some? && report.write.value.id == stored.value.id
  {
    if stored.None? {
      return Report(None, None, true, false);
    }
    var info := stored.value;
    var outcome := DoApplyParams(info, p, file, move, h);
    match outcome
    case Threw(_) =>
      report := Report(None, Some(info.fileName), true, false);
    case Applied(newInfo, urlChanged, written) =>
      PatchedFields(info, p, file, h);
      report := Report(if written then Some(newInfo) else None, Some(newInfo.fileName), false, urlChanged);
  }

  /**
   * What applying a patch does to the stored record: a written record
   * keeps its id, and is the stored record with every present patch field
   * copied in; an absent record is never written.
   */
  lemma ApplyReportWrites(stored: Option<DownloadInfo>, p: ChangeableParams, file: FileProbe, move: MoveResult, h: Hashers)
    ensures var r := ApplyReport(stored, p, file, move, h);
      && (r.write.Some? <==> stored.Some? && ApplyFailure(p, file, move, h).None? && ChangesAnything(p))
      && (r.failed <==> stored.None? || ApplyFailure(p, file, move, h).Some?)
      && (r.urlChanged ==> !r.failed && p.url.Some?)
      && (r.write.Some? ==>
            && r.write.value.id == stored.value.id
            && r.write.value.url == (if p.url.Some? then p.url.value else stored.value.url)
            && r.write.value.fileName == (if p.fileName.Some? then p.fileName.value else stored.value.fileName)
            && r.write.value.dirPath == (if p.dirPath.Some? then p.dirPath.value else stored.value.dirPath))
  {
    if stored.Some? && ApplyFailure(p, file, move, h).None? {
      PatchedFields(stored.value, p, file, h);
    }
  }

  /** Two maps over the same keys have the same size. */
  lemma SameKeysSameSize<K, V>(a: map<K, V>, b: map<K, V>)
    requires a.Keys == b.Keys
    ensures |a| == |b|
  {
    assert |a| == |a.Keys|;
    assert |b| == |b.Keys|;
  }

  /** Dropping a key never grows a map. */
  lemma RemoveShrinks<K, V>(m: map<K, V>, k: K)
    ensures |m - {k}| <= |m|
  {
    assert (m - {k}).Keys == m.Keys - {k};
    assert |(m - {k}).Keys| <= |m.Keys|;
  }
}
