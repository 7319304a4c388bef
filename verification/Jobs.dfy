/** Analyses from submission to their one terminal status: worker, persistence retries and recovery. */
module Jobs {
  import opened Wrappers

  const SERVER_RESTARTED := "server_restarted"
  const WORKER_FAILED := "worker_failed"
  const BATCH := 100

  datatype Status = QUEUED | RUNNING | SUCCEEDED | FAILED

  datatype Decision = BLOCK | REVIEW | SAFE

  datatype Event = Started | Completed | Failed | Verdict(decision: Decision)

  datatype Analysis = Analysis(status: Status, error: Option<string>, result: Option<Decision>, events: seq<Event>) {
    predicate Terminal() {
      status == SUCCEEDED || status == FAILED
    }
  }

  /** A worker's answer after validation. */
  datatype Response = Result(decision: Decision) | Error(code: string)

  type Id = nat
  type Table = map<Id, Analysis>

  /** How far a worker got with starting its analysis. */
  datatype Stage = SKIPPED | STARTED | BROKEN | ABANDONED

  /** How one persistence try ends. */
  datatype Try = APPLIED | FAILED_TRY | UNHEARD | LEASE_LOST

  datatype Outcome = DeletedOrTerminal | Ended(status: Status) | LeaseLost | PersistenceFailed

  /** The terminal record and the events written with it. */
  function Conclude(a: Analysis, r: Response): Analysis {
    match r
    case Result(d) => Analysis(SUCCEEDED, None, Some(d), a.events + [Completed, Verdict(d)])
    case Error(code) => Analysis(FAILED, Some(code), None, a.events + [Failed])
  }

  function Begun(a: Analysis): Analysis {
    a.(status := RUNNING, events := a.events + [Started])
  }

  /** How many completed-or-failed events the analysis has. */
  function Endings(events: seq<Event>): nat {
    if events == [] then 0
    else Endings(events[..|events| - 1]) + if events[|events| - 1] in {Completed, Failed} then 1 else 0
  }

  /** A terminal status comes with exactly one ending, of its own kind, and a result exactly on success. */
  ghost predicate JobInv(a: Analysis) {
    && Endings(a.events) == (if a.Terminal() then 1 else 0)
    && (a.status == SUCCEEDED ==> Completed in a.events && Failed !in a.events)
    && (a.status == FAILED ==> Failed in a.events && Completed !in a.events)
    && (a.result.Some? <==> a.status == SUCCEEDED)
    && (a.error.Some? <==> a.status == FAILED)
  }

  ghost predicate TableInv(jobs: Table) {
    forall id :: id in jobs ==> JobInv(jobs[id])
  }

  /** Terminal records are as they were. */
  ghost predicate TerminalKept(before: Table, after: Table) {
    forall id :: id in before && before[id].Terminal() ==> id in after && after[id] == before[id]
  }

  lemma {:induction false} NoEndingMeansNone(events: seq<Event>)
    requires Endings(events) == 0
    ensures Completed !in events && Failed !in events
  {
    if events != [] {
      NoEndingMeansNone(events[..|events| - 1]);
      assert events == events[..|events| - 1] + [events[|events| - 1]];
    }
  }

  lemma EndingsOfMore(events: seq<Event>, e: Event)
    ensures Endings(events + [e]) == Endings(events) + if e in {Completed, Failed} then 1 else 0
  {
    assert (events + [e])[..|events|] == events;
  }

  lemma ConcludeKeeps(a: Analysis, r: Response)
    requires JobInv(a) && !a.Terminal()
    ensures JobInv(Conclude(a, r)) && Conclude(a, r).Terminal()
  {
    NoEndingMeansNone(a.events);
    match r {
      case Result(d) =>
        EndingsOfMore(a.events, Completed);
        EndingsOfMore(a.events + [Completed], Verdict(d));
        assert Conclude(a, r).events == a.events + [Completed] + [Verdict(d)];
      case Error(_) =>
        EndingsOfMore(a.events, Failed);
    }
  }

  /** A conclusion records the response: the decision with its two events, or the error with its one. */
  lemma ConcludeMeans(a: Analysis)
    ensures forall d :: Conclude(a, Result(d)).status == SUCCEEDED && Conclude(a, Result(d)).error == None
                        && Conclude(a, Result(d)).result == Some(d)
                        && Conclude(a, Result(d)).events == a.events + [Completed, Verdict(d)]
    ensures forall code :: Conclude(a, Error(code)).status == FAILED && Conclude(a, Error(code)).error == Some(code)
                           && Conclude(a, Error(code)).result == None
                           && Conclude(a, Error(code)).events == a.events + [Failed]
    ensures Begun(a).status == RUNNING && Begun(a).events == a.events + [Started]
    ensures Begun(a).error == a.error && Begun(a).result == a.result
  {
  }

  /** Recovery fails what was unfinished, for the restart, and nothing else. */
  lemma RecoveredMeans(jobs: Table)
    ensures RecoveredExcept(jobs, {}).Keys == jobs.Keys
    ensures forall id :: id in jobs && jobs[id].status in {SUCCEEDED, FAILED} ==>
              RecoveredExcept(jobs, {})[id] == jobs[id]
    ensures forall id :: id in jobs && jobs[id].status in {QUEUED, RUNNING} ==>
              RecoveredExcept(jobs, {})[id]
                == Analysis(FAILED, Some("server_restarted"), None, jobs[id].events + [Failed])
  {
  }

  lemma StartKeeps(a: Analysis)
    requires JobInv(a) && !a.Terminal()
    ensures JobInv(Begun(a))
  {
    EndingsOfMore(a.events, Started);
  }

  /** Every other record is as it was. */
  ghost predicate OthersKept(before: Table, after: Table, id: Id) {
    before.Keys == after.Keys && forall k :: k in before && k != id ==> after[k] == before[k]
  }

  /** The table is unchanged, or one unfinished analysis concluded with the response or with a worker failure. */
  ghost predicate ConcludedAtMost(before: Table, after: Table, id: Id, r: Response) {
    || after == before
    || ConcludedWith(before, after, id, r)
    || ConcludedWith(before, after, id, Error("worker_failed"))
  }

  /** One analysis was started and concluded with the response. */
  ghost predicate RanTo(before: Table, after: Table, id: Id, r: Response) {
    id in before && after == before[id := Conclude(Begun(before[id]), r)]
  }

  /** The worker touched only its own analysis, and no terminal one. */
  ghost predicate Progress(before: Table, after: Table, id: Id) {
    TableInv(after) && TerminalKept(before, after) && OthersKept(before, after, id)
  }

  lemma StartedThenConcluded(before: Table, started: Table, after: Table, id: Id, r: Response)
    requires id in before && started == before[id := Begun(before[id])] && ConcludedWith(started, after, id, r)
    ensures RanTo(before, after, id, r)
  {
  }

  lemma FinishMakesProgress(was: Table, before: Table, after: Table, id: Id, r: Response)
    requires Progress(was, before, id) && TableInv(after) && TerminalKept(before, after)
    requires ConcludedAtMost(before, after, id, r)
    ensures Progress(was, after, id)
  {
    hide TableInv, Conclude;
  }

  lemma UntouchedIsProgress(jobs: Table, id: Id)
    requires TableInv(jobs)
    ensures Progress(jobs, jobs, id)
  {
  }

  lemma ProgressThroughout(a: Table, b: Table, c: Table, id: Id)
    requires Progress(a, b, id) && Progress(b, c, id)
    ensures Progress(a, c, id)
  {
  }

  lemma StartMakesProgress(jobs: Table, id: Id)
    requires TableInv(jobs) && id in jobs && jobs[id].status == QUEUED
    ensures Progress(jobs, jobs, id) && Progress(jobs, jobs[id := Begun(jobs[id])], id)
  {
    StartKeeps(jobs[id]);
  }

  ghost predicate ConcludedWith(before: Table, after: Table, id: Id, r: Response) {
    id in before && !before[id].Terminal() && after == before[id := Conclude(before[id], r)]
  }

  class JobManager {
    var jobs: Table
    var persistenceFailed: bool

    ghost predicate Valid()
      reads this
    {
      TableInv(jobs)
    }

    constructor ()
      ensures Valid() && jobs == map[] && !persistenceFailed
    {
      jobs, persistenceFailed := map[], false;
    }

    method Submit(id: Id)
      requires Valid() && id !in jobs
      modifies `jobs
      ensures Valid() && jobs == old(jobs)[id := Analysis(QUEUED, None, None, [])]
    {
      jobs := jobs[id := Analysis(QUEUED, None, None, [])];
    }

    /**
     * Persists a response in up to three tries; after a failed one only a failure is written. A record that is
     * gone or already terminal is left alone.
     */
    method Finish(id: Id, response: Response, tries: seq<Try>) returns (o: Outcome)
      requires Valid() && |tries| == 3
      modifies `jobs, `persistenceFailed
      ensures Valid() && TerminalKept(old(jobs), jobs)
      ensures ConcludedAtMost(old(jobs), jobs, id, response)
      ensures o == PersistenceFailed ==>
                persistenceFailed && forall k :: 0 <= k < 3 ==> tries[k] in {FAILED_TRY, UNHEARD}
      ensures o != PersistenceFailed ==> persistenceFailed == old(persistenceFailed)
      ensures o.Ended? ==> id in jobs && jobs[id].status == o.status && jobs[id].Terminal() && jobs != old(jobs)
      ensures o == DeletedOrTerminal ==> id !in jobs || jobs[id].Terminal()
      ensures tries[0] == APPLIED && id in old(jobs) && !old(jobs)[id].Terminal() ==>
                ConcludedWith(old(jobs), jobs, id, response)
    {
      var validated := response;
      ghost var was := jobs;
      var attempt := 0;
      while attempt < 3
        invariant 0 <= attempt <= 3 && TableInv(jobs) && persistenceFailed == old(persistenceFailed)
        invariant validated == if attempt == 0 then response else Error(WORKER_FAILED)
        invariant ConcludedAtMost(was, jobs, id, response)
        invariant attempt == 0 ==> jobs == was
        invariant forall k :: 0 <= k < attempt ==> tries[k] in {FAILED_TRY, UNHEARD}
      {
        if tries[attempt] == LEASE_LOST { return LeaseLost; }
        if tries[attempt] != FAILED_TRY {
          if id !in jobs || jobs[id].Terminal() {
            if tries[attempt] == APPLIED { return DeletedOrTerminal; }
          } else {
            ConcludeKeeps(jobs[id], validated);
            jobs := jobs[id := Conclude(jobs[id], validated)];
            if tries[attempt] == APPLIED { return Ended(jobs[id].status); }
          }
        }
        validated := Error(WORKER_FAILED);
        attempt := attempt + 1;
      }
      persistenceFailed := true;
      o := PersistenceFailed;
    }

    /** A retention sweep or its owner deletes the analysis. */
    method Delete(id: Id)
      requires Valid()
      modifies `jobs
      ensures Valid() && jobs == old(jobs) - {id}
    {
      jobs := jobs - {id};
    }

    /** A worker's first transaction: start the analysis if it is still queued. */
    method Start(id: Id, starts: Try) returns (stage: Stage)
      requires Valid()
      modifies `jobs
      ensures Valid() && Progress(old(jobs), jobs, id)
      ensures stage == SKIPPED <==> id !in old(jobs) || old(jobs)[id].status != QUEUED
      ensures stage == STARTED <==> stage != SKIPPED && starts == APPLIED
      ensures stage == ABANDONED <==> stage != SKIPPED && starts == LEASE_LOST
      ensures jobs == if stage != SKIPPED && starts in {APPLIED, UNHEARD} then old(jobs)[id := Begun(old(jobs)[id])]
                      else old(jobs)
    {
      UntouchedIsProgress(jobs, id);
      if id !in jobs || jobs[id].status != QUEUED { return SKIPPED; }
      StartMakesProgress(jobs, id);
      hide JobInv;
      if starts in {APPLIED, UNHEARD} {
        jobs := jobs[id := Begun(jobs[id])];
      }
      stage := match starts case APPLIED => STARTED case LEASE_LOST => ABANDONED case _ => BROKEN;
    }

    /**
     * The rest of a worker, whatever has become of the analysis meanwhile: persist the response; any failure ends it
     * as failed. An analysis that was deleted or ended by somebody else is left as it is.
     */
    method Complete(id: Id, stage: Stage, response: Option<Response>, tries: seq<Try>, again: seq<Try>)
      requires Valid() && |tries| == 3 && |again| == 3
      modifies `jobs, `persistenceFailed
      ensures Valid() && Progress(old(jobs), jobs, id)
      ensures stage in {SKIPPED, ABANDONED} || id !in old(jobs) || old(jobs)[id].Terminal() ==> jobs == old(jobs)
      ensures id in old(jobs) && !old(jobs)[id].Terminal() && stage in {STARTED, BROKEN} ==>
                && (stage == STARTED && response.Some? && tries[0] == APPLIED ==>
                      ConcludedWith(old(jobs), jobs, id, response.value))
                && ((stage == BROKEN || response.None?) && !old(persistenceFailed) && again[0] == APPLIED ==>
                      ConcludedWith(old(jobs), jobs, id, Error("worker_failed")))
    {
      ghost var was := jobs;
      UntouchedIsProgress(was, id);
      hide JobInv, Conclude, ConcludedAtMost, Progress;
      if stage == SKIPPED || stage == ABANDONED { return; }
      if stage == STARTED && response.Some? {
        var o := Finish(id, response.value, tries);
        FinishMakesProgress(was, was, jobs, id, response.value);
        if o != PersistenceFailed { return; }
      }
      if !persistenceFailed {
        var o := Finish(id, Error(WORKER_FAILED), again);
        FinishMakesProgress(was, was, jobs, id, Error(WORKER_FAILED));
      }
    }

    /** A worker that nothing interferes with. */
    method Run(id: Id, starts: Try, response: Option<Response>, tries: seq<Try>, again: seq<Try>)
      requires Valid() && |tries| == 3 && |again| == 3
      modifies `jobs, `persistenceFailed
      ensures Valid() && TerminalKept(old(jobs), jobs) && OthersKept(old(jobs), jobs, id)
      ensures id in old(jobs) && old(jobs)[id].status != QUEUED ==> jobs == old(jobs)
      ensures id in old(jobs) && old(jobs)[id].status == QUEUED && starts == APPLIED ==>
                && (response.Some? && tries[0] == APPLIED ==> RanTo(old(jobs), jobs, id, response.value))
                && (response.None? && !old(persistenceFailed) && again[0] == APPLIED ==>
                      RanTo(old(jobs), jobs, id, Error("worker_failed")))
    {
      hide JobInv, Conclude, RanTo;
      ghost var was := jobs;
      var stage := Start(id, starts);
      ghost var started := jobs;
      Complete(id, stage, response, tries, again);
      ProgressThroughout(was, started, jobs, id);
      if stage == STARTED {
        if response.Some? && tries[0] == APPLIED {
          StartedThenConcluded(was, started, jobs, id, response.value);
        }
        if response.None? && !old(persistenceFailed) && again[0] == APPLIED {
          StartedThenConcluded(was, started, jobs, id, Error(WORKER_FAILED));
        }
      }
    }

    /** One transaction of the recovery: fails up to a batch of the unfinished analyses. */
    method RecoverBatch(ghost was: Table, unfinished: set<Id>) returns (left: set<Id>, full: bool)
      requires unfinished <= Unfinished(was) && jobs == RecoveredExcept(was, unfinished)
      modifies `jobs
      ensures left <= unfinished && jobs == RecoveredExcept(was, left)
      ensures if full then left < unfinished else left == {}
      ensures |unfinished| - |left| <= 100 && (full <==> |unfinished| - |left| == 100)
    {
      var batch := 0;
      left := unfinished;
      while left != {} && batch < BATCH
        invariant batch <= BATCH && left <= unfinished && (batch > 0 ==> left < unfinished)
        invariant jobs == RecoveredExcept(was, left) && |unfinished| - |left| == batch
        decreases left
      {
        var id :| id in left;
        RecoverOne(was, left, id);
        jobs := jobs[id := Conclude(jobs[id], Error(SERVER_RESTARTED))];
        left := left - {id};
        batch := batch + 1;
      }
      full := batch == BATCH;
    }

    /** Fails, in batches, everything a dead process left unfinished. */
    method Recover()
      requires Valid()
      modifies `jobs
      ensures Valid() && TerminalKept(old(jobs), jobs)
      ensures Unfinished(jobs) == {}
      ensures jobs == RecoveredExcept(old(jobs), {})
    {
      ghost var was := jobs;
      var left := Unfinished(jobs);
      assert jobs == RecoveredExcept(was, left);
      var full := true;
      while full
        invariant left <= Unfinished(was) && jobs == RecoveredExcept(was, left) && (!full ==> left == {})
        decreases full, left
      {
        left, full := RecoverBatch(was, left);
      }
      RecoveredKeeps(was);
    }
  }

  function Unfinished(jobs: Table): set<Id> {
    set id | id in jobs && !jobs[id].Terminal()
  }

  /** Every unfinished analysis but those still waiting is failed; the rest are as they were. */
  function RecoveredExcept(jobs: Table, waiting: set<Id>): Table {
    map id | id in jobs ::
      if id in waiting || jobs[id].Terminal() then jobs[id] else Conclude(jobs[id], Error(SERVER_RESTARTED))
  }

  lemma RecoverOne(was: Table, left: set<Id>, id: Id)
    requires left <= Unfinished(was) && id in left
    ensures var now := RecoveredExcept(was, left);
            id in now && now[id := Conclude(now[id], Error(SERVER_RESTARTED))] == RecoveredExcept(was, left - {id})
  {
    assert id in Unfinished(was);
  }

  lemma RecoveredKeeps(was: Table)
    requires TableInv(was)
    ensures TableInv(RecoveredExcept(was, {})) && Unfinished(RecoveredExcept(was, {})) == {}
    ensures TerminalKept(was, RecoveredExcept(was, {}))
  {
    var now := RecoveredExcept(was, {});
    forall id | id in now ensures JobInv(now[id]) && now[id].Terminal() {
      if !was[id].Terminal() { ConcludeKeeps(was[id], Error(SERVER_RESTARTED)); }
    }
  }
}
