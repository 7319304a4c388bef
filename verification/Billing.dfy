/** Charging one GitHub run against the monthly analysis quota, over retries, crashes and recoveries. */
module Billing {
  import opened Wrappers

  type Period = nat  // calendar months, in order

  const SERVER_RESTARTED := "server_restarted"
  const REBILL := "server_restarted_rebill"
  const QUOTA_EXCEEDED := "analysis_quota_exceeded"

  datatype AnalysisStatus = RUNNING | SUCCEEDED | FAILED(error: string)

  datatype Analysis = Analysis(created: Period, status: AnalysisStatus)

  datatype RunStatus = PENDING | READY | PUBLISHED | EXPIRED

  datatype Run = Run(status: RunStatus, error: Option<string>, analysis: Option<Analysis>)

  /** The run's stored state, the clock, the organization's usage rows, and every charge made for this run. */
  datatype State = State(run: Option<Run>, now: Period, usage: map<Period, nat>, charges: seq<Period>)

  datatype Step =
    | Clock(now: Period)
    | Elsewhere                        // another run or upload is charged
    | Process(limit: nat, later: nat)  // the run's transaction; its analysis is stamped up to `later` months on
    | FinishAnalysis(error: Option<string>)
    | RecoverJobs                      // running analyses are failed by the next lease holder
    | RecoverRuns                      // pending runs are detached from interrupted analyses
    | PublishFailed(code: string, expired: bool)
    | Publish

  function Used(usage: map<Period, nat>, p: Period): nat {
    if p in usage then usage[p] else 0
  }

  function Charge(usage: map<Period, nat>, p: Period): map<Period, nat> {
    usage[p := Used(usage, p) + 1]
  }

  predicate Interrupted(a: Option<Analysis>) {
    a.None? || a.value.status == RUNNING || a.value.status == FAILED(SERVER_RESTARTED)
  }

  predicate Enabled(s: State, a: Step) {
    match a
    case Clock(now) => s.now <= now
    case FinishAnalysis(_) =>
      s.run.Some? && s.run.value.status == PENDING && s.run.value.analysis.Some?
      && s.run.value.analysis.value.status == RUNNING
    case PublishFailed(_, _) => s.run.Some? && s.run.value.status != PENDING
    case Publish => s.run.Some? && s.run.value.status != PENDING
    case _ => true
  }

  function Transition(s: State, a: Step): State
    requires Enabled(s, a)
  {
    match a
    case Clock(now) => s.(now := now)
    case Elsewhere => s.(usage := Charge(s.usage, s.now))
    case Process(limit, later) =>
      var run := if s.run.Some? then s.run.value else Run(PENDING, None, None);
      if run.status != PENDING || run.analysis.Some? then s.(run := Some(run))
      else
        var started := Some(run.(analysis := Some(Analysis(s.now + later, RUNNING)), error := None));
        if run.error == Some(SERVER_RESTARTED) then s.(run := started, now := s.now + later)
        else if Used(s.usage, s.now) >= limit then s.(run := Some(run.(status := READY, error := Some(QUOTA_EXCEEDED))))
        else s.(run := started, now := s.now + later, usage := Charge(s.usage, s.now), charges := s.charges + [s.now])
    case FinishAnalysis(error) =>
      var ended := s.run.value.analysis.value.(status := if error.None? then SUCCEEDED else FAILED(error.value));
      s.(run := Some(Run(READY, error, Some(ended))))
    case RecoverJobs =>
      if s.run.Some? && s.run.value.analysis.Some? && s.run.value.analysis.value.status == RUNNING then
        s.(run := Some(s.run.value.(analysis := Some(s.run.value.analysis.value.(status := FAILED(SERVER_RESTARTED))))))
      else s
    case RecoverRuns =>
      if s.run.None? || s.run.value.status != PENDING then s
      else
        var analysis := s.run.value.analysis;
        if !Interrupted(analysis) then s.(run := Some(s.run.value.(status := READY, error := Some(SERVER_RESTARTED))))
        else
          var born := if analysis.Some? then analysis.value.created else s.now;
          s.(run := Some(Run(PENDING, Some(if born == s.now then SERVER_RESTARTED else REBILL), None)))
    case PublishFailed(error, expired) =>
      s.(run := Some(s.run.value.(error := Some(error), status := if expired then EXPIRED else s.run.value.status)))
    case Publish => s.(run := Some(s.run.value.(status := PUBLISHED)))
  }

  ghost predicate Runs(s: State, steps: seq<Step>)
    decreases |steps|
  {
    steps != [] ==> Enabled(s, steps[0]) && Runs(Transition(s, steps[0]), steps[1..])
  }

  ghost function After(s: State, steps: seq<Step>): State
    requires Runs(s, steps)
    decreases |steps|
  {
    if steps == [] then s else After(Transition(s, steps[0]), steps[1..])
  }

  ghost predicate Increasing(charges: seq<Period>) {
    forall i, j :: 0 <= i < j < |charges| ==> charges[i] < charges[j]
  }

  /** A pending run that the next transaction would charge was last charged in an earlier period. */
  ghost predicate Inv(s: State) {
    && Increasing(s.charges)
    && (forall p :: p in s.charges ==> p <= s.now)
    && (s.run.None? ==> s.charges == [])
    && (s.run.Some? && s.run.value.analysis.Some? ==>
          s.run.value.analysis.value.created <= s.now
          && forall p :: p in s.charges ==> p <= s.run.value.analysis.value.created)
    && (Chargeable(s) ==> forall p :: p in s.charges ==> p < s.now)
  }

  predicate Chargeable(s: State) {
    && s.run.Some? && s.run.value.status == PENDING && s.run.value.analysis.None?
    && s.run.value.error != Some(SERVER_RESTARTED)
  }

  lemma InvStep(s: State, a: Step)
    requires Inv(s) && Enabled(s, a)
    ensures Inv(Transition(s, a))
  {
    var r := Transition(s, a);
    if a.Process? && r.charges != s.charges {
      forall p | p in s.charges ensures p < s.now {}
      forall i, j | 0 <= i < j < |r.charges| ensures r.charges[i] < r.charges[j] {
        assert r.charges[i] == s.charges[i] && s.charges[i] in s.charges;
      }
    }
  }

  lemma {:induction false} InvRun(s: State, steps: seq<Step>)
    requires Inv(s) && Runs(s, steps)
    ensures Inv(After(s, steps))
    decreases |steps|
  {
    if steps != [] {
      InvStep(s, steps[0]);
      InvRun(Transition(s, steps[0]), steps[1..]);
    }
  }

  const INITIAL := State(None, 0, map[], [])

  /** Over every run of retries, crashes and recoveries, each calendar period is charged at most once. */
  lemma ChargedOncePerPeriod(steps: seq<Step>, i: nat, j: nat)
    requires Runs(INITIAL, steps) && i < j < |After(INITIAL, steps).charges|
    ensures After(INITIAL, steps).charges[i] < After(INITIAL, steps).charges[j]
  {
    InvRun(INITIAL, steps);
  }

  /** A transaction charges only while the period's usage is under the limit, and then raises it by one. */
  lemma ChargeRespectsLimit(s: State, limit: nat, later: nat)
    ensures var r := Transition(s, Process(limit, later));
            && (r.charges != s.charges ==>
                  Used(s.usage, s.now) < limit && Used(r.usage, s.now) == Used(s.usage, s.now) + 1)
            && (r.charges == s.charges ==> r.usage == s.usage)
            && (forall p :: p != s.now ==> Used(r.usage, p) == Used(s.usage, p))
  {
    if Transition(s, Process(limit, later)).charges != s.charges {
      assert |Transition(s, Process(limit, later)).charges| == |s.charges| + 1;
    }
  }

  /**
   * The clock must not run backwards: recovery compares months by equality. When a charged run's analysis is still
   * running and a recovery happens before its month, a retry back in that month charges it again if and only if the
   * recovery fell into an earlier month and the month's quota is not used up.
   */
  lemma BackwardClockBillsTwice(s: State, earlier: Period, limit: nat)
    requires s.run.Some? && s.run.value.status == PENDING && s.run.value.analysis.Some?
    requires s.run.value.analysis.value.status == RUNNING && earlier <= s.run.value.analysis.value.created
    ensures var charged := s.run.value.analysis.value.created;
            var recovered := Transition(s.(now := earlier), RecoverRuns);
            var again := Transition(Transition(recovered, Clock(charged)), Process(limit, 0));
            again.charges == s.charges + if earlier < charged && Used(s.usage, charged) < limit then [charged] else []
  {
  }

  /** So a run charged in the month its analysis began is charged for that month twice. */
  lemma ChargedTwice(charges: seq<Period>, charged: Period)
    requires charged in charges
    ensures !Increasing(charges + [charged])
  {
    var i :| 0 <= i < |charges| && charges[i] == charged;
    var more := charges + [charged];
    assert more[i] == more[|charges|] == charged;
  }

  /** A run waits for its first analysis, or for another after an interruption. */
  predicate Waiting(s: State) {
    s.run.None? || (s.run.value.status == PENDING && s.run.value.analysis == None)
  }

  /**
   * What the run's transaction does, in full: it starts an analysis for a waiting run -- free after an interruption of
   * the same month, charged once below the limit otherwise -- ends it when the quota is used up, and leaves any other
   * run alone.
   */
  lemma ProcessMeans(s: State, limit: nat, later: nat)
    ensures var r := Transition(s, Process(limit, later));
            var free := s.run.Some? && s.run.value.error == Some("server_restarted");
      && (!Waiting(s) ==> r == s)
      && (Waiting(s) && (free || Used(s.usage, s.now) < limit) ==>
            && r.run == Some(Run(PENDING, None, Some(Analysis(s.now + later, RUNNING)))) && r.now == s.now + later
            && (free ==> r.charges == s.charges && r.usage == s.usage)
            && (!free ==> r.charges == s.charges + [s.now] && Used(r.usage, s.now) == Used(s.usage, s.now) + 1))
      && (Waiting(s) && !free && Used(s.usage, s.now) >= limit ==>
            && r.run == Some(Run(READY, Some("analysis_quota_exceeded"), None))
            && r.charges == s.charges && r.usage == s.usage && r.now == s.now)
  {
  }

  /** What recovery does to a pending run: an interrupted analysis is dropped, and its month remembered. */
  lemma RecoveryMeans(s: State)
    requires s.run.Some? && s.run.value.status == PENDING && s.run.value.analysis.Some?
    ensures var r, a := Transition(s, RecoverRuns), s.run.value.analysis.value;
      && r.charges == s.charges && r.usage == s.usage && r.now == s.now
      && (a.status == RUNNING || a.status == FAILED("server_restarted") ==>
            var error := if a.created == s.now then "server_restarted" else "server_restarted_rebill";
            r.run == Some(Run(PENDING, Some(error), None)))
      && (a.status != RUNNING && a.status != FAILED("server_restarted") ==>
            r.run == Some(Run(READY, Some("server_restarted"), Some(a))))
  {
  }

  /** An interruption is retried free of charge exactly when the recovery comes in the month of the analysis. */
  lemma RetryIsFreeWithinTheMonth(s: State, limit: nat, later: nat)
    requires s.run.Some? && s.run.value.status == PENDING && s.run.value.analysis.Some?
    requires s.run.value.analysis.value.status == RUNNING && Used(s.usage, s.now) < limit
    ensures var r := Transition(Transition(s, RecoverRuns), Process(limit, later));
      && r.run == Some(Run(PENDING, None, Some(Analysis(s.now + later, RUNNING))))
      && (r.charges == s.charges <==> s.run.value.analysis.value.created == s.now)
      && (r.charges != s.charges ==> r.charges == s.charges + [s.now])
  {
    RecoveryMeans(s);
    ProcessMeans(Transition(s, RecoverRuns), limit, later);
    assert |s.charges + [s.now]| != |s.charges|;
  }

  /** A finished analysis leaves its run ready, with the outcome, and a publication leaves it published. */
  lemma EndingMeans(s: State, error: Option<string>)
    requires Enabled(s, FinishAnalysis(error))
    ensures var r := Transition(s, FinishAnalysis(error));
      && r.run == Some(Run(READY, error, Some(Analysis(s.run.value.analysis.value.created,
                                                       if error.None? then SUCCEEDED else FAILED(error.value)))))
      && Enabled(r, Publish) && Transition(r, Publish).run.value.status == PUBLISHED
      && Transition(r, Publish).charges == s.charges
  {
  }

  /** A run that was ended once is never charged again, whatever happens. */
  lemma {:induction false} EndedIsNeverCharged(s: State, steps: seq<Step>)
    requires s.run.Some? && s.run.value.status != PENDING && Runs(s, steps)
    ensures After(s, steps).charges == s.charges
    ensures After(s, steps).run.Some? && After(s, steps).run.value.status != PENDING
    decreases |steps|
  {
    if steps != [] {
      EndedIsNeverCharged(Transition(s, steps[0]), steps[1..]);
    }
  }

  /** What the other steps do: usage grows elsewhere, a restart fails the analysis, a failed publication is noted. */
  lemma OtherStepsMean(s: State, code: string, expired: bool)
    ensures var r := Transition(s, Elsewhere);
      r.run == s.run && r.charges == s.charges && Used(r.usage, s.now) == Used(s.usage, s.now) + 1
    ensures s.run.Some? && s.run.value.analysis.Some? && s.run.value.analysis.value.status == RUNNING ==>
              Transition(s, RecoverJobs)
                == s.(run := Some(s.run.value.(analysis := Some(Analysis(s.run.value.analysis.value.created,
                                                                         FAILED("server_restarted"))))))
    ensures Enabled(s, PublishFailed(code, expired)) ==>
              && Transition(s, PublishFailed(code, expired)).run.value.error == Some(code)
              && Transition(s, PublishFailed(code, expired)).run.value.status
                 == (if expired then EXPIRED else s.run.value.status)
              && Transition(s, PublishFailed(code, expired)).run.value.analysis == s.run.value.analysis
  {
  }
}
