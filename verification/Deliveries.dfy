/** The durable webhook queue: delivery records, their transitions, retries, recovery and job slots. */
module Deliveries {
  import opened Wrappers

  const MAX_ATTEMPTS: nat := 3
  const MAX_PENDING_DELIVERIES: nat := 1000
  const RETRY_SECONDS := 30
  const SERVER_RESTARTED := "server_restarted"

  datatype Status = PENDING | QUEUED | RETRYABLE | REJECTED | HANDLED | IGNORED

  type Id = nat
  type Time = int

  datatype Delivery = Delivery(
    digest: string,
    created: Time,
    status: Status,
    attempts: nat,
    error: Option<string>,
    payload: bool,
    due: Option<Time>)
  {
    /** Still to be worked on: what the backlog limit counts. */
    predicate Live() {
      status in {PENDING, QUEUED, RETRYABLE}
    }

    predicate Restarted() {
      error == Some(SERVER_RESTARTED)
    }
  }

  type Table = map<Id, Delivery>

  // ---------------------------------------------------------------- record transitions

  function Fresh(digest: string, now: Time): Delivery {
    Delivery(digest, now, PENDING, 0, None, true, None)
  }

  function Reject(d: Delivery, error: string): Delivery {
    d.(status := REJECTED, error := Some(error), payload := false)
  }

  /** A redelivery re-arms a rejected record from scratch, and a retryable one that lost its payload as it is. */
  function Readmitted(d: Delivery): Option<Delivery> {
    if d.status == REJECTED then
      Some(d.(status := PENDING, error := None, due := None, payload := true, attempts := 0))
    else if d.status == RETRYABLE && !d.payload then
      Some(d.(status := PENDING, error := None, due := None, payload := true))
    else None
  }

  /** Whether a redelivery resets the attempts. */
  predicate Resets(d: Delivery) {
    d.status == REJECTED
  }

  /** A queued record nobody in this process works on goes back to pending, attempts kept. */
  function Rearmed(d: Delivery): Delivery {
    if d.status == QUEUED then d.(status := PENDING, due := None) else d
  }

  function Picked(d: Delivery): Delivery {
    if d.status == RETRYABLE then d.(status := PENDING, due := None) else d
  }

  predicate Due(d: Delivery, now: Time) {
    || d.status == PENDING
    || (d.status == RETRYABLE && d.attempts < MAX_ATTEMPTS && d.due.Some? && d.due.value <= now)
  }

  /** Taking a slot costs an attempt; one attempt too many rejects the record. */
  function Claimed(d: Delivery): Delivery {
    if d.attempts + 1 > MAX_ATTEMPTS then Reject(d.(attempts := d.attempts + 1), "github_attempts_exhausted")
    else d.(status := QUEUED, attempts := d.attempts + 1)
  }

  /** The executor refused the work: the attempt is given back. */
  function Unclaimed(d: Delivery): Delivery {
    if d.status == QUEUED then d.(status := PENDING, attempts := if d.attempts > 0 then d.attempts - 1 else 0) else d
  }

  /** How an execution ended. */
  datatype Ending = Done | Fatal(error: string) | Transient(error: string) | Interrupted

  function Finalized(d: Delivery, ending: Ending, now: Time): Delivery {
    match ending
    case Done => d.(status := HANDLED, error := None, payload := false)
    case Fatal(e) => d.(status := REJECTED, error := Some(e), payload := false)
    case Transient(e) =>
      if d.attempts >= MAX_ATTEMPTS then d.(status := REJECTED, error := Some(e), due := None, payload := false)
      else d.(status := RETRYABLE, error := Some(e), due := Some(now + RETRY_SECONDS * d.attempts))
    case Interrupted => d
  }

  /** The next lease holder's view: one interruption per attempt is free, consecutive ones are not. */
  function Recovered(d: Delivery): Delivery {
    var a := if d.status == QUEUED then
        d.(status := PENDING, error := Some(SERVER_RESTARTED), due := None,
           attempts := if d.Restarted() || d.attempts == 0 then d.attempts else d.attempts - 1)
      else d;
    var b := if a.status == RETRYABLE && a.attempts >= MAX_ATTEMPTS then
        Reject(a, "github_attempts_exhausted").(due := None)
      else a;
    if b.status in {RETRYABLE, PENDING} && !b.payload then
      b.(status := REJECTED, error := Some("github_payload_unavailable"), due := None)
    else b
  }

  // ---------------------------------------------------------------- what the transitions come to

  /** How an ending leaves a record: handled, rejected, or waiting 30 seconds for every attempt used, at most three. */
  predicate EndsAs(d: Delivery, e: Delivery, ending: Ending, now: Time) {
    && e.digest == d.digest && e.created == d.created && e.attempts == d.attempts
    && match ending
       case Done => e.status == HANDLED && e.error == None && !e.payload
       case Fatal(error) => e.status == REJECTED && e.error == Some(error) && !e.payload
       case Transient(error) =>
         && e.error == Some(error)
         && (d.attempts < 3 ==> e.status == RETRYABLE && e.payload == d.payload && e.due == Some(now + 30 * d.attempts))
         && (d.attempts >= 3 ==> e.status == REJECTED && !e.payload)
       case Interrupted => e == d
  }

  lemma FinalizedEnds(d: Delivery, ending: Ending, now: Time)
    ensures EndsAs(d, Finalized(d, ending, now), ending, now)
  {
  }

  /** A claim takes one attempt, the fourth rejects, and an undone claim leaves no trace. */
  lemma ClaimsMean(d: Delivery)
    requires d.status == PENDING
    ensures d.attempts < 3 ==>
              Claimed(d) == d.(status := QUEUED, attempts := d.attempts + 1) && Unclaimed(Claimed(d)) == d
    ensures d.attempts >= 3 ==>
              && Claimed(d).status == REJECTED && Claimed(d).error == Some("github_attempts_exhausted")
              && !Claimed(d).payload
  {
  }

  /** A redelivery starts a rejected record afresh and gives a waiting one its payload back, and no other. */
  lemma ReadmissionMeans(d: Delivery)
    ensures Readmitted(d).Some? <==> d.status == REJECTED || (d.status == RETRYABLE && !d.payload)
    ensures Readmitted(d).Some? ==>
              var attempts := if d.status == REJECTED then 0 else d.attempts;
              Readmitted(d).value == Delivery(d.digest, d.created, PENDING, attempts, None, true, None)
    ensures Resets(d) <==> d.status == REJECTED
  {
  }

  /** Which records the sweep takes, and what re-arming and picking change: nothing but the status and the due time. */
  lemma SweepMeans(d: Delivery, now: Time)
    ensures Due(d, now) <==>
              d.status == PENDING || (d.status == RETRYABLE && d.attempts < 3 && d.due.Some? && d.due.value <= now)
    ensures Picked(d) == if d.status == RETRYABLE then d.(status := PENDING, due := None) else d
    ensures Rearmed(d) == if d.status == QUEUED then d.(status := PENDING, due := None) else d
  {
  }

  /**
   * After a restart an interrupted record is pending again and remembers the restart; its attempt is given back unless
   * it was interrupted the time before. A record that cannot be worked on is rejected; the others are as they were.
   */
  lemma RecoveryMeans(d: Delivery)
    requires RowShape(d)
    ensures d.status == QUEUED ==>
              && Recovered(d).status == PENDING && Recovered(d).due == None
              && Recovered(d).error == Some("server_restarted")
              && Recovered(d).attempts == (if d.error == Some("server_restarted") then d.attempts else d.attempts - 1)
              && Recovered(d).payload && Recovered(d).digest == d.digest && Recovered(d).created == d.created
    ensures d.status in {PENDING, RETRYABLE} && d.payload ==> Recovered(d) == d
    ensures d.status in {PENDING, RETRYABLE} && !d.payload ==>
              Recovered(d) == d.(status := REJECTED, error := Some("github_payload_unavailable"), due := None)
    ensures !d.Live() ==> Recovered(d) == d
  {
  }

  /** What holds of every record, whatever its executions do to it. */
  predicate RowShape(d: Delivery) {
    && (d.payload ==> d.Live())
    && (d.status == QUEUED ==> d.payload && 1 <= d.attempts <= MAX_ATTEMPTS && d.due == None)
    && (d.status == RETRYABLE ==> d.attempts < MAX_ATTEMPTS && d.due.Some?)
    && (d.status == PENDING ==> d.attempts <= MAX_ATTEMPTS && d.due == None)
  }

  /** The record invariant: besides, every live record can be worked on. */
  predicate RowInv(d: Delivery) {
    RowShape(d) && d.Live() == d.payload
  }

  /**
   * How many more executions the record can see before its attempts are reset, plus one, when some are in flight. The
   * interruption a restart marks is paid for only once nothing is in flight; an execution in flight can bring a record
   * back that has ended, and a redelivery the payload of one that waits.
   */
  function Budget(d: Delivery, inFlight: nat): int {
    match d.status
    case PENDING => 2 * (MAX_ATTEMPTS - d.attempts) + (if d.Restarted() && inFlight == 0 then 0 else 1)
    case QUEUED => 2 * (MAX_ATTEMPTS - d.attempts) + (if d.Restarted() then 1 else 2)
    case RETRYABLE => 2 * (MAX_ATTEMPTS - d.attempts) + 1
    case _ => if inFlight > 0 && d.attempts <= MAX_ATTEMPTS then 2 * (MAX_ATTEMPTS - d.attempts) + 1 else 0
  }

  lemma BudgetIsBounded(d: Delivery, inFlight: nat)
    requires RowShape(d)
    ensures 0 <= Budget(d, inFlight) <= 2 * MAX_ATTEMPTS + 1
    ensures forall fewer: nat :: fewer <= inFlight ==> Budget(d, fewer) <= Budget(d, inFlight)
  {
  }

  /** Claiming a record for execution strictly lowers its budget and leaves at least one. */
  lemma ExecutionSpends(d: Delivery, inFlight: nat)
    requires RowShape(d) && d.payload && d.status == PENDING && Claimed(d).status == QUEUED
    ensures RowShape(Claimed(d)) && 1 <= Budget(Claimed(d), inFlight + 1) < Budget(d, inFlight)
    ensures Budget(Claimed(d), inFlight) == Budget(Claimed(d), inFlight + 1)
  {
  }

  /**
   * No ending refunds anything, whatever the record has become meanwhile; nor does a re-arm, a redelivery that keeps
   * the attempts, or a recovery once nothing is in flight.
   */
  lemma NothingRefunds(d: Delivery, inFlight: nat, ending: Ending, now: Time)
    requires RowShape(d)
    ensures RowShape(Finalized(d, ending, now))
    ensures inFlight > 0 ==> Budget(Finalized(d, ending, now), inFlight) <= Budget(d, inFlight)
    ensures RowShape(Rearmed(d)) && Budget(Rearmed(d), inFlight) <= Budget(d, inFlight)
    ensures Readmitted(d).Some? && !Resets(d) ==>
              RowShape(Readmitted(d).value) && Budget(Readmitted(d).value, inFlight) <= Budget(d, inFlight)
    ensures RowShape(Recovered(d)) && Budget(Recovered(d), 0) <= Budget(d, 0)
  {
  }

  /** Between two attempts the measure on pending records strictly falls. */
  lemma PendingMeasureFalls(d: Delivery, ending: Ending, now: Time)
    requires RowInv(d) && d.status == PENDING && Claimed(d).status == QUEUED
    ensures Budget(Rearmed(Claimed(d)), 0) < Budget(d, 0)
    ensures Budget(Recovered(Claimed(d)), 0) < Budget(d, 0)
    ensures Finalized(Claimed(d), ending, now).status == RETRYABLE ==>
              Budget(Picked(Finalized(Claimed(d), ending, now)), 0) < Budget(d, 0)
              && Budget(Picked(Recovered(Finalized(Claimed(d), ending, now))), 0) < Budget(d, 0)
  {
  }

  // ---------------------------------------------------------------- one record over any interleaving

  /** A record and how many of its executions are in flight. */
  datatype Cell = Cell(row: Delivery, inFlight: nat)

  datatype CellStep =
    | Execute                         // claimed and handed to the executor
    | ClaimLost                       // claim committed, but the process never learned of it
    | Refused                         // claimed, then the executor refused and the claim was undone
    | Settle(status: Status, error: Option<string>)  // ended in the claiming transaction, without an execution
    | Redeliver                       // the same body arrives again and is admitted
    | Rearm                           // the sweep found it queued and nobody known to work on it
    | Pick
    | Save(ending: Ending, now: Time) // an execution writes how it ended, over whatever the record is by then
    | End                             // an execution leaves the executor
    | Die                             // the process is gone and its executions with it
    | Recover

  predicate Claimable(d: Delivery) {
    d.status == PENDING && d.payload
  }

  predicate CanStep(c: Cell, a: CellStep) {
    match a
    case Execute => Claimable(c.row)
    case ClaimLost => Claimable(c.row)
    case Refused => Claimable(c.row) && Claimed(c.row).status == QUEUED
    case Settle(status, _) => c.row.status == PENDING && status in {HANDLED, IGNORED, REJECTED}
    case Redeliver => Readmitted(c.row).Some?
    case Save(_, _) => c.inFlight > 0
    case End => c.inFlight > 0
    case Recover => c.inFlight == 0
    case _ => true
  }

  function StepCell(c: Cell, a: CellStep): Cell
    requires CanStep(c, a)
  {
    match a
    case Execute => Cell(Claimed(c.row), if Claimed(c.row).status == QUEUED then c.inFlight + 1 else c.inFlight)
    case ClaimLost => c.(row := Claimed(c.row))
    case Refused => c.(row := Unclaimed(Claimed(c.row)))
    case Settle(status, error) => c.(row := c.row.(status := status, error := error, payload := false))
    case Redeliver => c.(row := Readmitted(c.row).value)
    case Rearm => c.(row := Rearmed(c.row))
    case Pick => c.(row := Picked(c.row))
    case Save(ending, now) => c.(row := Finalized(c.row, ending, now))
    case End => c.(inFlight := c.inFlight - 1)
    case Die => c.(inFlight := 0)
    case Recover => c.(row := Recovered(c.row))
  }

  /** Whether the step starts an execution. */
  predicate Starts(c: Cell, a: CellStep) {
    a == Execute && Claimed(c.row).status == QUEUED
  }

  ghost predicate Possible(c: Cell, steps: seq<CellStep>)
    decreases |steps|
  {
    steps == [] || (CanStep(c, steps[0]) && Possible(StepCell(c, steps[0]), steps[1..]))
  }

  ghost function After(c: Cell, steps: seq<CellStep>): Cell
    requires Possible(c, steps)
    decreases |steps|
  {
    if steps == [] then c else After(StepCell(c, steps[0]), steps[1..])
  }

  /** How many executions the steps start. */
  ghost function Executions(c: Cell, steps: seq<CellStep>): nat
    requires Possible(c, steps)
    decreases |steps|
  {
    if steps == [] then 0
    else (if Starts(c, steps[0]) then 1 else 0) + Executions(StepCell(c, steps[0]), steps[1..])
  }

  /** How often a redelivery resets the attempts. */
  ghost function ResetsIn(c: Cell, steps: seq<CellStep>): nat
    requires Possible(c, steps)
    decreases |steps|
  {
    if steps == [] then 0
    else (if steps[0].Redeliver? && Resets(c.row) then 1 else 0) + ResetsIn(StepCell(c, steps[0]), steps[1..])
  }

  lemma StepSpends(c: Cell, a: CellStep)
    requires RowShape(c.row) && CanStep(c, a) && !(a.Redeliver? && Resets(c.row))
    ensures var d := StepCell(c, a);
      && RowShape(d.row)
      && Budget(d.row, d.inFlight) + (if Starts(c, a) then 1 else 0) <= Budget(c.row, c.inFlight)
      && (Starts(c, a) ==> Budget(d.row, d.inFlight) >= 1)
  {
  }

  /** Executions are paid from the budget at the start, and from a new one at every reset. */
  lemma {:induction false} ExecutionsWithinBudget(c: Cell, steps: seq<CellStep>)
    requires RowShape(c.row) && Possible(c, steps)
    ensures var own := Executions(c, steps) - 2 * MAX_ATTEMPTS * ResetsIn(c, steps);
      own <= 0 || own + 1 <= Budget(c.row, c.inFlight)
    decreases |steps|
  {
    if steps != [] {
      var d := StepCell(c, steps[0]);
      BudgetIsBounded(c.row, c.inFlight);
      if steps[0].Redeliver? && Resets(c.row) {
        BudgetIsBounded(d.row, d.inFlight);
      } else {
        StepSpends(c, steps[0]);
      }
      ExecutionsWithinBudget(d, steps[1..]);
    }
  }

  /**
   * Over every interleaving of crashes, re-arms of running deliveries, redeliveries, refusals and endings that meet a
   * record they no longer own, a delivery is executed at most twice the attempts, and as often again for every
   * redelivery that resets them.
   */
  lemma BoundedReexecution(c: Cell, steps: seq<CellStep>)
    requires RowShape(c.row) && Possible(c, steps)
    ensures Executions(c, steps) <= 2 * MAX_ATTEMPTS * (ResetsIn(c, steps) + 1)
  {
    ExecutionsWithinBudget(c, steps);
    BudgetIsBounded(c.row, c.inFlight);
  }

  lemma {:induction false} InTurn(c: Cell, a: seq<CellStep>, b: seq<CellStep>)
    requires Possible(c, a) && Possible(After(c, a), b)
    ensures Possible(c, a + b) && After(c, a + b) == After(After(c, a), b)
    ensures Executions(c, a + b) == Executions(c, a) + Executions(After(c, a), b)
    ensures ResetsIn(c, a + b) == ResetsIn(c, a) + ResetsIn(After(c, a), b)
    decreases |a|
  {
    if a == [] {
      assert a + b == b;
    } else {
      assert (a + b)[0] == a[0] && (a + b)[1..] == a[1..] + b;
      InTurn(StepCell(c, a[0]), a[1..], b);
    }
  }

  lemma OneStep(c: Cell, a: CellStep)
    requires CanStep(c, a)
    ensures Possible(c, [a]) && After(c, [a]) == StepCell(c, a)
    ensures Executions(c, [a]) == if Starts(c, a) then 1 else 0
    ensures ResetsIn(c, [a]) == if a.Redeliver? && Resets(c.row) then 1 else 0
  {
    assert [a][1..] == [];
  }

  /** One attempt, spent twice: interrupted by a restart, then repeated. */
  lemma SpendAttempt(c: Cell) returns (steps: seq<CellStep>)
    requires c.inFlight == 0 && Claimable(c.row) && !c.row.Restarted() && c.row.attempts < MAX_ATTEMPTS
    ensures Possible(c, steps) && Executions(c, steps) == 2 && ResetsIn(c, steps) == 0
    ensures var d := c.row.(status := QUEUED, attempts := c.row.attempts + 1);
      After(c, steps) == Cell(d.(error := Some(SERVER_RESTARTED), due := None), 1)
  {
    var c1 := StepCell(c, Execute);
    var c2 := StepCell(c1, Die);
    var c3 := StepCell(c2, Recover);
    OneStep(c, Execute);
    OneStep(c1, Die);
    InTurn(c, [Execute], [Die]);
    OneStep(c2, Recover);
    InTurn(c, [Execute] + [Die], [Recover]);
    OneStep(c3, Execute);
    steps := [Execute] + [Die] + [Recover] + [Execute];
    InTurn(c, [Execute] + [Die] + [Recover], [Execute]);
  }

  /** A transient failure gives the record its next attempt. */
  lemma NextAttempt(c: Cell, error: string, now: Time) returns (steps: seq<CellStep>)
    requires c.inFlight == 1 && c.row.status == QUEUED && c.row.payload && c.row.attempts < MAX_ATTEMPTS
    ensures Possible(c, steps) && Executions(c, steps) == 0 && ResetsIn(c, steps) == 0
    ensures After(c, steps) == Cell(c.row.(status := PENDING, error := Some(error), due := None), 0)
  {
    var fail := Save(Transient(error), now);
    var c1 := StepCell(c, fail);
    var c2 := StepCell(c1, End);
    OneStep(c, fail);
    OneStep(c1, End);
    InTurn(c, [fail], [End]);
    OneStep(c2, Pick);
    steps := [fail] + [End] + [Pick];
    InTurn(c, [fail] + [End], [Pick]);
  }

  /** The bound is met: alternating interruptions and transient failures use every execution. */
  lemma BoundIsTight(digest: string, now: Time)
    ensures exists steps :: Possible(Cell(Fresh(digest, now), 0), steps)
                            && ResetsIn(Cell(Fresh(digest, now), 0), steps) == 0
                            && Executions(Cell(Fresh(digest, now), 0), steps) == 2 * MAX_ATTEMPTS
  {
    hide Possible, Executions, ResetsIn, After;
    var c := Cell(Fresh(digest, now), 0);
    var first := SpendAttempt(c);
    var again := NextAttempt(After(c, first), "github_unavailable", now);
    InTurn(c, first, again);
    var second := SpendAttempt(After(c, first + again));
    InTurn(c, first + again, second);
    var once := first + again + second;
    var more := NextAttempt(After(c, once), "github_unavailable", now);
    InTurn(c, once, more);
    var third := SpendAttempt(After(c, once + more));
    InTurn(c, once + more, third);
  }

  /** A pending record is executed, fails transiently, and is pending again. */
  lemma FailOnce(c: Cell, error: string, now: Time) returns (steps: seq<CellStep>)
    requires c.inFlight == 0 && Claimable(c.row) && c.row.attempts + 1 < MAX_ATTEMPTS
    ensures Possible(c, steps) && Executions(c, steps) == 1 && ResetsIn(c, steps) == 0
    ensures After(c, steps)
         == Cell(c.row.(attempts := c.row.attempts + 1, error := Some(error), due := None), 0)
  {
    OneStep(c, Execute);
    var again := NextAttempt(StepCell(c, Execute), error, now);
    steps := [Execute] + again;
    InTurn(c, [Execute], again);
  }

  /** A delivery whose executions all fail transiently is executed three times, then rejected for the last failure. */
  lemma RetriesRunOut(digest: string, now: Time, error: string) returns (steps: seq<CellStep>)
    ensures var c := Cell(Fresh(digest, now), 0);
      && Possible(c, steps) && Executions(c, steps) == 3 && ResetsIn(c, steps) == 0
      && After(c, steps).row.status == REJECTED && After(c, steps).row.error == Some(error)
      && !After(c, steps).row.payload && After(c, steps).inFlight == 0
  {
    hide Possible, Executions, ResetsIn, After;
    var c := Cell(Fresh(digest, now), 0);
    var first := FailOnce(c, error, now);
    var c1 := After(c, first);
    var second := FailOnce(c1, error, now);
    InTurn(c, first, second);
    var c2 := After(c, first + second);
    OneStep(c2, Execute);
    var c3 := StepCell(c2, Execute);
    var fail := Save(Transient(error), now);
    OneStep(c3, fail);
    OneStep(StepCell(c3, fail), End);
    InTurn(c3, [fail], [End]);
    InTurn(c2, [Execute], [fail] + [End]);
    InTurn(c, first + second, [Execute] + ([fail] + [End]));
    steps := first + second + ([Execute] + ([fail] + [End]));
  }

  // ---------------------------------------------------------------- two executions at once

  /** Before any reset, the record can have two executions in flight. */
  ghost predicate CanOverlap(c: Cell) {
    exists steps :: Possible(c, steps) && ResetsIn(c, steps) == 0 && After(c, steps).inFlight > 1
  }

  /** Before any reset, the record can end up waiting without the payload a retry needs. */
  ghost predicate CanLosePayload(c: Cell) {
    exists steps :: Possible(c, steps) && ResetsIn(c, steps) == 0 && !RowInv(After(c, steps).row)
  }

  /** The last attempt: whoever runs has taken it, and nobody gives more than this one back. */
  predicate OnLastAttempt(c: Cell) {
    && RowInv(c.row) && c.row.attempts + 1 >= MAX_ATTEMPTS && c.inFlight <= 1
    && (c.inFlight > 0 ==> c.row.attempts >= MAX_ATTEMPTS)
    && (c.row.status == QUEUED ==> c.row.attempts >= MAX_ATTEMPTS)
  }

  lemma {:induction false} LastAttemptStays(c: Cell, steps: seq<CellStep>)
    requires OnLastAttempt(c) && Possible(c, steps) && ResetsIn(c, steps) == 0
    ensures OnLastAttempt(After(c, steps))
    decreases |steps|
  {
    if steps != [] {
      LastAttemptStays(StepCell(c, steps[0]), steps[1..]);
    }
  }

  /** The record is re-armed under its execution and claimed again. */
  lemma Overlap(c: Cell) returns (steps: seq<CellStep>)
    requires c.inFlight == 0 && Claimable(c.row) && c.row.attempts + 1 < MAX_ATTEMPTS
    ensures Possible(c, steps) && ResetsIn(c, steps) == 0 && After(c, steps).inFlight == 2
  {
    var c1 := StepCell(c, Execute);
    var c2 := StepCell(c1, Rearm);
    OneStep(c, Execute);
    OneStep(c1, Rearm);
    InTurn(c, [Execute], [Rearm]);
    OneStep(c2, Execute);
    steps := [Execute] + [Rearm] + [Execute];
    InTurn(c, [Execute] + [Rearm], [Execute]);
  }

  /** The re-armed record is settled by a second claim, and then its execution fails. */
  lemma LosePayload(c: Cell) returns (steps: seq<CellStep>)
    requires c.inFlight == 0 && Claimable(c.row) && c.row.attempts + 1 < MAX_ATTEMPTS
    ensures Possible(c, steps) && ResetsIn(c, steps) == 0 && !RowInv(After(c, steps).row)
  {
    var settle, fail := Settle(IGNORED, None), Save(Transient("github_unavailable"), 0);
    var c1 := StepCell(c, Execute);
    var c2 := StepCell(c1, Rearm);
    var c3 := StepCell(c2, settle);
    OneStep(c, Execute);
    OneStep(c1, Rearm);
    InTurn(c, [Execute], [Rearm]);
    OneStep(c2, settle);
    InTurn(c, [Execute] + [Rearm], [settle]);
    OneStep(c3, fail);
    steps := [Execute] + [Rearm] + [settle] + [fail];
    InTurn(c, [Execute] + [Rearm] + [settle], [fail]);
  }

  /**
   * Exactly which idle records can be run twice at once, and which can lose their payload while they wait: those that
   * have an attempt left after the next.
   */
  lemma RaceNeedsTwoAttempts(c: Cell)
    requires c.inFlight == 0 && RowInv(c.row) && Claimable(c.row)
    ensures CanOverlap(c) <==> c.row.attempts + 1 < MAX_ATTEMPTS
    ensures CanLosePayload(c) <==> c.row.attempts + 1 < MAX_ATTEMPTS
  {
    hide Possible, After, ResetsIn;
    if c.row.attempts + 1 < MAX_ATTEMPTS {
      var twice := Overlap(c);
      var lost := LosePayload(c);
    } else {
      forall steps | Possible(c, steps) && ResetsIn(c, steps) == 0 ensures OnLastAttempt(After(c, steps)) {
        LastAttemptStays(c, steps);
      }
    }
  }

  // ---------------------------------------------------------------- backlog

  function LiveIds(rows: Table): set<Id> {
    set id | id in rows && rows[id].Live()
  }

  /** The records that can be executed. */
  function Carriers(rows: Table): set<Id> {
    set id | id in rows && rows[id].payload
  }

  lemma CarriersNeverGrow(rows: Table, more: Table)
    requires forall id :: id in more && more[id].payload ==> id in rows && rows[id].payload
    ensures |Carriers(more)| <= |Carriers(rows)|
  {
    assert Carriers(rows) == Carriers(more) + (Carriers(rows) - Carriers(more));
  }

  lemma OneMoreCarrier(rows: Table, id: Id, d: Delivery)
    ensures |Carriers(rows[id := d])| <= |Carriers(rows)| + 1
  {
    assert Carriers(rows[id := d]) <= Carriers(rows) + {id};
    assert Carriers(rows) + {id} == Carriers(rows[id := d]) + ((Carriers(rows) + {id}) - Carriers(rows[id := d]));
  }

  /** Records that carry a payload are live, so the backlog limit bounds them. */
  lemma CarriersAreLive(rows: Table)
    requires forall id :: id in rows ==> RowShape(rows[id])
    ensures |Carriers(rows)| <= |LiveIds(rows)|
    ensures (forall id :: id in rows ==> RowInv(rows[id])) ==> Carriers(rows) == LiveIds(rows)
  {
    assert LiveIds(rows) == Carriers(rows) + (LiveIds(rows) - Carriers(rows));
  }
}
