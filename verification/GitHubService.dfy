/** The delivery service: intake, dispatch, execution, crash and recovery over the durable delivery table. */
module GitHubService {
  import opened Deliveries
  import opened Wrappers

  /** What the webhook endpoint answers. */
  datatype Intake = Conflict | BacklogFull | Ignored | Duplicate | Persisted(id: Id)

  datatype Outcome = DEFERRED | WAS_QUEUED | WAS_TERMINAL | NOW_REJECTED | NOW_HANDLED | NOW_IGNORED | DISPATCHED

  /** How the stored payload reads back, and whether its repository connection is active. */
  datatype Payload = UNREADABLE | LIFECYCLE | PULL(connected: bool)

  /** A transaction's end: applied, rolled back, or applied with the answer lost. */
  datatype Commit = APPLIED | ROLLED_BACK | ANSWER_LOST

  datatype Saving = SAVED | SAVE_FAILED | SAVE_UNHEARD | LEASE_GONE

  /** Out of attempts, a transient failure is remembered as a rejection for the next try. */
  function Exhausted(d: Delivery, ending: Ending): Ending {
    if ending.Transient? && d.attempts >= MAX_ATTEMPTS then Fatal(ending.error) else ending
  }

  /** Everything one dispatch meets outside the table. */
  datatype Weather = Weather(
    leaseHealthy: bool,
    draining: bool,
    persistenceFailed: bool,
    sweep: Commit,
    pick: Commit,
    payload: Payload,
    commit: Commit,
    executorAccepts: bool,
    undo: Commit)

  function Count(m: map<Id, nat>, id: Id): nat {
    if id in m then m[id] else 0
  }

  /** The record a dispatch writes in its claiming transaction, when a slot is free or not. */
  function Dispatched(d: Delivery, w: Weather, slotFree: bool): Delivery {
    if d.status != PENDING then d
    else if !d.payload then Reject(d, "github_payload_unavailable")
    else match w.payload
      case UNREADABLE => Reject(d, "github_payload_unavailable")
      case LIFECYCLE => d.(status := HANDLED, payload := false)
      case PULL(connected) =>
        if !connected then d.(status := IGNORED, payload := false)
        else if w.draining || !w.leaseHealthy || w.persistenceFailed || !slotFree then d
        else Claimed(d)
  }

  /** What a claim answers once it is applied, by the status it leaves. */
  function AnswerFor(s: Status): Outcome {
    match s
    case PENDING => DEFERRED
    case QUEUED => DISPATCHED
    case REJECTED => NOW_REJECTED
    case HANDLED => NOW_HANDLED
    case _ => NOW_IGNORED
  }

  /** What a claim writes, case by case. */
  lemma DispatchMeans(d: Delivery, w: Weather, slotFree: bool)
    requires d.status == PENDING
    ensures var e := Dispatched(d, w, slotFree);
      && e.digest == d.digest && e.created == d.created
      && (!d.payload || w.payload == UNREADABLE ==>
            e == d.(status := REJECTED, error := Some("github_payload_unavailable"), payload := false))
      && (d.payload && w.payload == LIFECYCLE ==> e == d.(status := HANDLED, payload := false))
      && (d.payload && w.payload == PULL(false) ==> e == d.(status := IGNORED, payload := false))
      && (d.payload && w.payload == PULL(true) ==>
            if w.draining || !w.leaseHealthy || w.persistenceFailed || !slotFree then e == d
            else if d.attempts < 3 then e == d.(status := QUEUED, attempts := d.attempts + 1)
            else e.status == REJECTED && e.error == Some("github_attempts_exhausted") && !e.payload)
  {
  }

  /** What a dispatch answers for a pending delivery: the outcome of an applied claim, or that it must wait. */
  lemma AnswerMeans(d: Delivery, w: Weather, slotFree: bool)
    requires d.status == PENDING
    ensures var a := Answer(d, w, slotFree);
      && (a == DISPATCHED <==> HandsOff(d, w, slotFree))
      && (a == DEFERRED <==>
            || w.commit != APPLIED
            || (d.payload && w.payload == PULL(true)
                && (w.draining || !w.leaseHealthy || w.persistenceFailed || !slotFree
                    || (d.attempts < 3 && !w.executorAccepts))))
      && (a == NOW_HANDLED <==> w.commit == APPLIED && d.payload && w.payload == LIFECYCLE)
      && (a == NOW_IGNORED <==> w.commit == APPLIED && d.payload && w.payload == PULL(false))
    ensures HandsOff(d, w, slotFree) <==>
              && d.payload && w.payload == PULL(true) && w.commit == APPLIED && w.executorAccepts && d.attempts < 3
              && !w.draining && w.leaseHealthy && !w.persistenceFailed && slotFree
  {
  }

  /** The claim takes a slot and is applied. */
  predicate Stakes(d: Delivery, w: Weather, slotFree: bool) {
    d.status == PENDING && Dispatched(d, w, slotFree).status == QUEUED && w.commit == APPLIED
  }

  /** Besides, the executor accepts the work. */
  predicate HandsOff(d: Delivery, w: Weather, slotFree: bool) {
    Stakes(d, w, slotFree) && w.executorAccepts
  }

  /** What a dispatch answers for this record. */
  function Answer(d: Delivery, w: Weather, slotFree: bool): Outcome {
    if d.status != PENDING then if d.Live() then WAS_QUEUED else WAS_TERMINAL
    else if w.commit != APPLIED || (Stakes(d, w, slotFree) && !w.executorAccepts) then DEFERRED
    else AnswerFor(Dispatched(d, w, slotFree).status)
  }

  /** The table after a dispatch: a refused hand-off is undone, unless the undoing fails. */
  function AfterDispatch(rows: Table, id: Id, w: Weather, slotFree: bool): Table
    requires id in rows
  {
    if rows[id].status != PENDING || w.commit == ROLLED_BACK then rows
    else if Stakes(rows[id], w, slotFree) && !w.executorAccepts && w.undo != ROLLED_BACK then rows
    else rows[id := Dispatched(rows[id], w, slotFree)]
  }

  // ---------------------------------------------------------------- what holds of the table

  /** Executions so far fit what the record may still spend. */
  predicate WithinBudget(d: Delivery, inFlight: nat, executed: nat) {
    executed <= 2 * MAX_ATTEMPTS && executed + Budget(d, inFlight) <= 2 * MAX_ATTEMPTS + 1
  }

  /** What holds of the durable table in every state, however often a delivery is in flight. */
  ghost predicate TableInv(rows: Table, running: multiset<Id>, executions: map<Id, nat>) {
    && (forall id :: id in rows ==> RowShape(rows[id]))
    && (forall id :: id in rows ==> WithinBudget(rows[id], running[id], Count(executions, id)))
    && (forall i, j :: i in rows && j in rows && i != j ==> rows[i].digest != rows[j].digest)
    && |Carriers(rows)| <= MAX_PENDING_DELIVERIES
  }

  /** What holds as long as no running delivery is dispatched again: each runs once, queued and known to be active. */
  ghost predicate Tidy(rows: Table, running: multiset<Id>, active: set<Id>) {
    && (forall id :: id in running ==> running[id] == 1 && id in active && id in rows && rows[id].status == QUEUED)
    && (forall id :: id in rows ==> RowInv(rows[id]))
  }

  /** In a tidy table the backlog limit bounds every live record. */
  lemma BacklogIsBounded(rows: Table, running: multiset<Id>, active: set<Id>, executions: map<Id, nat>)
    requires TableInv(rows, running, executions) && Tidy(rows, running, active)
    ensures |LiveIds(rows)| <= MAX_PENDING_DELIVERIES
  {
    CarriersAreLive(rows);
  }

  predicate Successor(d: Delivery, e: Delivery, inFlight: nat) {
    && e.digest == d.digest && RowShape(e) && (e.payload ==> d.payload)
    && Budget(e, inFlight) <= Budget(d, inFlight)
  }

  /** Every record is rewritten to one with the same digest that gains no payload and costs no budget. */
  ghost predicate Worked(before: Table, after: Table, running: multiset<Id>) {
    && before.Keys == after.Keys
    && forall id :: id in before ==> Successor(before[id], after[id], running[id])
  }

  lemma WorkedKeepsTable(before: Table, after: Table, running: multiset<Id>, executions: map<Id, nat>)
    requires TableInv(before, running, executions) && Worked(before, after, running)
    ensures TableInv(after, running, executions)
  {
    CarriersNeverGrow(before, after);
  }

  /** The execution counts once a record is admitted: its own restarts when it is new or its attempts are reset. */
  function Recounted(rows: Table, executions: map<Id, nat>, key: Id): map<Id, nat> {
    if key in rows && !Resets(rows[key]) then executions else executions[key := 0]
  }

  /** Admitting a record under the backlog limit keeps the table. */
  lemma AdmitKeepsTable(rows: Table, running: multiset<Id>, executions: map<Id, nat>, key: Id, row: Delivery)
    requires TableInv(rows, running, executions) && |LiveIds(rows)| < MAX_PENDING_DELIVERIES
    requires RowShape(row) && forall k :: k in rows && k != key ==> rows[k].digest != row.digest
    requires key in rows ==> Readmitted(rows[key]) == Some(row)
    ensures TableInv(rows[key := row], running, Recounted(rows, executions, key))
  {
    CarriersAreLive(rows);
    OneMoreCarrier(rows, key, row);
    BudgetIsBounded(row, running[key]);
    if key in rows {
      NothingRefunds(rows[key], running[key], Interrupted, 0);
    }
  }

  /** A body has one record, and re-arming it leaves it well shaped. */
  lemma SoleHolder(rows: Table, running: multiset<Id>, executions: map<Id, nat>, key: Id)
    requires TableInv(rows, running, executions) && key in rows
    ensures forall k :: k in rows && k != key ==> rows[k].digest != rows[key].digest
    ensures var again := Readmitted(rows[key]);
      again.Some? ==> RowShape(again.value) && again.value.digest == rows[key].digest
  {
  }

  lemma ShapeOf(rows: Table, running: multiset<Id>, executions: map<Id, nat>, id: Id)
    requires TableInv(rows, running, executions) && id in rows
    ensures RowShape(rows[id])
  {
  }

  lemma FreshFits(digest: string, now: Time)
    ensures RowShape(Fresh(digest, now)) && Fresh(digest, now).digest == digest
  {
  }

  function RearmAll(rows: Table, active: set<Id>): Table {
    map id | id in rows :: if id in active then rows[id] else Rearmed(rows[id])
  }

  function RecoverAll(rows: Table): Table {
    map id | id in rows :: Recovered(rows[id])
  }

  lemma RearmWorks(rows: Table, running: multiset<Id>, active: set<Id>, executions: map<Id, nat>)
    requires TableInv(rows, running, executions)
    ensures TableInv(RearmAll(rows, active), running, executions)
    ensures Tidy(rows, running, active) ==> Tidy(RearmAll(rows, active), running, active)
  {
    WorkedKeepsTable(rows, RearmAll(rows, active), running, executions);
  }

  lemma RecoveryRepairs(d: Delivery)
    requires RowShape(d)
    ensures RowInv(Recovered(d)) && Successor(d, Recovered(d), 0)
  {
  }

  /** With nothing in flight, recovery repairs every record. */
  lemma RecoveryWorks(rows: Table, executions: map<Id, nat>)
    requires TableInv(rows, multiset{}, executions)
    ensures TableInv(RecoverAll(rows), multiset{}, executions) && Tidy(RecoverAll(rows), multiset{}, {})
  {
    forall id | id in rows ensures RowInv(Recovered(rows[id])) && Successor(rows[id], Recovered(rows[id]), 0) {
      RecoveryRepairs(rows[id]);
    }
    hide Recovered, RowInv, Successor, RowShape;
    WorkedKeepsTable(rows, RecoverAll(rows), multiset{}, executions);
  }

  /** A claimed record may be executed once more. */
  lemma ExecuteKeepsTable(rows: Table, running: multiset<Id>, executions: map<Id, nat>, id: Id)
    requires TableInv(rows, running, executions)
    requires id in rows && Claimable(rows[id]) && Claimed(rows[id]).status == QUEUED
    ensures TableInv(rows[id := Claimed(rows[id])], running + multiset{id}, executions[id := Count(executions, id) + 1])
  {
    CarriersNeverGrow(rows, rows[id := Claimed(rows[id])]);
    ExecutionSpends(rows[id], running[id]);
  }

  /** When executions leave, no budget grows. */
  lemma FewerInFlight(rows: Table, running: multiset<Id>, fewer: multiset<Id>, executions: map<Id, nat>)
    requires TableInv(rows, running, executions) && fewer <= running
    ensures TableInv(rows, fewer, executions)
  {
    forall id | id in rows ensures WithinBudget(rows[id], fewer[id], Count(executions, id)) {
      BudgetIsBounded(rows[id], running[id]);
    }
  }

  lemma RewriteKeepsTable(rows: Table, running: multiset<Id>, executions: map<Id, nat>, id: Id, d: Delivery)
    requires TableInv(rows, running, executions) && id in rows && Successor(rows[id], d, running[id])
    ensures TableInv(rows[id := d], running, executions)
  {
    WorkedKeepsTable(rows, rows[id := d], running, executions);
  }

  lemma StakesAreClaims(d: Delivery, w: Weather, slotFree: bool)
    ensures Stakes(d, w, slotFree) ==> Claimable(d) && Dispatched(d, w, slotFree) == Claimed(d) && slotFree
    ensures d.status == PENDING ==> (AnswerFor(Dispatched(d, w, slotFree).status) == DISPATCHED
                                     <==> Dispatched(d, w, slotFree).status == QUEUED)
  {
  }

  /** A claim keeps the table, whatever it writes. */
  lemma ClaimKeepsTable(rows: Table, running: multiset<Id>, executions: map<Id, nat>, id: Id, w: Weather,
                        slotFree: bool)
    requires TableInv(rows, running, executions) && id in rows && rows[id].status == PENDING
    ensures TableInv(rows[id := Dispatched(rows[id], w, slotFree)], running, executions)
  {
    hide TableInv;
    ShapeOf(rows, running, executions, id);
    assert Successor(rows[id], Dispatched(rows[id], w, slotFree), running[id]);
    hide Successor, Dispatched;
    RewriteKeepsTable(rows, running, executions, id, Dispatched(rows[id], w, slotFree));
  }

  lemma PickKeepsTable(rows: Table, running: multiset<Id>, executions: map<Id, nat>, id: Id, now: Time)
    requires TableInv(rows, running, executions) && id in rows && Due(rows[id], now)
    ensures TableInv(rows[id := Picked(rows[id])], running, executions) && Picked(rows[id]).status == PENDING
    ensures forall active :: Tidy(rows, running, active) ==>
              Tidy(rows[id := Picked(rows[id])], running, active) && id !in running
  {
    RewriteKeepsTable(rows, running, executions, id, Picked(rows[id]));
  }

  /** The record an ending leaves: finalized, perhaps with an old due time when its attempts ran out in a lost try. */
  predicate FinalizedAs(d: Delivery, e: Delivery, ending: Ending, now: Time) {
    e == Finalized(d, ending, now) || e == Finalized(d, Exhausted(d, ending), now)
  }

  lemma FinalizedAsEnds(d: Delivery, e: Delivery, ending: Ending, now: Time)
    requires FinalizedAs(d, e, ending, now)
    ensures EndsAs(d, e, ending, now)
  {
  }

  /** Whatever the record has become, the ending of an execution in flight keeps the table. */
  lemma SaveKeepsTable(rows: Table, running: multiset<Id>, executions: map<Id, nat>, id: Id, e: Delivery,
                       ending: Ending, now: Time)
    requires TableInv(rows, running, executions) && id in rows && id in running
    requires FinalizedAs(rows[id], e, ending, now)
    ensures TableInv(rows[id := e], running, executions)
  {
    NothingRefunds(rows[id], running[id], ending, now);
    NothingRefunds(rows[id], running[id], Exhausted(rows[id], ending), now);
    RewriteKeepsTable(rows, running, executions, id, e);
  }

  // ---------------------------------------------------------------- what keeps the table tidy

  lemma PendingIsIdle(rows: Table, running: multiset<Id>, active: set<Id>, id: Id)
    requires Tidy(rows, running, active) && id in rows && rows[id].status != QUEUED
    ensures id !in running
  {
  }

  lemma IdleMayChange(rows: Table, running: multiset<Id>, active: set<Id>, id: Id, d: Delivery)
    requires Tidy(rows, running, active) && id !in running && RowInv(d)
    ensures Tidy(rows[id := d], running, active) && Tidy(rows[id := d], running, active - {id})
    ensures Tidy(rows, running, active - {id}) && Tidy(rows, running, active + {id})
  {
  }

  lemma NothingInFlightIsTidy(rows: Table, running: multiset<Id>, active: set<Id>)
    ensures Tidy(rows, running, active) ==> Tidy(rows, multiset{}, {})
  {
  }

  lemma HandOffIsTidy(rows: Table, running: multiset<Id>, active: set<Id>, id: Id)
    requires Tidy(rows, running, active) && id in rows && Claimable(rows[id]) && Claimed(rows[id]).status == QUEUED
    ensures Tidy(rows[id := Claimed(rows[id])], running + multiset{id}, active + {id})
  {
    PendingIsIdle(rows, running, active, id);
  }

  lemma DropMeans(rows: Table, running: multiset<Id>, active: set<Id>, id: Id)
    ensures (active + {id}) - {id} == active - {id}
    ensures Tidy(rows, running, active) ==> (Tidy(rows, running, active - {id}) <==> id !in running)
  {
    assert (active + {id}) - {id} == active - {id};
  }

  lemma EndingIsTidy(rows: Table, running: multiset<Id>, active: set<Id>, id: Id, e: Delivery, ending: Ending,
                     now: Time)
    requires Tidy(rows, running, active) && id in running && FinalizedAs(rows[id], e, ending, now)
    ensures Tidy(rows[id := e], running - multiset{id}, active - {id})
  {
    assert RowInv(rows[id]);
  }

  /** An execution leaves, having finalized its record or not. */
  lemma EndingKeeps(before: Table, after: Table, running: multiset<Id>, active: set<Id>, executions: map<Id, nat>,
                    id: Id, ending: Ending, now: Time)
    requires TableInv(before, running, executions) && id in before && id in running
    requires after == before || EndedAs(before, after, id, ending, now)
    ensures TableInv(after, running - multiset{id}, executions) && after.Keys == before.Keys
    ensures Tidy(before, running, active) ==> Tidy(after, running - multiset{id}, active - {id})
  {
    hide TableInv, Tidy, Finalized, Exhausted;
    var how := if after == before then Interrupted else ending;
    if after == before {
      InterruptionLeaves(before, id, now);
    }
    SaveKeepsTable(before, running, executions, id, after[id], how, now);
    FewerInFlight(after, running, running - multiset{id}, executions);
    if Tidy(before, running, active) {
      EndingIsTidy(before, running, active, id, after[id], how, now);
    }
  }

  lemma AdmissionIsTidy(rows: Table, running: multiset<Id>, active: set<Id>, key: Id, row: Delivery)
    requires Tidy(rows, running, active)
    requires if key in rows then Readmitted(rows[key]) == Some(row) else exists digest, now :: row == Fresh(digest, now)
    ensures Tidy(rows[key := row], running, active)
  {
    if key in rows {
      PendingIsIdle(rows, running, active, key);
    }
  }

  /** What one claiming transaction and its hand-off may do to a pending delivery is tidy. */
  lemma AttemptIsTidy(rows: Table, running: multiset<Id>, active: set<Id>, id: Id, w: Weather, slotFree: bool,
                      handed: bool, rows': Table, running': multiset<Id>, active': set<Id>)
    requires Tidy(rows, running, active) && id in rows && rows[id].status == PENDING
    requires handed ==>
      && HandsOff(rows[id], w, slotFree) && rows' == rows[id := Claimed(rows[id])]
      && running' == running + multiset{id} && active' == active + {id}
    requires !handed ==>
      && (rows' == rows || rows' == rows[id := Dispatched(rows[id], w, slotFree)])
      && running' == running && active' == (active + {id}) - {id}
    ensures Tidy(rows', running', active')
  {
    PendingIsIdle(rows, running, active, id);
    if handed {
      HandOffIsTidy(rows, running, active, id);
    } else {
      assert RowInv(rows[id]);
      assert (active + {id}) - {id} == active - {id};
      IdleMayChange(rows, running, active, id, Dispatched(rows[id], w, slotFree));
      IdleMayChange(rows, running, active, id, rows[id]);
    }
  }

  /** A record with this body exists and a redelivery would not re-arm it. */
  ghost predicate Settled(rows: Table, digest: string) {
    exists k :: k in rows && rows[k].digest == digest && Readmitted(rows[k]).None?
  }

  class GitHubService {
    const maxJobs: nat

    // durable
    var rows: Table

    // memory of the current process
    var ready: bool
    var active: set<Id>
    var free: nat

    // executions handed to the executor and not finished, one for each; slots held by analyses of the API
    var running: multiset<Id>
    var analyses: nat

    // executions started since the record was created or a redelivery last reset its attempts
    ghost var executions: map<Id, nat>

    /** What every method keeps, whatever happened before: budgets, backlog of payloads, and one slot per execution. */
    ghost predicate Sound()
      reads this
    {
      && TableInv(rows, running, executions)
      && (forall id :: id in running ==> id in rows)
      && free + |running| + analyses == maxJobs
    }

    /** What is lost exactly when a running delivery is dispatched again, until the next recovery. */
    ghost predicate Valid()
      reads this
    {
      Sound() && Tidy(rows, running, active)
    }

    function Now(): Memory
      reads this
    {
      Memory(rows, active, free, running)
    }

    constructor (maxJobs: nat)
      ensures Valid() && rows == map[] && free == maxJobs && !ready && this.maxJobs == maxJobs
      ensures active == {} && running == multiset{}
    {
      this.maxJobs := maxJobs;
      rows, ready, active, free, running, analyses := map[], false, {}, maxJobs, multiset{}, 0;
      executions := map[];
    }

    /** Looks a delivery up by its id and then by its body. */
    method Lookup(id: Id, digest: string) returns (key: Id, known: bool)
      requires id in rows ==> rows[id].digest == digest
      ensures known ==> key in rows && rows[key].digest == digest
      ensures !known ==> key == id && key !in rows && forall k :: k in rows ==> rows[k].digest != digest
    {
      if id in rows { return id, true; }
      var twins := set k | k in rows && rows[k].digest == digest;
      if twins == {} {
        assert forall k :: k in rows && rows[k].digest == digest ==> k in twins;
        return id, false;
      }
      key :| key in twins;
      known := true;
    }

    /** Records a verified delivery; an identical body is recorded once, whatever its id. */
    method Receive(id: Id, digest: string, supported: bool, now: Time) returns (r: Intake)
      requires Sound()
      modifies `rows, `executions
      ensures Sound() && (old(Valid()) ==> Valid())
      ensures r == Conflict <==> id in old(rows) && old(rows)[id].digest != digest
      ensures r == Ignored <==> !supported && r != Conflict
      ensures r == Duplicate <==> r != Conflict && supported && Settled(old(rows), digest)
      ensures r == BacklogFull <==>
                r != Conflict && supported && !Settled(old(rows), digest)
                && |LiveIds(old(rows))| >= 1000
      ensures !r.Persisted? ==> rows == old(rows) && executions == old(executions)
      ensures r.Persisted? && r.id in old(rows) ==>
                && old(rows)[r.id].digest == digest && Readmitted(old(rows)[r.id]).Some?
                && rows == old(rows)[r.id := Readmitted(old(rows)[r.id]).value]
      ensures r.Persisted? ==> executions == Recounted(old(rows), old(executions), r.id)
      ensures r.Persisted? && r.id !in old(rows) ==>
                && r.id == id && (forall k :: k in old(rows) ==> old(rows)[k].digest != digest)
                && rows == old(rows)[id := Fresh(digest, now)]
    {
      hide TableInv, Tidy, RowShape, Readmitted;
      if id in rows && rows[id].digest != digest { return Conflict; }
      if !supported { return Ignored; }
      var key, known := Lookup(id, digest);
      var row := Fresh(digest, now);
      FreshFits(digest, now);
      if known {
        SoleHolder(rows, running, executions, key);
        var again := Readmitted(rows[key]);
        if again.None? { return Duplicate; }
        row := again.value;
      }
      if |LiveIds(rows)| >= MAX_PENDING_DELIVERIES { return BacklogFull; }
      if Tidy(rows, running, active) {
        AdmissionIsTidy(rows, running, active, key, row);
      }
      AdmitKeepsTable(rows, running, executions, key, row);
      executions := Recounted(rows, executions, key);
      rows := rows[key := row];
      r := Persisted(key);
    }

    /** Puts every queued record that no thread of this process is known to work on back to pending. */
    method RearmOrphans()
      requires Sound()
      modifies `rows
      ensures Sound() && (old(Valid()) ==> Valid())
      ensures rows == RearmAll(old(rows), active)
    {
      hide TableInv, Tidy;
      var was := rows;
      var left := set id | id in rows && rows[id].status == QUEUED;
      while left != {}
        invariant left <= was.Keys && rows.Keys == was.Keys
        invariant forall id :: id in was ==>
                    rows[id] == if id in active || id in left then was[id] else Rearmed(was[id])
        decreases left
      {
        var id :| id in left;
        if id !in active { rows := rows[id := Rearmed(rows[id])]; }
        left := left - {id};
      }
      assert rows == RearmAll(was, active);
      RearmWorks(was, running, active, executions);
    }

    /** Recovers every record and starts dispatching: what the next lease holder does with the table. */
    method Recover()
      requires Sound() && !ready && active == {} && running == multiset{}
      modifies `rows, `ready
      ensures Valid() && ready
      ensures rows == RecoverAll(old(rows))
    {
      hide TableInv, Tidy;
      var was := rows;
      var left := rows.Keys;
      while left != {}
        invariant left <= was.Keys && rows.Keys == was.Keys
        invariant forall id :: id in was ==> rows[id] == if id in left then was[id] else Recovered(was[id])
        decreases left
      {
        var id :| id in left;
        rows := rows[id := Recovered(rows[id])];
        left := left - {id};
      }
      assert rows == RecoverAll(was);
      RecoveryWorks(was, executions);
      ready := true;
    }

    /** The process dies: everything but the table is gone, and the next one starts with all slots free. */
    method Crash()
      requires Sound()
      modifies `ready, `active, `free, `running, `analyses
      ensures Sound() && (old(Valid()) ==> Valid())
      ensures !ready && active == {} && running == multiset{} && analyses == 0 && free == maxJobs
    {
      hide TableInv, Tidy;
      FewerInFlight(rows, running, multiset{}, executions);
      NothingInFlightIsTidy(rows, running, active);
      ready, active, free, running, analyses := false, {}, maxJobs, multiset{}, 0;
    }

    /** Takes a slot unless the process is draining, unhealthy or out of slots. */
    method Reserve(w: Weather) returns (reserved: bool)
      modifies `free
      ensures reserved <==> !w.draining && w.leaseHealthy && !w.persistenceFailed && old(free) > 0
      ensures free == if reserved then old(free) - 1 else old(free)
    {
      reserved := !w.draining && w.leaseHealthy && !w.persistenceFailed && free > 0;
      if reserved { free := free - 1; }
    }

    method Release()
      modifies `free
      ensures free == old(free) + 1
    {
      free := free + 1;
    }

    /** The claiming transaction's work: what to write, and whether a slot was taken for it. */
    method Claim(d: Delivery, w: Weather) returns (next: Delivery, reserved: bool, o: Outcome)
      requires d.status == PENDING
      modifies `free
      ensures next == Dispatched(d, w, old(free) > 0)
      ensures reserved <==> next.status == QUEUED
      ensures reserved ==> next == Claimed(d) && d.payload && old(free) > 0
      ensures next.status == PENDING ==> next == d
      ensures free == if reserved then old(free) - 1 else old(free)
      ensures o == AnswerFor(next.status)
    {
      next, reserved := d, false;
      if !d.payload {
        return Reject(d, "github_payload_unavailable"), false, NOW_REJECTED;
      }
      match w.payload {
        case UNREADABLE => next, o := Reject(d, "github_payload_unavailable"), NOW_REJECTED;
        case LIFECYCLE => next, o := d.(status := HANDLED, payload := false), NOW_HANDLED;
        case PULL(connected) =>
          if !connected {
            next, o := d.(status := IGNORED, payload := false), NOW_IGNORED;
            return;
          }
          var taken := Reserve(w);
          if !taken {
            o := DEFERRED;
            return;
          }
          next := Claimed(d);
          if next.status == REJECTED {
            Release();
            o := NOW_REJECTED;
          } else {
            reserved, o := true, DISPATCHED;
          }
      }
    }

    /** Hands a claimed delivery to the executor, or undoes the claim when the executor refuses. */
    method Submit(id: Id, ghost d: Delivery, w: Weather) returns (o: Outcome)
      requires id in rows && RowShape(d) && Claimable(d) && rows[id] == Claimed(d) && rows[id].status == QUEUED
      requires TableInv(rows[id := d], running, executions) && TableInv(rows, running, executions)
      requires id in active
      modifies `rows, `active, `free, `running, `executions
      ensures TableInv(rows, running, executions)
      ensures o == if w.executorAccepts then DISPATCHED else DEFERRED
      ensures o == DISPATCHED ==> rows == old(rows) && active == old(active) && free == old(free)
                                  && running == old(running) + multiset{id}
      ensures o == DEFERRED ==>
                && active == old(active) - {id} && free == old(free) + 1 && running == old(running)
                && executions == old(executions)
                && rows == if w.undo == ROLLED_BACK then old(rows) else old(rows)[id := d]
    {
      hide TableInv, Successor;
      if w.executorAccepts {
        ExecuteKeepsTable(rows[id := d], running, executions, id);
        assert rows[id := d][id := Claimed(d)] == rows;
        running := running + multiset{id};
        executions := executions[id := Count(executions, id) + 1];
        return DISPATCHED;
      }
      Release();
      if w.undo != ROLLED_BACK {
        assert Unclaimed(rows[id]) == d;
        rows := rows[id := Unclaimed(rows[id])];
      }
      active := active - {id};
      o := DEFERRED;
    }

    /**
     * The claiming transaction of a pending delivery. Unless it is applied and takes a slot, nothing is kept of the
     * slot or of the delivery's being active.
     */
    method Stake(id: Id, w: Weather) returns (staked: bool, o: Outcome)
      requires TableInv(rows, running, executions) && id in rows && rows[id].status == PENDING
      modifies `rows, `active, `free
      ensures TableInv(rows, running, executions)
      ensures staked <==> Stakes(old(rows)[id], w, old(free) > 0)
      ensures active == if staked then old(active) else old(active) - {id}
      ensures free == if staked then old(free) - 1 else old(free)
      ensures rows == if w.commit == ROLLED_BACK then old(rows)
                      else old(rows)[id := Dispatched(old(rows)[id], w, old(free) > 0)]
      ensures o == if w.commit != APPLIED then DEFERRED
                   else AnswerFor(Dispatched(old(rows)[id], w, old(free) > 0).status)
    {
      hide TableInv, Dispatched;
      ClaimKeepsTable(rows, running, executions, id, w, free > 0);
      var next, reserved, outcome := Claim(rows[id], w);
      if w.commit != ROLLED_BACK {
        rows := rows[id := next];
      }
      staked, o := w.commit == APPLIED && reserved, if w.commit == APPLIED then outcome else DEFERRED;
      if !staked {
        if reserved { Release(); }
        active := active - {id};
      }
    }

    /** One claim of a pending delivery and, when it was applied and took a slot, the hand-off. */
    method Attempt(id: Id, w: Weather) returns (o: Outcome)
      requires TableInv(rows, running, executions) && id in rows && rows[id].status == PENDING && id in active
      modifies `rows, `active, `free, `running, `executions
      ensures TableInv(rows, running, executions)
      ensures o == DISPATCHED <==> HandsOff(old(rows)[id], w, old(free) > 0)
      ensures o == DISPATCHED ==>
                && running == old(running) + multiset{id} && active == old(active) && free == old(free) - 1
                && rows == old(rows)[id := Claimed(old(rows)[id])] && rows[id].status == QUEUED
      ensures o != DISPATCHED ==>
                && free == old(free) && running == old(running) && executions == old(executions)
                && active == old(active) - {id}
      ensures rows == AfterDispatch(old(rows), id, w, old(free) > 0)
      ensures o == Answer(old(rows)[id], w, old(free) > 0)
    {
      hide TableInv, Dispatched, RowShape;
      ShapeOf(rows, running, executions, id);
      StakesAreClaims(rows[id], w, free > 0);
      ghost var d := rows[id];
      var staked;
      staked, o := Stake(id, w);
      if staked {
        assert rows[id := d] == old(rows);
        o := Submit(id, d, w);
      }
    }

    /**
     * Claims a pending delivery in one transaction and hands it to the executor. Every path that does not hand
     * it off gives its slot back and drops it from the active set -- even when the delivery was running already.
     */
    method Dispatch(id: Id, w: Weather) returns (o: Outcome)
      requires Sound()
      modifies `rows, `active, `free, `running, `executions
      ensures Sound()
      ensures old(Valid()) ==> (Valid() <==> id !in old(running) || !ready || !w.leaseHealthy || w.draining)
      ensures ready && w.leaseHealthy && !w.draining && id in old(rows) && old(rows)[id].status == QUEUED ==>
                running == old(running) && active == old(active) - {id} && rows == old(rows) && o == WAS_QUEUED
      ensures o == DISPATCHED <==>
                ready && w.leaseHealthy && !w.draining && id in old(rows) && HandsOff(old(rows)[id], w, old(free) > 0)
      ensures o == DISPATCHED ==>
                && id in old(rows) && running == old(running) + multiset{id} && active == old(active) + {id}
                && free == old(free) - 1 && rows == old(rows)[id := Claimed(old(rows)[id])] && rows[id].status == QUEUED
      ensures o != DISPATCHED ==> executions == old(executions)
      ensures Now() == if ready && w.leaseHealthy && !w.draining then Handled(old(Now()), id, w) else old(Now())
      ensures o == if !ready || !w.leaseHealthy || w.draining then DEFERRED
                   else if id in old(rows) then Answer(old(rows)[id], w, old(free) > 0) else WAS_QUEUED
    {
      hide TableInv, Tidy, Dispatched, Claimed, RowShape;
      if !ready || !w.leaseHealthy || w.draining { return DEFERRED; }
      ghost var known := active;
      active := active + {id};
      if id !in rows || rows[id].status != PENDING {
        active := active - {id};
        DropMeans(rows, running, known, id);
        return if id in rows && !rows[id].Live() then WAS_TERMINAL else WAS_QUEUED;
      }
      o := Attempt(id, w);
      if old(Tidy(rows, running, active)) {
        PendingIsIdle(old(rows), old(running), old(active), id);
        AttemptIsTidy(old(rows), old(running), old(active), id, w, old(free) > 0, o == DISPATCHED,
                      rows, running, active);
      }
    }

    /**
     * Writes how an execution ended, over whatever the record is by then, in up to three tries: each is applied,
     * rolled back, applied with the answer lost, or meets a lost lease. The record ends up finalized once or left as
     * it was.
     */
    method Save(id: Id, ending: Ending, now: Time, saves: seq<Saving>)
      requires id in rows && ending != Interrupted && |saves| == 3
      modifies `rows
      ensures rows == old(rows) || EndedAs(old(rows), rows, id, ending, now)
      ensures SavedAt(saves, 0) ==> EndedAs(old(rows), rows, id, ending, now)
    {
      ghost var was := rows;
      ghost var d := rows[id];
      FinalizeAgain(d, ending, now);
      forall e | FinalizedAs(d, e, ending, now) ensures EndsAs(d, e, ending, now) {
        FinalizedAsEnds(d, e, ending, now);
      }
      var attempt, status := 0, ending;
      while attempt < 3
        invariant 0 <= attempt <= 3
        invariant rows == was || EndedAs(was, rows, id, ending, now)
        invariant status == ending || status == Exhausted(d, ending)
        invariant rows == was || status == Exhausted(d, ending)
        invariant SavedAt(saves, 0) ==> EndedAs(was, rows, id, ending, now) || SavedAt(saves, attempt)
      {
        if saves[attempt] == LEASE_GONE { return; }
        var row := Finalized(rows[id], status, now);
        status := Exhausted(rows[id], status);
        if saves[attempt] != SAVE_FAILED {
          rows := rows[id := row];
        }
        if saves[attempt] == SAVED { return; }
        attempt := attempt + 1;
      }
    }

    /**
     * An execution ends, alone or beside others of its delivery: the record is finalized or left for recovery, and
     * its slot comes back exactly once.
     */
    method Finish(id: Id, ending: Ending, now: Time, saves: seq<Saving>)
      requires Sound() && id in running && |saves| == 3
      modifies `rows, `active, `free, `running
      ensures Sound() && (old(Valid()) ==> Valid())
      ensures running == old(running) - multiset{id} && active == old(active) - {id} && free == old(free) + 1
      ensures rows == old(rows) || EndedAs(old(rows), rows, id, ending, now)
      ensures SavedAt(saves, 0) ==> EndedAs(old(rows), rows, id, ending, now)
    {
      hide TableInv, Tidy, Finalized, EndedAs, SavedAt, RowShape;
      ghost var was := rows;
      assert |running - multiset{id}| == |running| - 1;
      if ending != Interrupted {
        Save(id, ending, now, saves);
      } else {
        InterruptionLeaves(rows, id, now);
      }
      EndingKeeps(was, rows, running, active, executions, id, ending, now);
      active := active - {id};
      running := running - multiset{id};
      Release();
    }

    /** The due record that arrived first, ties by id. */
    method NextDue(now: Time) returns (id: Id, found: bool)
      ensures found <==> exists k :: k in rows && Due(rows[k], now)
      ensures found ==> id in rows && Due(rows[id], now)
      ensures found ==> forall k :: k in rows && Due(rows[k], now) ==>
                rows[id].created < rows[k].created || (rows[id].created == rows[k].created && id <= k)
    {
      var left := set k | k in rows && Due(rows[k], now);
      assert forall k :: k in rows && Due(rows[k], now) ==> k in left;
      found := left != {};
      if !found { return 0, false; }
      ghost var all := left;
      id :| id in left;
      while left != {}
        invariant left <= all && id in all
        invariant forall k :: k in all && k !in left ==> NotAfter(rows, id, k)
        decreases left
      {
        var k :| k in left;
        if !NotAfter(rows, id, k) { id := k; }
        left := left - {k};
      }
    }

    /** The sweep's first transaction: puts orphans back to pending, or fails. */
    method Sweep(w: Weather)
      requires Sound()
      modifies `rows
      ensures Sound() && (old(Valid()) ==> Valid())
      ensures rows == if w.sweep == ROLLED_BACK then old(rows) else RearmAll(old(rows), active)
    {
      if w.sweep != ROLLED_BACK {
        RearmOrphans();
      }
    }

    /** The sweep's second transaction: chooses the next due record and makes it pending, or fails. */
    method Pick(w: Weather, now: Time) returns (next: Next)
      requires Sound()
      modifies `rows
      ensures Sound() && (old(Valid()) ==> Valid())
      ensures next.Nothing? <==> forall id :: id in old(rows) ==> !Due(old(rows)[id], now)
      ensures next.Nothing? ==> rows == old(rows)
      ensures !next.Nothing? ==>
                exists id :: id in old(rows) && IsNextDue(old(rows), id, now) && IsPick(old(rows), rows, id, w, next)
      ensures next.Chosen? && old(Valid()) ==> next.id !in running
    {
      hide TableInv, Picked, Tidy;
      var id, found := NextDue(now);
      if !found { return Nothing; }
      assert IsNextDue(rows, id, now);
      PickKeepsTable(rows, running, executions, id, now);
      if w.pick != ROLLED_BACK {
        rows := rows[id := Picked(rows[id])];
      }
      next := if w.pick == APPLIED then Chosen(id) else Failed;
    }

    /** Dispatches the next due record, if there is one and picking it does not fail. */
    method DispatchDue(w: Weather, now: Time) returns (o: Outcome, next: Next)
      requires Sound()
      modifies `rows, `active, `free, `running, `executions
      ensures Sound() && (old(Valid()) ==> Valid()) && old(running) <= running
      ensures next.Nothing? <==> forall id :: id in old(rows) ==> !Due(old(rows)[id], now)
      ensures next.Nothing? ==> Now() == old(Now())
      ensures !next.Chosen? ==> o == DEFERRED
      ensures !next.Nothing? ==>
                exists id :: id in old(rows) && IsNextDue(old(rows), id, now)
                             && IsRoundOn(old(Now()), Now(), old(rows), id, ready, w, o, next)
    {
      hide TableInv, Picked, Tidy, Handled, Answer, IsNextDue, IsRoundOn, Due, HandsOff, Claimed;
      ghost var m, swept := Now(), rows;
      next := Pick(w, now);
      o := DEFERRED;
      if next.Nothing? { return; }
      ghost var id :| id in swept && IsNextDue(swept, id, now) && IsPick(swept, rows, id, w, next);
      ghost var picked := rows;
      if next.Chosen? {
        HandledRuns(Now(), id, w);
        o := Dispatch(next.id, w);
      }
      RoundIs(m, Now(), swept, picked, id, ready, w, o, next);
    }

    /** Re-arms orphans and dispatches the next due record, if there is one; either transaction may fail. */
    method DispatchNext(w: Weather, now: Time) returns (o: Outcome, next: Next)
      requires Sound()
      modifies `rows, `active, `free, `running, `executions
      ensures Sound() && (old(Valid()) ==> Valid()) && old(running) <= running
      ensures next.Nothing? ==>
                && (forall id :: id in rows ==> !Due(rows[id], now))
                && (forall id :: id in rows && rows[id].status == QUEUED ==> id in active)
                && rows == RearmAll(old(rows), active)
      ensures IsRound(old(Now()), Now(), ready, w, now, o, next) && (!next.Chosen? ==> o == DEFERRED)
    {
      hide TableInv, Tidy, RearmAll, IsNextDue, IsRound, IsRoundOn, Due;
      ghost var m := Now();
      Sweep(w);
      SweepLeavesNone(m.rows, m.active);
      ShortRounds(m, ready, w, now);
      if w.sweep != APPLIED { return DEFERRED, Failed; }
      ghost var swept := rows;
      o, next := DispatchDue(w, now);
      if !next.Nothing? {
        ghost var id :| id in swept && IsNextDue(swept, id, now)
                        && IsRoundOn(m.(rows := swept), Now(), swept, id, ready, w, o, next);
        RoundIsOn(m, Now(), ready, w, now, o, next, id);
      }
    }

    /**
     * The dispatcher's sweep: dispatch due records in arrival order until one must wait.
     * As long as no running delivery was dispatched from elsewhere, the sweep dispatches none either.
     */
    method DispatchPending(sky: seq<Weather>, clock: seq<Time>)
      returns (dispatched: nat, stop: Stop, ghost trace: seq<Memory>)
      requires Sound() && |clock| == |sky|
      modifies `rows, `active, `free, `running, `executions
      ensures Sound() && (old(Valid()) ==> Valid())
      ensures dispatched <= |sky| && old(running) <= running
      ensures |trace| == dispatched + 1 && trace[0] == old(Now())
      ensures forall i :: 0 <= i < dispatched ==> Moves(trace[i], trace[i + 1], ready, sky[i], clock[i])
      ensures IsStop(trace[dispatched], Now(), ready, sky, clock, dispatched, stop)
      ensures stop.NothingDue? ==> (forall id :: id in rows ==> !Due(rows[id], stop.at))
                                   && forall id :: id in rows && rows[id].status == QUEUED ==> id in active
    {
      hide IsRound, TableInv, Tidy;
      dispatched, stop, trace := 0, MoreRounds, [Now()];
      for i := 0 to |sky|
        invariant Sound() && (old(Valid()) ==> Valid()) && dispatched == i && old(running) <= running
        invariant |trace| == i + 1 && trace[0] == old(Now()) && trace[i] == Now() && stop == MoreRounds
        invariant forall k :: 0 <= k < i ==> Moves(trace[k], trace[k + 1], ready, sky[k], clock[k])
      {
        if !ready || !sky[i].leaseHealthy || sky[i].draining { return dispatched, Unavailable, trace; }
        var o, next := DispatchNext(sky[i], clock[i]);
        if next == Nothing { return dispatched, NothingDue(clock[i]), trace; }
        if next == Failed { return dispatched, Broken, trace; }
        if o == DEFERRED { return dispatched, Waits, trace; }
        dispatched, trace := dispatched + 1, trace + [Now()];
      }
    }

    /** The API's own submission of an analysis, which shares the slots. */
    method CreateAnalysis(w: Weather, quotaLeft: bool) returns (accepted: bool)
      requires Sound()
      modifies `free, `analyses
      ensures Sound() && (old(Valid()) ==> Valid())
      ensures analyses == if accepted then old(analyses) + 1 else old(analyses)
      ensures accepted <==>
                && !w.persistenceFailed && !w.draining && w.leaseHealthy && old(free) > 0
                && quotaLeft && w.commit == APPLIED && w.executorAccepts
      ensures free == if accepted then old(free) - 1 else old(free)
    {
      if w.persistenceFailed { return false; }
      var reserved := Reserve(w);
      if !reserved { return false; }
      if !quotaLeft || w.commit != APPLIED || !w.executorAccepts {
        Release();
        return false;
      }
      analyses := analyses + 1;
      accepted := true;
    }

    /**
     * Anything the service does, in any order, with any failures: the dispatcher's transactions and its dispatches mix
     * freely with intake, endings, uploads and restarts. Slots and executions stay in order throughout, and so do the
     * records unless a running delivery was dispatched since the last restart.
     */
    method Serve(actions: seq<Action>) returns (raced: bool)
      requires Sound() && forall a :: a in actions && a.Conclude? ==> |a.saves| == 3
      modifies this
      ensures Sound()
      ensures old(Valid()) && !raced ==> Valid()
      ensures forall id :: id in rows ==> Count(executions, id) <= 2 * MAX_ATTEMPTS
      ensures StaysDone(old(rows), old(running), rows, running)
    {
      raced := false;
      for i := 0 to |actions|
        invariant Sound() && (old(Valid()) && !raced ==> Valid())
        invariant StaysDone(old(rows), old(running), rows, running)
      {
        assert actions[i] in actions;
        var races := Perform(actions[i]);
        raced := !actions[i].Restart? && (raced || races);
      }
    }

    /** One action, where it is possible; `races` tells that it was the dispatch of a running delivery. */
    method Perform(a: Action) returns (races: bool)
      requires Sound() && (a.Conclude? ==> |a.saves| == 3)
      modifies this
      ensures Sound() && (a.Restart? ==> Valid()) && (old(Valid()) && !races ==> Valid())
      ensures races ==> a.Handle? && a.id in old(running)
      ensures a.Handle? ==>
                Now() == if ready && a.w.leaseHealthy && !a.w.draining then Handled(old(Now()), a.id, a.w)
                         else old(Now())
      ensures a.SweepOrphans? ==> Now() == old(Now()).(rows := Swept(old(Now()), a.w))
      ensures a.Conclude? && a.id in old(running) ==> running == old(running) - multiset{a.id} && free == old(free) + 1
      ensures a.Analyzed? && old(analyses) > 0 ==> analyses == old(analyses) - 1
      ensures a.Restart? ==> rows == RecoverAll(old(rows)) && ready
      ensures StaysDone(old(rows), old(running), rows, running)
    {
      hide TableInv, Tidy, StaysDone, Readmitted, AfterDispatch, Answer, HandsOff, RearmAll, RecoverAll, Picked;
      hide EndedAs;
      ghost var was, ran := rows, running;
      races := a.Handle? && a.id in running;
      NothingChanged(was, ran);
      match a {
        case Arrive(id, digest, supported, now) =>
          var r := Receive(id, digest, supported, now);
          if r.Persisted? { AdmissionStays(was, ran, r.id, rows[r.id]); }
        case Handle(id, w) =>
          ghost var slotFree := free > 0;
          var o := Dispatch(id, w);
          if id in was { DispatchStays(was, ran, id, w, slotFree); }
        case SweepOrphans(w) =>
          Sweep(w);
          RearmStays(was, ran, active);
        case PickDue(w, now) =>
          var next := Pick(w, now);
          if id: Id :| IsNextDue(was, id, now) && IsPick(was, rows, id, w, next) { PickStays(was, ran, id); }
        case Conclude(id, ending, now, saves) =>
          if id in running {
            Finish(id, ending, now, saves);
            EndingStays(was, ran, rows, id, ending, now);
          }
        case Upload(w, quotaLeft) => var accepted := CreateAnalysis(w, quotaLeft);
        case Analyzed =>
          if analyses > 0 { FinishAnalysis(); }
        case Restart =>
          Crash();
          Recover();
          RecoveryStays(was, ran);
      }
    }

    method FinishAnalysis()
      requires Sound() && analyses > 0
      modifies `free, `analyses
      ensures Sound() && (old(Valid()) ==> Valid())
      ensures analyses == old(analyses) - 1 && free == old(free) + 1
    {
      analyses := analyses - 1;
      Release();
    }
  }

  /** What was handled or ignored, and is not being executed, stays exactly as it is. */
  predicate StaysDone(before: Table, ran: multiset<Id>, after: Table, running: multiset<Id>) {
    forall id :: id in before && before[id].status in {HANDLED, IGNORED} && id !in ran ==>
      id in after && after[id] == before[id] && id !in running
  }

  lemma NothingChanged(rows: Table, ran: multiset<Id>)
    ensures StaysDone(rows, ran, rows, ran) && forall fewer :: fewer <= ran ==> StaysDone(rows, ran, rows, fewer)
  {
  }

  lemma AdmissionStays(rows: Table, ran: multiset<Id>, key: Id, row: Delivery)
    requires key in rows ==> Readmitted(rows[key]).Some?
    ensures StaysDone(rows, ran, rows[key := row], ran)
  {
  }

  lemma DispatchStays(rows: Table, ran: multiset<Id>, id: Id, w: Weather, slotFree: bool)
    requires id in rows
    ensures StaysDone(rows, ran, AfterDispatch(rows, id, w, slotFree), ran)
    ensures HandsOff(rows[id], w, slotFree) ==>
              StaysDone(rows, ran, AfterDispatch(rows, id, w, slotFree), ran + multiset{id})
  {
    hide Dispatched;
  }

  lemma RearmStays(rows: Table, ran: multiset<Id>, active: set<Id>)
    ensures StaysDone(rows, ran, RearmAll(rows, active), ran)
  {
  }

  lemma PickStays(rows: Table, ran: multiset<Id>, id: Id)
    requires id in rows
    ensures StaysDone(rows, ran, rows[id := Picked(rows[id])], ran)
  {
  }

  lemma EndingStays(rows: Table, ran: multiset<Id>, after: Table, id: Id, ending: Ending, now: Time)
    requires id in ran && (after == rows || EndedAs(rows, after, id, ending, now))
    ensures StaysDone(rows, ran, after, ran - multiset{id})
  {
    hide FinalizedAs, EndsAs;
  }

  lemma RecoveryStays(rows: Table, ran: multiset<Id>)
    ensures StaysDone(rows, ran, RecoverAll(rows), multiset{})
  {
  }

  /** One thing the service does or meets. */
  datatype Action =
    | Arrive(id: Id, digest: string, supported: bool, now: Time)
    | Handle(id: Id, w: Weather)                  // a dispatch, from intake or from the dispatcher
    | SweepOrphans(w: Weather)
    | PickDue(w: Weather, now: Time)
    | Conclude(id: Id, ending: Ending, now: Time, saves: seq<Saving>)
    | Upload(w: Weather, quotaLeft: bool)
    | Analyzed
    | Restart                                     // the process dies and the next lease holder recovers

  datatype Next = Failed | Nothing | Chosen(id: Id)

  datatype Stop = Unavailable | NothingDue(at: Time) | Waits | Broken | MoreRounds

  /** What the dispatcher works on: the table, and the memory of its process. */
  datatype Memory = Memory(rows: Table, active: set<Id>, free: nat, running: multiset<Id>)

  /** After a dispatch by a process that may: handed off, with its slot and its place among the active, or neither. */
  function Handled(m: Memory, id: Id, w: Weather): Memory {
    if id !in m.rows then m.(active := m.active - {id})
    else if m.free > 0 && HandsOff(m.rows[id], w, true) then
      Memory(AfterDispatch(m.rows, id, w, true), m.active + {id}, m.free - 1, m.running + multiset{id})
    else m.(rows := AfterDispatch(m.rows, id, w, m.free > 0), active := m.active - {id})
  }

  /** The table after the first transaction of a round. */
  function Swept(m: Memory, w: Weather): Table {
    if w.sweep == ROLLED_BACK then m.rows else RearmAll(m.rows, m.active)
  }

  /** The due record that arrived first, ties by id. */
  predicate IsNextDue(rows: Table, id: Id, now: Time) {
    id in rows && Due(rows[id], now) && forall k :: k in rows && Due(rows[k], now) ==> NotAfter(rows, id, k)
  }

  /** One round: sweep, pick the next due record, dispatch it; what fails ends the round there. */
  ghost predicate IsRound(m: Memory, n: Memory, ready: bool, w: Weather, now: Time, o: Outcome, next: Next) {
    var swept := Swept(m, w);
    if w.sweep != APPLIED then n == m.(rows := swept) && next == Failed && o == DEFERRED
    else if forall id :: id in swept ==> !Due(swept[id], now) then
      n == m.(rows := swept) && next == Nothing && o == DEFERRED
    else exists id :: IsNextDue(swept, id, now) && IsRoundOn(m, n, swept, id, ready, w, o, next)
  }

  /** The pick's transaction took this record, or failed to. */
  predicate IsPick(before: Table, after: Table, id: Id, w: Weather, next: Next)
    requires id in before
  {
    && after == (if w.pick == ROLLED_BACK then before else before[id := Picked(before[id])])
    && next == if w.pick == APPLIED then Chosen(id) else Failed
  }

  predicate IsRoundOn(m: Memory, n: Memory, swept: Table, id: Id, ready: bool, w: Weather, o: Outcome, next: Next)
    requires id in swept
  {
    var picked := swept[id := Picked(swept[id])];
    if w.pick != APPLIED then
      n == m.(rows := if w.pick == ROLLED_BACK then swept else picked) && next == Failed && o == DEFERRED
    else
      && next == Chosen(id)
      && (if ready && w.leaseHealthy && !w.draining
          then n == Handled(m.(rows := picked), id, w) && o == Answer(picked[id], w, m.free > 0)
          else n == m.(rows := picked) && o == DEFERRED)
  }

  lemma RoundIs(m: Memory, n: Memory, swept: Table, picked: Table, id: Id, ready: bool, w: Weather, o: Outcome,
                next: Next)
    requires id in swept && IsPick(swept, picked, id, w, next)
    requires !next.Chosen? ==> n == m.(rows := picked) && o == DEFERRED
    requires next.Chosen? ==>
      if ready && w.leaseHealthy && !w.draining
      then n == Handled(m.(rows := picked), id, w) && o == Answer(picked[id], w, m.free > 0)
      else n == m.(rows := picked) && o == DEFERRED
    ensures IsRoundOn(m, n, swept, id, ready, w, o, next)
  {
    hide Handled, Answer, Picked;
  }

  lemma RoundIsOn(m: Memory, n: Memory, ready: bool, w: Weather, now: Time, o: Outcome, next: Next, id: Id)
    requires w.sweep == APPLIED && IsNextDue(Swept(m, w), id, now)
    requires IsRoundOn(m.(rows := Swept(m, w)), n, Swept(m, w), id, ready, w, o, next)
    ensures IsRound(m, n, ready, w, now, o, next)
  {
    hide Handled, Answer, Picked, RearmAll;
  }

  /** A failed sweep, or one that finds nothing due, is the whole round. */
  lemma ShortRounds(m: Memory, ready: bool, w: Weather, now: Time)
    ensures w.sweep != APPLIED ==> IsRound(m, m.(rows := Swept(m, w)), ready, w, now, DEFERRED, Failed)
    ensures w.sweep == APPLIED && (forall id :: id in Swept(m, w) ==> !Due(Swept(m, w)[id], now)) ==>
              IsRound(m, m.(rows := Swept(m, w)), ready, w, now, DEFERRED, Nothing)
  {
  }

  lemma HandledRuns(m: Memory, id: Id, w: Weather)
    ensures m.running <= Handled(m, id, w).running
  {
    hide AfterDispatch, HandsOff;
  }

  /** After the sweep every queued record is known to be active. */
  lemma SweepLeavesNone(rows: Table, active: set<Id>)
    ensures forall id :: id in rows && RearmAll(rows, active)[id].status == QUEUED ==> id in active
    ensures RearmAll(rows, active).Keys == rows.Keys
  {
  }

  /** A round of the sweep that dispatched a record and goes on. */
  ghost predicate Moves(m: Memory, n: Memory, ready: bool, w: Weather, now: Time) {
    && ready && w.leaseHealthy && !w.draining
    && exists id, o :: o != DEFERRED && IsRound(m, n, ready, w, now, o, Chosen(id))
  }

  /** Why a sweep stopped after so many rounds, and what its last round did. */
  ghost predicate IsStop(m: Memory, n: Memory, ready: bool, sky: seq<Weather>, clock: seq<Time>, rounds: nat,
                         stop: Stop)
    requires rounds <= |sky| == |clock|
  {
    if rounds == |sky| then n == m && stop == MoreRounds
    else if !ready || !sky[rounds].leaseHealthy || sky[rounds].draining then n == m && stop == Unavailable
    else match stop
      case NothingDue(at) => at == clock[rounds] && IsRound(m, n, ready, sky[rounds], at, DEFERRED, Nothing)
      case Broken => IsRound(m, n, ready, sky[rounds], clock[rounds], DEFERRED, Failed)
      case Waits => exists id :: IsRound(m, n, ready, sky[rounds], clock[rounds], DEFERRED, Chosen(id))
      case _ => false
  }

  predicate NotAfter(rows: Table, a: Id, b: Id)
    requires a in rows && b in rows
  {
    rows[a].created < rows[b].created || (rows[a].created == rows[b].created && a <= b)
  }

  /** One record was finalized and no other touched. */
  predicate EndedAs(before: Table, after: Table, id: Id, ending: Ending, now: Time) {
    && id in before && id in after && after == before[id := after[id]]
    && FinalizedAs(before[id], after[id], ending, now) && EndsAs(before[id], after[id], ending, now)
  }

  lemma InterruptionLeaves(rows: Table, id: Id, now: Time)
    requires id in rows
    ensures EndedAs(rows, rows, id, Interrupted, now)
  {
    assert rows[id := rows[id]] == rows;
  }

  /** From try k on, one is known to be applied before any meets a lost lease. */
  predicate SavedAt(saves: seq<Saving>, k: nat)
    decreases |saves| - k
  {
    k < |saves| && (saves[k] == SAVED || (saves[k] != LEASE_GONE && SavedAt(saves, k + 1)))
  }

  /** That is, one try is applied, and none before it meets a lost lease. */
  lemma {:induction false} SavedAtMeans(saves: seq<Saving>, k: nat)
    ensures SavedAt(saves, k) <==>
              exists i :: k <= i < |saves| && saves[i] == SAVED && forall j :: k <= j < i ==> saves[j] != LEASE_GONE
    decreases |saves| - k
  {
    if k < |saves| {
      SavedAtMeans(saves, k + 1);
      if i :| k <= i < |saves| && saves[i] == SAVED && forall j :: k <= j < i ==> saves[j] != LEASE_GONE {
        assert i > k ==> saves[k] != LEASE_GONE;
      }
      if i :| k + 1 <= i < |saves| && saves[i] == SAVED && forall j :: k + 1 <= j < i ==> saves[j] != LEASE_GONE {
        assert saves[k] != LEASE_GONE ==> forall j :: k <= j < i ==> saves[j] != LEASE_GONE;
      }
    }
  }

  /** Finalizing a record a second time, after its attempts ran out or not, changes nothing. */
  lemma FinalizeAgain(d: Delivery, ending: Ending, now: Time)
    requires ending != Interrupted
    ensures d.due == None ==> Finalized(d, Exhausted(d, ending), now) == Finalized(d, ending, now)
    ensures forall f :: FinalizedAs(d, f, ending, now) ==>
              && Finalized(f, Exhausted(d, ending), now) == f
              && Exhausted(f, Exhausted(d, ending)) == Exhausted(d, ending)
  {
  }

  // ---------------------------------------------------------------- done is for good

  /**
   * Once a body was handled or ignored and is not being executed, it is never executed again: whatever the service
   * does and meets from then on, its record stays, and the same body arriving again is a duplicate.
   */
  method DoneIsForGood(s: GitHubService, id: Id, actions: seq<Action>, other: Id, now: Time) returns (r: Intake)
    requires s.Sound() && id in s.rows && s.rows[id].status in {HANDLED, IGNORED} && id !in s.running
    requires forall a :: a in actions && a.Conclude? ==> |a.saves| == 3
    modifies s
    ensures s.Sound() && id in s.rows && s.rows[id] == old(s.rows[id]) && id !in s.running
    ensures r == Duplicate || (r == Conflict && other in s.rows && s.rows[other].digest != s.rows[id].digest)
  {
    hide TableInv, Tidy;
    ghost var d := s.rows[id];
    var raced := s.Serve(actions);
    assert s.rows[id] == d;
    assert Readmitted(d).None?;
    assert Settled(s.rows, d.digest);
    r := s.Receive(other, s.rows[id].digest, true, now);
  }

  /** So an execution that ends well, its save applied and no other of its delivery in flight, settles the body. */
  method SuccessIsForGood(s: GitHubService, id: Id, saves: seq<Saving>, actions: seq<Action>, other: Id, now: Time)
    returns (r: Intake)
    requires s.Sound() && s.running[id] == 1 && id in s.rows && |saves| == 3 && SavedAt(saves, 0)
    requires forall a :: a in actions && a.Conclude? ==> |a.saves| == 3
    modifies s
    ensures s.Sound() && id in s.rows && s.rows[id].status == HANDLED
    ensures s.rows[id].error == None && !s.rows[id].payload && s.rows[id].digest == old(s.rows[id].digest)
    ensures r == Duplicate || (r == Conflict && other in s.rows && s.rows[other].digest != s.rows[id].digest)
  {
    hide TableInv, Tidy, FinalizedAs;
    s.Finish(id, Done, now, saves);
    assert s.rows[id].status == HANDLED && s.rows[id].error == None && !s.rows[id].payload;
    r := DoneIsForGood(s, id, actions, other, now);
  }

  // ---------------------------------------------------------------- dispatching a running delivery

  const CLEAR := Weather(true, false, false, APPLIED, APPLIED, PULL(true), APPLIED, true, APPLIED)
  const DISCONNECTED := CLEAR.(payload := PULL(false))

  /**
   * From every valid state with a delivery that has an attempt left after the next: the dispatcher hands it off, a
   * second dispatch meets it running, and the next sweep re-arms it under its execution.
   */
  method RearmRunning(s: GitHubService, id: Id)
    requires s.Valid() && s.ready && s.free >= 1
    requires id in s.rows && Claimable(s.rows[id]) && s.rows[id].attempts + 1 < MAX_ATTEMPTS
    modifies s`rows, s`active, s`free, s`running, s`executions
    ensures s.Sound() && s.free == old(s.free) - 1 && s.running == old(s.running) + multiset{id}
    ensures id in s.rows && s.rows[id] == Rearmed(Claimed(old(s.rows[id])))
    ensures Claimable(s.rows[id]) && s.rows[id].attempts == old(s.rows[id].attempts) + 1
  {
    hide TableInv, Tidy, Dispatched, HandsOff, RowShape;
    ClearHandsOff(s.rows[id]);
    var o := s.Dispatch(id, CLEAR);
    o := s.Dispatch(id, CLEAR);
    assert id !in s.active;
    s.RearmOrphans();
  }

  /** With a second free slot, it is then handed off again beside its first execution. */
  method RunTwice(s: GitHubService, id: Id)
    requires s.Valid() && s.ready && s.free >= 2
    requires id in s.rows && Claimable(s.rows[id]) && s.rows[id].attempts + 1 < MAX_ATTEMPTS
    modifies s`rows, s`active, s`free, s`running, s`executions
    ensures s.Sound() && s.free == old(s.free) - 2 && s.running == old(s.running) + multiset{id} + multiset{id}
    ensures id in s.rows && s.rows[id].attempts == old(s.rows[id].attempts) + 2
  {
    hide TableInv, Tidy, Dispatched, HandsOff, RowShape;
    RearmRunning(s, id);
    ClearHandsOff(s.rows[id]);
    var o := s.Dispatch(id, CLEAR);
  }

  /**
   * When its repository was disconnected meanwhile, the second claim ends it without its payload, and a transient
   * failure of the execution still running leaves it waiting for a retry that needs one. Every slot is back.
   */
  method RaceLosesThePayload(s: GitHubService, id: Id, error: string, now: Time)
    requires s.Valid() && s.ready && s.free >= 1
    requires id in s.rows && Claimable(s.rows[id]) && s.rows[id].attempts + 1 < MAX_ATTEMPTS
    modifies s`rows, s`active, s`free, s`running, s`executions
    ensures s.Sound() && !s.Valid()
    ensures s.free == old(s.free) && s.running == old(s.running)
    ensures id in s.rows && s.rows[id].status == RETRYABLE && !s.rows[id].payload
  {
    hide TableInv, Tidy, RowShape, AfterDispatch, Answer, HandsOff;
    RearmRunning(s, id);
    DisconnectedIsIgnored(s.rows, id, s.free > 0);
    var o := s.Dispatch(id, DISCONNECTED);
    assert s.rows[id].status == IGNORED && !s.rows[id].payload;
    var saves := [SAVED, SAVED, SAVED];
    assert SavedAt(saves, 0);
    s.Finish(id, Transient(error), now, saves);
    assert !RowInv(s.rows[id]);
    NeedsEveryRecord(s.rows, s.running, s.active, id);
  }

  lemma ClearHandsOff(d: Delivery)
    requires Claimable(d) && d.attempts < MAX_ATTEMPTS
    ensures HandsOff(d, CLEAR, true) && Claimed(d) == d.(status := QUEUED, attempts := d.attempts + 1)
  {
  }

  lemma DisconnectedIsIgnored(rows: Table, id: Id, slotFree: bool)
    requires id in rows && Claimable(rows[id])
    ensures AfterDispatch(rows, id, DISCONNECTED, slotFree)
         == rows[id := rows[id].(status := IGNORED, payload := false)]
    ensures !HandsOff(rows[id], DISCONNECTED, slotFree) && Answer(rows[id], DISCONNECTED, slotFree) == NOW_IGNORED
  {
  }

  lemma NeedsEveryRecord(rows: Table, running: multiset<Id>, active: set<Id>, id: Id)
    requires id in rows && !RowInv(rows[id])
    ensures !Tidy(rows, running, active)
  {
  }

  /** Such a state is reached by receiving one delivery. */
  method FirstDelivery(id: Id, digest: string, error: string, now: Time) returns (s: GitHubService)
    ensures s.Sound() && id in s.rows && !RowInv(s.rows[id])
  {
    s := new GitHubService(1);
    s.Recover();
    var r := s.Receive(id, digest, true, now);
    assert LiveIds(map[]) == {};
    RaceLosesThePayload(s, id, error, now);
  }
}
