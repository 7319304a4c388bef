/**
 * The service lease over PostgreSQL advisory locks, as a transition system.
 *
 * Any number of processes contend for one session lock (the owner lock) and drain, through a second
 * lock taken exclusively, the transactions that hold it shared. Connections drop, processes end and
 * transactions abort at any point.
 */
module Lease {
  import opened Wrappers

  type Proc = nat
  type Pid = nat
  type Tx = nat

  /** Where a process stands in `acquire`. */
  datatype Phase =
    | Starting  // the owner lock is still to be taken
    | Draining  // owner lock held, transactions of the previous owner being drained
    | Drained   // drain committed, `acquire` about to return
    | Serving   // fence installed
    | Gone      // the process has ended

  /**
   * A process with the backend pid of its lease connection and the rank of its acquisition. Once an attempt was
   * refused, every session is rejected until the lease is held.
   */
  datatype Process = Process(phase: Phase, connected: bool, pid: Pid, epoch: nat, lost: bool, refused: bool)

  /** A `session()` block: opening fence, work, closing fence, commit. */
  datatype Stage =
    | Opening     // about to take the shared lock
    | Checking    // shared lock held, ownership not read yet
    | Working
    | Closing     // work done, about to take the shared lock again
    | Rechecking
    | Ready       // about to commit
    | Finished

  /** `admitted` once an ownership check passed while the shared lock was held. */
  datatype Transaction = Transaction(proc: Proc, stage: Stage, admitted: bool)

  datatype Event = Returned(epoch: nat) | Committed(epoch: nat) | Unfenced

  datatype State = State(
    owner: Option<Pid>,
    exclusive: Option<Proc>,
    shared: set<Tx>,
    procs: map<Proc, Process>,
    txs: map<Tx, Transaction>,
    acquisitions: nat,
    log: seq<Event>)

  datatype Step =
    | Refuse(p: Proc)             // the owner lock is taken: this attempt fails
    | Lock(p: Proc, pid: Pid)     // the owner lock is granted to a new connection with this pid
    | DrainLock(p: Proc)
    | DrainCommit(p: Proc)
    | Return(p: Proc)
    | Disconnect(p: Proc)         // the lease connection ends, releasing its locks
    | Lose(p: Proc)               // a failed probe or a shutdown sets the lost flag
    | Exit(p: Proc)               // the process ends, and all its connections with it
    | Begin(t: Tx, p: Proc)
    | Share(t: Tx)
    | Check(t: Tx)
    | FinishWork(t: Tx)
    | Commit(t: Tx)
    | Abort(t: Tx)

  const IDLE := Process(Starting, false, 0, 0, false, false)

  function ProcessOf(s: State, p: Proc): Process {
    if p in s.procs then s.procs[p] else IDLE
  }

  /** The lease fence is installed: `session` will run it. */
  predicate Fenced(s: State, p: Proc) {
    ProcessOf(s, p).phase == Serving
  }

  predicate Enabled(s: State, a: Step) {
    match a
    case Refuse(p) => ProcessOf(s, p).phase == Starting && s.owner.Some?
    case Lock(p, pid) => ProcessOf(s, p).phase == Starting && s.owner == None
    case DrainLock(p) =>
      ProcessOf(s, p).phase == Draining && ProcessOf(s, p).connected && s.exclusive == None && s.shared == {}
    case DrainCommit(p) => s.exclusive == Some(p)
    case Return(p) => ProcessOf(s, p).phase == Drained
    case Disconnect(p) => ProcessOf(s, p).connected
    case Lose(p) => true
    case Exit(p) => ProcessOf(s, p).phase != Gone
    case Begin(t, p) =>
      && t !in s.txs && ProcessOf(s, p).phase != Gone
      && !(if Fenced(s, p) then ProcessOf(s, p).lost else ProcessOf(s, p).refused)
    case Share(t) => t in s.txs && s.txs[t].stage in {Opening, Closing} && (t in s.shared || s.exclusive == None)
    case Check(t) => t in s.txs && s.txs[t].stage in {Checking, Rechecking}
    case FinishWork(t) => t in s.txs && s.txs[t].stage == Working
    case Commit(t) => t in s.txs && s.txs[t].stage == Ready
    case Abort(t) => t in s.txs && s.txs[t].stage != Finished
  }

  function Ended(s: State, t: Tx): State
    requires t in s.txs
  {
    s.(txs := s.txs[t := s.txs[t].(stage := Finished)], shared := s.shared - {t})
  }

  function Lost(s: State, p: Proc): State {
    s.(procs := s.procs[p := ProcessOf(s, p).(lost := true)])
  }

  /** The lease connection of a process ends, if it has one. */
  function Released(s: State, p: Proc): State {
    if !ProcessOf(s, p).connected then s
    else
      s.(procs := s.procs[p := ProcessOf(s, p).(connected := false)],
         owner := if s.owner == Some(ProcessOf(s, p).pid) then None else s.owner,
         exclusive := if s.exclusive == Some(p) then None else s.exclusive)
  }

  function Exited(s: State, p: Proc): State {
    var r := Released(s, p);
    r.(procs := r.procs[p := ProcessOf(r, p).(phase := Gone)],
       txs := map t | t in r.txs :: if r.txs[t].proc == p then r.txs[t].(stage := Finished) else r.txs[t],
       shared := set t | t in r.shared && !(t in r.txs && r.txs[t].proc == p))
  }

  function Transition(s: State, a: Step): State
    requires Enabled(s, a)
  {
    match a
    case Refuse(p) => s.(procs := s.procs[p := ProcessOf(s, p).(refused := true)])
    case Lock(p, pid) =>
      var taken := ProcessOf(s, p).(phase := Draining, connected := true, pid := pid, epoch := s.acquisitions + 1);
      s.(owner := Some(pid), acquisitions := s.acquisitions + 1, procs := s.procs[p := taken])
    case DrainLock(p) => s.(exclusive := Some(p))
    case DrainCommit(p) => s.(exclusive := None, procs := s.procs[p := ProcessOf(s, p).(phase := Drained)])
    case Return(p) =>
      s.(procs := s.procs[p := ProcessOf(s, p).(phase := Serving)], log := s.log + [Returned(ProcessOf(s, p).epoch)])
    case Disconnect(p) => Released(s, p)
    case Lose(p) => Lost(s, p)
    case Exit(p) => Exited(s, p)
    case Begin(t, p) =>
      s.(txs := s.txs[t := Transaction(p, if Fenced(s, p) then Opening else Working, false)])
    case Share(t) =>
      var x := s.txs[t];
      s.(shared := s.shared + {t}, txs := s.txs[t := x.(stage := if x.stage == Opening then Checking else Rechecking)])
    case Check(t) =>
      var x := s.txs[t];
      if s.owner == Some(ProcessOf(s, x.proc).pid) then
        s.(txs := s.txs[t := x.(stage := if x.stage == Checking then Working else Ready, admitted := true)])
      else Lost(Ended(s, t), x.proc)
    case FinishWork(t) =>
      var x := s.txs[t];
      if Fenced(s, x.proc) then
        if ProcessOf(s, x.proc).lost then Ended(s, t) else s.(txs := s.txs[t := x.(stage := Closing)])
      else if ProcessOf(s, x.proc).refused then Ended(s, t)
      else s.(txs := s.txs[t := x.(stage := Ready)])
    case Commit(t) =>
      var x := s.txs[t];
      Ended(s, t).(log := s.log + [if x.admitted then Committed(ProcessOf(s, x.proc).epoch) else Unfenced])
    case Abort(t) => Ended(s, t)
  }

  const INITIAL := State(None, None, {}, map[], map[], 0, [])

  /** The steps can be taken one after the other from s. */
  ghost predicate Runs(s: State, steps: seq<Step>)
    decreases |steps|
  {
    steps != [] ==> Enabled(s, steps[0]) && Runs(Transition(s, steps[0]), steps[1..])
  }

  ghost function After(s: State, steps: seq<Step>): State
    requires Runs(s, steps)
    decreases |steps|
  {
    if steps == [] then s else After(Transition(s, steps[0]), steps[1..])
  }

  /** The property: once an acquisition has returned, only it or a later one commits. */
  ghost predicate StaleCommitFree(log: seq<Event>) {
    forall i, j :: 0 <= i < j < |log| && log[i].Returned? && log[j].Committed? ==> log[i].epoch <= log[j].epoch
  }

  // ---------------------------------------------------------------- which pids may be reused

  /** A later acquisition has returned, or will without taking another lock. */
  ghost predicate Overtaken(s: State, epoch: nat) {
    || (exists i :: 0 <= i < |s.log| && s.log[i].Returned? && s.log[i].epoch > epoch)
    || (exists r :: ProcessOf(s, r).phase == Drained && ProcessOf(s, r).epoch > epoch)
  }

  /** A transaction begun before the fence that the closing fence alone decides, after the lease has moved on. */
  ghost predicate Lingers(s: State, t: Tx, q: Proc) {
    t in s.txs && s.txs[t].proc == q && !s.txs[t].admitted &&
    (s.txs[t].stage == Closing || (s.txs[t].stage == Rechecking && Overtaken(s, ProcessOf(s, q).epoch)))
  }

  /** A holder of the lease whose ownership check could still let a transaction commit. */
  ghost predicate CanStillAct(s: State, q: Proc) {
    || (ProcessOf(s, q).phase in {Drained, Serving} && !ProcessOf(s, q).lost)
    || (exists t :: Lingers(s, t, q))
  }

  /** No other holder of this pid, dead or alive, can still act on it. */
  ghost predicate Harmless(s: State, p: Proc, pid: Pid) {
    forall q :: q != p && ProcessOf(s, q).epoch > 0 && ProcessOf(s, q).pid == pid ==> !CanStillAct(s, q)
  }

  /** Along the run, a pid is reused only when that is harmless. */
  ghost predicate PidsHarmless(s: State, steps: seq<Step>)
    requires Runs(s, steps)
    decreases |steps|
  {
    steps != [] ==>
      (steps[0].Lock? ==> Harmless(s, steps[0].p, steps[0].pid)) && PidsHarmless(Transition(s, steps[0]), steps[1..])
  }

  // ---------------------------------------------------------------- the invariant

  /** A live lease connection holds the owner lock and belongs to the latest acquisition. */
  ghost predicate OwnerInv(s: State) {
    && (forall p :: ProcessOf(s, p).connected ==>
          && s.owner == Some(ProcessOf(s, p).pid) && ProcessOf(s, p).epoch == s.acquisitions
          && ProcessOf(s, p).phase in {Draining, Drained, Serving})
    && (forall p :: ProcessOf(s, p).epoch <= s.acquisitions)
    && (forall p :: ProcessOf(s, p).phase in {Draining, Drained, Serving} ==> ProcessOf(s, p).epoch > 0)
    && (forall p :: ProcessOf(s, p).phase == Starting ==> ProcessOf(s, p).epoch == 0)
    && (s.owner.Some? ==> exists p :: ProcessOf(s, p).connected)
  }

  /** Acquisitions are told apart by epoch. */
  ghost predicate EpochInv(s: State) {
    forall p, q :: ProcessOf(s, p).epoch > 0 && ProcessOf(s, q).epoch > 0 && p != q ==>
      ProcessOf(s, p).epoch != ProcessOf(s, q).epoch
  }

  /** Nobody who can still act shares the pid of the live lease connection. */
  ghost predicate PidInv(s: State) {
    forall h :: ProcessOf(s, h).connected ==> Harmless(s, h, ProcessOf(s, h).pid)
  }

  ghost predicate DrainInv(s: State) {
    s.exclusive.Some? ==>
      && ProcessOf(s, s.exclusive.value).connected && ProcessOf(s, s.exclusive.value).phase == Draining
      && s.shared == {}
  }

  /** Fenced stages are reached only by serving processes, and the shared lock is held from share to the end. */
  ghost predicate StageInv(s: State) {
    && (forall t :: t in s.txs && s.txs[t].stage in {Opening, Checking, Closing, Rechecking} ==>
          ProcessOf(s, s.txs[t].proc).phase == Serving)
    && (forall t :: t in s.shared ==> t in s.txs && s.txs[t].stage != Finished)
    && (forall t :: t in s.txs && s.txs[t].stage in {Checking, Rechecking} ==> t in s.shared)
    && (forall t :: t in s.shared && !s.txs[t].admitted ==> s.txs[t].stage in {Checking, Rechecking})
  }

  /** An admitted transaction holds the shared lock and was not overtaken, or its process will refuse to commit it. */
  ghost predicate AdmittedInv(s: State) {
    forall t :: t in s.txs && s.txs[t].admitted && s.txs[t].stage != Finished ==>
      && t in s.shared && ProcessOf(s, s.txs[t].proc).phase == Serving
      && (!Overtaken(s, ProcessOf(s, s.txs[t].proc).epoch)
          || (s.txs[t].stage == Working && ProcessOf(s, s.txs[t].proc).lost))
  }

  ghost predicate LogInv(s: State) {
    && StaleCommitFree(s.log)
    && forall i :: 0 <= i < |s.log| && s.log[i].Returned? ==> s.log[i].epoch <= s.acquisitions
  }

  ghost predicate Inv(s: State) {
    OwnerInv(s) && EpochInv(s) && PidInv(s) && DrainInv(s) && StageInv(s) && AdmittedInv(s) && LogInv(s)
  }

  predicate TxStep(a: Step) {
    a.Begin? || a.Share? || a.Check? || a.FinishWork? || a.Commit? || a.Abort?
  }

  /** Two states agree on the lease and, but for lost flags that may be set, on every process. */
  ghost predicate SameLease(s: State, r: State) {
    && r.owner == s.owner && r.exclusive == s.exclusive && r.acquisitions == s.acquisitions
    && forall p ::
         && ProcessOf(r, p).(lost := false) == ProcessOf(s, p).(lost := false)
         && (ProcessOf(s, p).lost ==> ProcessOf(r, p).lost)
  }

  /** The same, field by field. */
  lemma SameProcess(s: State, r: State, p: Proc)
    requires SameLease(s, r)
    ensures var x, y := ProcessOf(s, p), ProcessOf(r, p);
      && x.phase == y.phase && x.connected == y.connected && x.pid == y.pid && x.epoch == y.epoch
      && (x.lost ==> y.lost)
  {
    assert ProcessOf(r, p).(lost := false) == ProcessOf(s, p).(lost := false);
  }

  lemma TxKeepsLease(s: State, a: Step)
    requires Enabled(s, a) && TxStep(a)
    ensures SameLease(s, Transition(s, a))
  {
  }

  lemma SameLeaseKeepsOwner(s: State, r: State)
    requires SameLease(s, r) && OwnerInv(s) && EpochInv(s)
    ensures OwnerInv(r) && EpochInv(r)
  {
    forall p ensures SameButLost(ProcessOf(s, p), ProcessOf(r, p)) { SameProcess(s, r, p); }
    if s.owner.Some? {
      var q :| ProcessOf(s, q).connected;
      assert SameButLost(ProcessOf(s, q), ProcessOf(r, q));
    }
  }

  predicate SameButLost(x: Process, y: Process) {
    x.phase == y.phase && x.connected == y.connected && x.pid == y.pid && x.epoch == y.epoch && (x.lost ==> y.lost)
  }

  // ---------------------------------------------------------------- one step

  /** No step but a drain's commit lets the lease move past an acquisition. */
  lemma OvertakenBefore(s: State, a: Step, epoch: nat)
    requires Enabled(s, a) && !a.DrainCommit? && Overtaken(Transition(s, a), epoch)
    ensures Overtaken(s, epoch)
  {
    var r := Transition(s, a);
    if i :| 0 <= i < |r.log| && r.log[i].Returned? && r.log[i].epoch > epoch {
      if i < |s.log| {
        assert r.log[i] == s.log[i];
      } else {
        assert ProcessOf(s, a.p).phase == Drained && ProcessOf(s, a.p).epoch > epoch;
      }
    } else {
      var d :| ProcessOf(r, d).phase == Drained && ProcessOf(r, d).epoch > epoch;
      if TxStep(a) {
        TxKeepsLease(s, a);
        SameProcess(s, r, d);
      }
      assert ProcessOf(s, d).phase == Drained && ProcessOf(s, d).epoch > epoch;
    }
  }

  /** Any other process is as it was, but for a lost flag. */
  lemma OtherProcess(s: State, a: Step, q: Proc)
    requires Enabled(s, a) && (!TxStep(a) ==> q != a.p)
    ensures SameButLost(ProcessOf(s, q), ProcessOf(Transition(s, a), q))
  {
    if TxStep(a) {
      TxKeepsLease(s, a);
      SameProcess(s, Transition(s, a), q);
    }
  }

  /** A transaction at a closing fence was there before, or has just left its work under a process that can act. */
  lemma LingeredBefore(s: State, a: Step, t: Tx, q: Proc)
    requires StageInv(s) && DrainInv(s) && Enabled(s, a) && (a.DrainCommit? || a.Lock? ==> q != a.p)
    requires Lingers(Transition(s, a), t, q)
    ensures CanStillAct(s, q)
  {
    var r := Transition(s, a);
    var e := ProcessOf(r, q).epoch;
    assert e == ProcessOf(s, q).epoch by { EpochStays(s, a, q); }
    if !a.DrainCommit? && Overtaken(r, e) {
      OvertakenBefore(s, a, e);
    }
    if TxStep(a) && a.t == t {
      MovedToTheFence(s, a);
    } else {
      TxUntouched(s, a, t);
      assert Lingers(s, t, q);
    }
  }

  lemma EpochStays(s: State, a: Step, q: Proc)
    requires Enabled(s, a) && (a.Lock? ==> q != a.p)
    ensures ProcessOf(Transition(s, a), q).epoch == ProcessOf(s, q).epoch
    ensures ProcessOf(Transition(s, a), q).pid == ProcessOf(s, q).pid
  {
    if TxStep(a) || q != a.p {
      OtherProcess(s, a, q);
    }
  }

  /** A step leaves every transaction alone that it does not name and whose process does not end. */
  lemma TxUntouched(s: State, a: Step, t: Tx)
    requires Enabled(s, a) && !(TxStep(a) && a.t == t) && t in Transition(s, a).txs
    requires Transition(s, a).txs[t].stage != Finished
    ensures t in s.txs && s.txs[t] == Transition(s, a).txs[t]
    ensures t in s.shared <==> t in Transition(s, a).shared
  {
  }

  lemma MovedToTheFence(s: State, a: Step)
    requires StageInv(s) && Enabled(s, a) && TxStep(a) && a.t in Transition(s, a).txs
    requires !Transition(s, a).txs[a.t].admitted && Transition(s, a).txs[a.t].stage in {Closing, Rechecking}
    ensures a.t in s.txs && s.txs[a.t].proc == Transition(s, a).txs[a.t].proc
    ensures CanStillAct(s, s.txs[a.t].proc)
  {
    var q := s.txs[a.t].proc;
    if a.Share? {
      assert Lingers(s, a.t, q);
    }
  }

  /** Nobody who could not act can act after a step, but the process whose drain just committed. */
  lemma ActsNoMore(s: State, a: Step, q: Proc)
    requires StageInv(s) && DrainInv(s) && Enabled(s, a) && (a.DrainCommit? || a.Lock? ==> q != a.p)
    requires CanStillAct(Transition(s, a), q)
    ensures CanStillAct(s, q)
  {
    var r := Transition(s, a);
    if ProcessOf(r, q).phase in {Drained, Serving} && !ProcessOf(r, q).lost {
      if TxStep(a) || q != a.p {
        OtherProcess(s, a, q);
      }
      assert ProcessOf(s, q).phase in {Drained, Serving} && !ProcessOf(s, q).lost;
    } else {
      var t :| Lingers(r, t, q);
      LingeredBefore(s, a, t, q);
    }
  }

  lemma HarmlessStays(s: State, a: Step, h: Proc, pid: Pid)
    requires StageInv(s) && DrainInv(s) && Enabled(s, a) && Harmless(s, h, pid)
    requires a.DrainCommit? || a.Lock? ==> h == a.p
    ensures Harmless(Transition(s, a), h, pid)
  {
    hide Transition, CanStillAct;
    forall q | q != h && ProcessOf(Transition(s, a), q).epoch > 0 && ProcessOf(Transition(s, a), q).pid == pid
      ensures !CanStillAct(Transition(s, a), q)
    {
      EpochStays(s, a, q);
      if CanStillAct(Transition(s, a), q) {
        ActsNoMore(s, a, q);
      }
    }
  }

  /** Only the latest acquisition has a connection. */
  lemma OneConnection(s: State, p: Proc, q: Proc)
    requires OwnerInv(s) && EpochInv(s) && ProcessOf(s, p).connected && ProcessOf(s, q).connected
    ensures p == q
  {
  }

  lemma ConnectedBefore(s: State, a: Step, h: Proc)
    requires Enabled(s, a) && ProcessOf(Transition(s, a), h).connected && !(a.Lock? && h == a.p)
    ensures ProcessOf(s, h).connected && ProcessOf(s, h).pid == ProcessOf(Transition(s, a), h).pid
  {
    if TxStep(a) || h != a.p {
      OtherProcess(s, a, h);
    }
  }

  lemma PidStep(s: State, a: Step)
    requires Inv(s) && Enabled(s, a) && (a.Lock? ==> Harmless(s, a.p, a.pid))
    ensures PidInv(Transition(s, a))
  {
    hide Harmless, CanStillAct;
    var r := Transition(s, a);
    forall h | ProcessOf(r, h).connected ensures Harmless(r, h, ProcessOf(r, h).pid) {
      if a.Lock? {
        if h != a.p {
          ConnectedBefore(s, a, h);
          assert false;
        }
        HarmlessStays(s, a, h, a.pid);
      } else {
        ConnectedBefore(s, a, h);
        if a.DrainCommit? {
          OneConnection(s, h, a.p);
        }
        HarmlessStays(s, a, h, ProcessOf(s, h).pid);
      }
    }
  }

  /** A process keeps its acquisition, and the owner lock goes only with its connection. */
  lemma OwnerFrom(s: State, r: State, p: Proc)
    requires OwnerInv(s) && EpochInv(s) && r.acquisitions == s.acquisitions
    requires forall q :: q != p ==> ProcessOf(r, q) == ProcessOf(s, q)
    requires var x, y := ProcessOf(s, p), ProcessOf(r, p);
      && y.epoch == x.epoch && y.pid == x.pid && (y.phase == Starting ==> x.phase == Starting)
      && (y.phase in {Draining, Drained, Serving} ==> x.phase in {Draining, Drained, Serving})
      && (y.connected ==> x.connected && y.phase in {Draining, Drained, Serving})
      && r.owner == if x.connected && !y.connected then None else s.owner
    ensures OwnerInv(r) && EpochInv(r)
  {
    if r.owner.Some? {
      var h :| ProcessOf(s, h).connected;
      assert ProcessOf(r, h).connected;
    }
  }

  lemma OwnerStep(s: State, a: Step)
    requires OwnerInv(s) && EpochInv(s) && DrainInv(s) && Enabled(s, a)
    ensures OwnerInv(Transition(s, a)) && EpochInv(Transition(s, a))
  {
    if TxStep(a) {
      TxKeepsLease(s, a);
      SameLeaseKeepsOwner(s, Transition(s, a));
    } else if a.Lock? {
      LockedOwner(s, a);
    } else if a.Disconnect? || a.Exit? {
      ReleasedOwner(s, a);
    } else {
      UnchangedOwner(s, a);
    }
  }

  lemma UnchangedOwner(s: State, a: Step)
    requires OwnerInv(s) && EpochInv(s) && DrainInv(s) && Enabled(s, a)
    requires a.Refuse? || a.DrainLock? || a.DrainCommit? || a.Return? || a.Lose?
    ensures OwnerInv(Transition(s, a)) && EpochInv(Transition(s, a))
  {
    assert a.DrainCommit? ==> ProcessOf(s, a.p).phase == Draining;
    assert ProcessOf(s, a.p).connected ==> ProcessOf(s, a.p).phase in {Draining, Drained, Serving};
    hide OwnerInv, EpochInv;
    OwnerFrom(s, Transition(s, a), a.p);
  }

  lemma LockedOwner(s: State, a: Step)
    requires OwnerInv(s) && EpochInv(s) && Enabled(s, a) && a.Lock?
    ensures OwnerInv(Transition(s, a)) && EpochInv(Transition(s, a))
  {
    var r := Transition(s, a);
    assert forall q :: q != a.p ==> ProcessOf(r, q) == ProcessOf(s, q);
    assert ProcessOf(r, a.p).connected;
  }

  lemma ReleasedOwner(s: State, a: Step)
    requires OwnerInv(s) && EpochInv(s) && Enabled(s, a) && (a.Disconnect? || a.Exit?)
    ensures OwnerInv(Transition(s, a)) && EpochInv(Transition(s, a))
  {
    assert s.owner.Some? && ProcessOf(s, a.p).connected ==> s.owner == Some(ProcessOf(s, a.p).pid);
    hide OwnerInv, EpochInv;
    OwnerFrom(s, Transition(s, a), a.p);
  }

  lemma DrainStep(s: State, a: Step)
    requires OwnerInv(s) && DrainInv(s) && Enabled(s, a)
    ensures DrainInv(Transition(s, a))
  {
    var r := Transition(s, a);
    if TxStep(a) {
      TxKeepsLease(s, a);
      if s.exclusive.Some? { SameProcess(s, r, s.exclusive.value); }
    } else {
      assert forall q :: q != a.p ==> ProcessOf(r, q) == ProcessOf(s, q);
    }
  }

  lemma SharedBefore(s: State, a: Step, t: Tx)
    requires Enabled(s, a) && t in Transition(s, a).shared && t in Transition(s, a).txs && !(TxStep(a) && a.t == t)
    ensures t in s.shared && t in s.txs && s.txs[t] == Transition(s, a).txs[t]
  {
  }

  lemma StageOfOthers(s: State, a: Step, t: Tx)
    requires StageInv(s) && DrainInv(s) && Enabled(s, a)
    requires t in Transition(s, a).txs && !(TxStep(a) && a.t == t)
    ensures var r := Transition(s, a); var x := r.txs[t];
      && (x.stage in {Opening, Checking, Closing, Rechecking} ==> ProcessOf(r, x.proc).phase == Serving)
      && (t in r.shared ==> x.stage != Finished)
      && (x.stage in {Checking, Rechecking} ==> t in r.shared)
      && (t in r.shared && !x.admitted ==> x.stage in {Checking, Rechecking})
  {
    var x := Transition(s, a).txs[t];
    if t in Transition(s, a).shared {
      SharedBefore(s, a, t);
      assert t in s.shared;
    }
    if x.stage != Finished {
      TxUntouched(s, a, t);
      if TxStep(a) || x.proc != a.p {
        OtherProcess(s, a, x.proc);
      }
    }
  }

  lemma StageOfMoved(s: State, a: Step)
    requires StageInv(s) && Enabled(s, a) && TxStep(a)
    ensures var r := Transition(s, a); a.t in r.txs && var x := r.txs[a.t];
      && (x.stage in {Opening, Checking, Closing, Rechecking} ==> ProcessOf(r, x.proc).phase == Serving)
      && (a.t in r.shared ==> x.stage != Finished)
      && (x.stage in {Checking, Rechecking} ==> a.t in r.shared)
      && (a.t in r.shared && !x.admitted ==> x.stage in {Checking, Rechecking})
  {
  }

  lemma SharedAreKnown(s: State, a: Step)
    requires StageInv(s) && Enabled(s, a)
    ensures forall t :: t in Transition(s, a).shared ==> t in Transition(s, a).txs
  {
  }

  lemma StageStep(s: State, a: Step)
    requires StageInv(s) && DrainInv(s) && Enabled(s, a)
    ensures StageInv(Transition(s, a))
  {
    hide Transition;
    var r := Transition(s, a);
    SharedAreKnown(s, a);
    if TxStep(a) { StageOfMoved(s, a); }
    forall t | t in r.txs && !(TxStep(a) && a.t == t) ensures StagedWell(r, t) {
      StageOfOthers(s, a, t);
    }
    assert forall t :: t in r.txs ==> StagedWell(r, t);
  }

  predicate StagedWell(r: State, t: Tx)
    requires t in r.txs
  {
    var x := r.txs[t];
    && (x.stage in {Opening, Checking, Closing, Rechecking} ==> ProcessOf(r, x.proc).phase == Serving)
    && (t in r.shared ==> x.stage != Finished)
    && (x.stage in {Checking, Rechecking} ==> t in r.shared)
    && (t in r.shared && !x.admitted ==> x.stage in {Checking, Rechecking})
  }

  /** The latest acquisition is not overtaken. */
  lemma LatestIsNotOvertaken(s: State, p: Proc)
    requires OwnerInv(s) && LogInv(s) && ProcessOf(s, p).epoch == s.acquisitions
    ensures !Overtaken(s, ProcessOf(s, p).epoch)
  {
  }

  /**
   * A passing ownership check belongs to the latest acquisition, or to a process that cannot act on it: then the
   * transaction has only just begun its work, or was admitted before, or was not overtaken.
   */
  lemma CheckMeansLatest(s: State, t: Tx)
    requires Inv(s) && t in s.txs && s.txs[t].stage in {Checking, Rechecking}
    requires s.owner == Some(ProcessOf(s, s.txs[t].proc).pid)
    ensures var q := s.txs[t].proc;
      !Overtaken(s, ProcessOf(s, q).epoch) || (s.txs[t].stage == Checking && ProcessOf(s, q).lost)
  {
    var q := s.txs[t].proc;
    var h :| ProcessOf(s, h).connected;
    if h == q {
      LatestIsNotOvertaken(s, q);
    } else {
      assert Harmless(s, h, ProcessOf(s, h).pid);
      assert !CanStillAct(s, q);
      assert !Lingers(s, t, q);
    }
  }

  /** What admission means for one transaction. */
  ghost predicate AdmittedWell(s: State, t: Tx)
    requires t in s.txs
  {
    var q := s.txs[t].proc;
    s.txs[t].admitted && s.txs[t].stage != Finished ==>
      && t in s.shared && ProcessOf(s, q).phase == Serving
      && (!Overtaken(s, ProcessOf(s, q).epoch) || (s.txs[t].stage == Working && ProcessOf(s, q).lost))
  }

  /** A transaction is admitted only while it holds the shared lock and nobody has overtaken its process. */
  lemma MovingAdmitted(s: State, a: Step)
    requires Inv(s) && Enabled(s, a) && TxStep(a)
    ensures a.t in Transition(s, a).txs && AdmittedWell(Transition(s, a), a.t)
  {
    var r := Transition(s, a);
    hide OwnerInv, EpochInv, PidInv, DrainInv, LogInv;
    if r.txs[a.t].admitted && r.txs[a.t].stage != Finished {
      var q := s.txs[a.t].proc;
      OtherProcess(s, a, q);
      if Overtaken(r, ProcessOf(r, q).epoch) {
        OvertakenBefore(s, a, ProcessOf(s, q).epoch);
      }
      if a.Check? {
        CheckMeansLatest(s, a.t);
      } else {
        assert AdmittedWell(s, a.t);
      }
    }
  }

  lemma AdmittedOthers(s: State, a: Step, t: Tx)
    requires StageInv(s) && DrainInv(s) && AdmittedInv(s) && Enabled(s, a) && t in Transition(s, a).txs
    requires !(TxStep(a) && a.t == t)
    ensures AdmittedWell(Transition(s, a), t)
  {
    var r := Transition(s, a);
    if r.txs[t].admitted && r.txs[t].stage != Finished {
      TxUntouched(s, a, t);
      var q := s.txs[t].proc;
      assert AdmittedWell(s, t);
      if TxStep(a) || q != a.p {
        OtherProcess(s, a, q);
      }
      if Overtaken(r, ProcessOf(r, q).epoch) && !a.DrainCommit? {
        EpochStays(s, a, q);
        OvertakenBefore(s, a, ProcessOf(s, q).epoch);
      }
    }
  }

  lemma AdmittedStep(s: State, a: Step)
    requires Inv(s) && Enabled(s, a)
    ensures AdmittedInv(Transition(s, a))
  {
    var r := Transition(s, a);
    if TxStep(a) { MovingAdmitted(s, a); }
    forall t | t in r.txs ensures AdmittedWell(r, t) {
      if !(TxStep(a) && a.t == t) { AdmittedOthers(s, a, t); }
    }
    hide Transition;
  }

  /** A commit is never stale. */
  lemma LogStep(s: State, a: Step)
    requires Inv(s) && Enabled(s, a)
    ensures LogInv(Transition(s, a))
  {
    hide PidInv, EpochInv, DrainInv, StageInv;
    var r := Transition(s, a);
    if a.Commit? {
      assert AdmittedWell(s, a.t);
    }
    assert r.log == s.log || |r.log| == |s.log| + 1;
    forall i, j | 0 <= i < j < |r.log| && r.log[i].Returned? && r.log[j].Committed?
      ensures r.log[i].epoch <= r.log[j].epoch
    {
      assert r.log[i] == s.log[i];
      if j < |s.log| {
        assert r.log[j] == s.log[j];
      }
    }
  }

  lemma InvStep(s: State, a: Step)
    requires Inv(s) && Enabled(s, a) && (a.Lock? ==> Harmless(s, a.p, a.pid))
    ensures Inv(Transition(s, a))
  {
    hide Transition, OwnerInv, EpochInv, PidInv, DrainInv, StageInv, AdmittedInv, LogInv;
    OwnerStep(s, a);
    PidStep(s, a);
    DrainStep(s, a);
    StageStep(s, a);
    AdmittedStep(s, a);
    LogStep(s, a);
  }

  lemma {:induction false} InvRun(s: State, steps: seq<Step>)
    requires Inv(s) && Runs(s, steps) && PidsHarmless(s, steps)
    ensures Inv(After(s, steps))
    decreases |steps|
  {
    hide Inv, Transition, Enabled;
    if steps != [] {
      InvStep(s, steps[0]);
      InvRun(Transition(s, steps[0]), steps[1..]);
    }
  }

  /**
   * Over every run in which a pid is reused only once its earlier holders can no longer act: once an acquisition has
   * returned, no transaction admitted under an earlier one commits.
   */
  lemma Fencing(steps: seq<Step>)
    requires Runs(INITIAL, steps) && PidsHarmless(INITIAL, steps)
    ensures StaleCommitFree(After(INITIAL, steps).log)
  {
    assert Inv(INITIAL);
    InvRun(INITIAL, steps);
  }

  /** At most one live lease connection exists in every such state, and it is the latest acquisition's. */
  lemma SingleOwner(steps: seq<Step>, p: Proc, q: Proc)
    requires Runs(INITIAL, steps) && PidsHarmless(INITIAL, steps)
    requires ProcessOf(After(INITIAL, steps), p).connected && ProcessOf(After(INITIAL, steps), q).connected
    ensures p == q && ProcessOf(After(INITIAL, steps), p).epoch == After(INITIAL, steps).acquisitions
  {
    assert Inv(INITIAL);
    InvRun(INITIAL, steps);
  }

  // ---------------------------------------------------------------- a process that lost the lease stops

  /** A check that fails ends its transaction and marks its process, whoever holds the lease. */
  lemma FailedCheckLoses(s: State, t: Tx)
    requires Enabled(s, Check(t)) && s.owner != Some(ProcessOf(s, s.txs[t].proc).pid)
    ensures var r := Transition(s, Check(t));
      r.txs[t].stage == Finished && t !in r.shared && ProcessOf(r, s.txs[t].proc).lost && r.log == s.log
  {
  }

  /** A failed probe marks the process as lost and a refused attempt as refused, and neither changes anything else. */
  lemma FlagsAreSet(s: State, p: Proc)
    ensures ProcessOf(Transition(s, Lose(p)), p) == ProcessOf(s, p).(lost := true)
    ensures Enabled(s, Refuse(p)) ==> ProcessOf(Transition(s, Refuse(p)), p) == ProcessOf(s, p).(refused := true)
    ensures Transition(s, Lose(p)).txs == s.txs && Transition(s, Lose(p)).owner == s.owner
    ensures Enabled(s, Refuse(p)) ==> Transition(s, Refuse(p)).txs == s.txs && Transition(s, Refuse(p)).owner == s.owner
  {
  }

  lemma {:induction false} LostStays(s: State, steps: seq<Step>, p: Proc)
    requires Runs(s, steps)
    ensures ProcessOf(s, p).lost ==> ProcessOf(After(s, steps), p).lost
    ensures ProcessOf(s, p).refused ==> ProcessOf(After(s, steps), p).refused
    decreases |steps|
  {
    if steps != [] {
      LostStays(Transition(s, steps[0]), steps[1..], p);
    }
  }

  /**
   * From then on no transaction of the process begins under its fence, and none that is at work passes on to its
   * closing fence; the same before the fence once an attempt at the lease was refused.
   */
  lemma StopsForGood(s: State, steps: seq<Step>, p: Proc, t: Tx)
    requires Runs(s, steps)
    ensures var r := After(s, steps);
      && ((ProcessOf(s, p).lost && Fenced(r, p)) || (ProcessOf(s, p).refused && !Fenced(r, p)) ==>
            && !Enabled(r, Begin(t, p))
            && (Enabled(r, FinishWork(t)) && r.txs[t].proc == p ==>
                  Transition(r, FinishWork(t)).txs[t].stage == Finished))
  {
    LostStays(s, steps, p);
  }

  // ---------------------------------------------------------------- and no more than that

  lemma UpperBound(known: set<Tx>) returns (n: nat)
    ensures forall t :: t in known ==> t < n
  {
    if known == {} {
      n := 0;
    } else {
      var t :| t in known;
      var m := UpperBound(known - {t});
      n := if t < m then m else t + 1;
      forall u | u in known ensures u < n {
        if u != t { assert u in known - {t}; }
      }
    }
  }

  lemma OneMore(s: State, steps: seq<Step>, a: Step)
    requires Runs(s, steps) && Enabled(After(s, steps), a)
    ensures Runs(s, steps + [a]) && After(s, steps + [a]) == Transition(After(s, steps), a)
  {
    assert [a][1..] == [];
    RunsAppend(s, steps, [a]);
  }

  lemma {:induction false} RunsAppend(s: State, a: seq<Step>, b: seq<Step>)
    requires Runs(s, a) && Runs(After(s, a), b)
    ensures Runs(s, a + b) && After(s, a + b) == After(After(s, a), b)
    decreases |a|
  {
    if a == [] {
      assert a + b == b;
    } else {
      RunsAppend(Transition(s, a[0]), a[1..], b);
      assert (a + b)[0] == a[0] && (a + b)[1..] == a[1..] + b;
    }
  }

  predicate NoLock(steps: seq<Step>) {
    forall i :: 0 <= i < |steps| ==> !steps[i].Lock?
  }

  lemma {:induction false} NoLockIsHarmless(s: State, steps: seq<Step>)
    requires Runs(s, steps) && NoLock(steps)
    ensures PidsHarmless(s, steps)
    decreases |steps|
  {
    if steps != [] {
      NoLockIsHarmless(Transition(s, steps[0]), steps[1..]);
    }
  }

  /** Everything but the transactions holding the shared lock is as it was, and those are gone. */
  ghost predicate Cleared(s: State, r: State) {
    && r.shared == {} && r.procs == s.procs && r.owner == s.owner && r.exclusive == s.exclusive
    && r.log == s.log && r.acquisitions == s.acquisitions
    && forall t :: t !in s.shared ==> (t in r.txs <==> t in s.txs) && (t in s.txs ==> r.txs[t] == s.txs[t])
  }

  /** Every transaction that holds the shared lock may abort. */
  lemma {:induction false} AbortShared(s: State) returns (steps: seq<Step>)
    requires forall t :: t in s.shared ==> t in s.txs && s.txs[t].stage != Finished
    ensures Runs(s, steps) && NoLock(steps) && Cleared(s, After(s, steps))
    decreases s.shared
  {
    if s.shared == {} {
      steps := [];
    } else {
      var t :| t in s.shared;
      var rest := AbortShared(Transition(s, Abort(t)));
      steps := [Abort(t)] + rest;
      assert steps[1..] == rest;
    }
  }

  /** A process that has just taken the owner lock drains and returns, if transactions stand out of its way. */
  lemma Acquire(s: State, p: Proc) returns (steps: seq<Step>)
    requires ProcessOf(s, p).phase == Draining && ProcessOf(s, p).connected && s.exclusive == None
    requires forall t :: t in s.shared ==> t in s.txs && s.txs[t].stage != Finished
    ensures Runs(s, steps) && NoLock(steps)
    ensures var r := After(s, steps);
      && Cleared(s.(procs := r.procs, log := r.log), r)
      && r.procs == s.procs[p := ProcessOf(s, p).(phase := Serving)]
      && r.log == s.log + [Returned(ProcessOf(s, p).epoch)]
  {
    hide Runs, After, NoLock;
    var aborts := AbortShared(s);
    var r := After(s, aborts);
    OneMore(s, aborts, DrainLock(p));
    OneMore(s, aborts + [DrainLock(p)], DrainCommit(p));
    OneMore(s, aborts + [DrainLock(p)] + [DrainCommit(p)], Return(p));
    steps := aborts + [DrainLock(p)] + [DrainCommit(p)] + [Return(p)];
    NoLockMore(aborts, DrainLock(p));
    NoLockMore(aborts + [DrainLock(p)], DrainCommit(p));
    NoLockMore(aborts + [DrainLock(p)] + [DrainCommit(p)], Return(p));
    assert r.procs == s.procs;
    var procs := s.procs[p := ProcessOf(s, p).(phase := Drained)];
    assert procs[p := ProcessOf(s, p).(phase := Serving)] == s.procs[p := ProcessOf(s, p).(phase := Serving)];
  }

  lemma NoLockMore(steps: seq<Step>, a: Step)
    requires NoLock(steps) && !a.Lock?
    ensures NoLock(steps + [a])
  {
  }

  lemma NoLockBoth(a: seq<Step>, b: seq<Step>)
    requires NoLock(a) && NoLock(b)
    ensures NoLock(a + b)
  {
  }

  /** An earlier acquisition's commit after a later one's return. */
  lemma StaleCommit(log: seq<Event>, i: nat, epoch: nat)
    requires i < |log| && log[i].Returned? && log[i].epoch > epoch
    ensures !StaleCommitFree(log + [Committed(epoch)])
  {
    var more := log + [Committed(epoch)];
    assert more[i] == log[i] && more[|log|] == Committed(epoch);
  }

  /** The owner lock seems to be q's, and a later acquisition has returned. */
  ghost predicate Mistaken(s: State, q: Proc, i: nat) {
    && ProcessOf(s, q).phase == Serving && s.owner == Some(ProcessOf(s, q).pid) && s.exclusive == None
    && i < |s.log| && s.log[i].Returned? && s.log[i].epoch > ProcessOf(s, q).epoch
  }

  /** A transaction at its closing fence then commits. */
  lemma ClosesStale(s: State, t: Tx, q: Proc, i: nat) returns (steps: seq<Step>)
    requires Mistaken(s, q, i) && t in s.txs && s.txs[t].proc == q && s.txs[t].stage in {Closing, Rechecking}
    ensures Runs(s, steps) && NoLock(steps) && !StaleCommitFree(After(s, steps).log)
  {
    hide Runs, After, NoLock, StaleCommitFree;
    var s1 := s;
    steps := [];
    EmptyRun(s);
    if s.txs[t].stage == Closing {
      OneMore(s, [], Share(t));
      NoLockMore([], Share(t));
      steps := [] + [Share(t)];
      s1 := Transition(s, Share(t));
    }
    OneMore(s, steps, Check(t));
    NoLockMore(steps, Check(t));
    var s2 := Transition(s1, Check(t));
    OneMore(s, steps + [Check(t)], Commit(t));
    NoLockMore(steps + [Check(t)], Commit(t));
    steps := steps + [Check(t)] + [Commit(t)];
    StaleCommit(s.log, i, ProcessOf(s, q).epoch);
  }

  lemma EmptyRun(s: State)
    ensures Runs(s, []) && After(s, []) == s && NoLock([])
  {
  }

  /** A serving process still reading the owner's pid begins a transaction, passes its fence and does its work. */
  lemma Opens(s: State, t: Tx, q: Proc, i: nat) returns (r: State)
    requires Mistaken(s, q, i) && !ProcessOf(s, q).lost && t !in s.txs
    ensures var steps := [Begin(t, q), Share(t), Check(t), FinishWork(t)];
      Runs(s, steps) && NoLock(steps) && r == After(s, steps)
    ensures Mistaken(r, q, i) && t in r.txs && r.txs[t].proc == q && r.txs[t].stage == Closing
    ensures !ProcessOf(r, q).lost
  {
    hide Runs, After, NoLock;
    EmptyRun(s);
    var steps: seq<Step> := [];
    r := s;
    OneMore(s, steps, Begin(t, q));
    NoLockMore(steps, Begin(t, q));
    steps, r := steps + [Begin(t, q)], Transition(r, Begin(t, q));
    OneMore(s, steps, Share(t));
    NoLockMore(steps, Share(t));
    steps, r := steps + [Share(t)], Transition(r, Share(t));
    OneMore(s, steps, Check(t));
    NoLockMore(steps, Check(t));
    steps, r := steps + [Check(t)], Transition(r, Check(t));
    OneMore(s, steps, FinishWork(t));
    NoLockMore(steps, FinishWork(t));
    steps, r := steps + [FinishWork(t)], Transition(r, FinishWork(t));
    assert steps == [Begin(t, q), Share(t), Check(t), FinishWork(t)];
  }

  /** So does a new transaction of a process that has not noticed. */
  lemma BeginsStale(s: State, q: Proc, i: nat) returns (steps: seq<Step>)
    requires Mistaken(s, q, i) && !ProcessOf(s, q).lost
    ensures Runs(s, steps) && NoLock(steps) && !StaleCommitFree(After(s, steps).log)
  {
    hide Runs, After, NoLock, StaleCommitFree;
    var t := UpperBound(s.txs.Keys);
    var opening := [Begin(t, q), Share(t), Check(t), FinishWork(t)];
    var s4 := Opens(s, t, q, i);
    var closing := ClosesStale(s4, t, q, i);
    RunsAppend(s, opening, closing);
    NoLockBoth(opening, closing);
    steps := opening + closing;
  }

  /** The pid of a holder that can still act is taken again: some continuation commits a stale transaction. */
  lemma HarmfulReuse(s: State, p: Proc, pid: Pid, q: Proc) returns (steps: seq<Step>)
    requires Inv(s) && Enabled(s, Lock(p, pid))
    requires q != p && ProcessOf(s, q).epoch > 0 && ProcessOf(s, q).pid == pid && CanStillAct(s, q)
    ensures var r := Transition(s, Lock(p, pid));
      Runs(r, steps) && NoLock(steps) && !StaleCommitFree(After(r, steps).log)
  {
    var r := Transition(s, Lock(p, pid));
    assert s.exclusive == None;
    if ProcessOf(s, q).phase in {Drained, Serving} && !ProcessOf(s, q).lost {
      steps := ActsUnnoticed(s, p, pid, q);
    } else {
      var t :| Lingers(s, t, q);
      if s.txs[t].stage == Closing {
        steps := ClosesLate(s, p, pid, q, t);
      } else {
        steps := ClosesOvertaken(s, p, pid, q, t);
      }
    }
  }

  /** The holder has not noticed: it begins a transaction after its successor's acquisition returned. */
  lemma ActsUnnoticed(s: State, p: Proc, pid: Pid, q: Proc) returns (steps: seq<Step>)
    requires Inv(s) && Enabled(s, Lock(p, pid)) && q != p && ProcessOf(s, q).pid == pid
    requires ProcessOf(s, q).phase in {Drained, Serving} && !ProcessOf(s, q).lost
    ensures var r := Transition(s, Lock(p, pid));
      Runs(r, steps) && NoLock(steps) && !StaleCommitFree(After(r, steps).log)
  {
    hide Runs, After, NoLock, StaleCommitFree;
    var r := Transition(s, Lock(p, pid));
    var i := |r.log|;
    steps := Acquire(r, p);
    var u := After(r, steps);
    if ProcessOf(s, q).phase == Drained {
      OneMore(r, steps, Return(q));
      NoLockMore(steps, Return(q));
      steps := steps + [Return(q)];
      u := Transition(u, Return(q));
    }
    assert Mistaken(u, q, i);
    var rest := BeginsStale(u, q, i);
    RunsAppend(r, steps, rest);
    NoLockBoth(steps, rest);
    steps := steps + rest;
  }

  /** A transaction waits at its closing fence until the successor's acquisition has returned. */
  lemma ClosesLate(s: State, p: Proc, pid: Pid, q: Proc, t: Tx) returns (steps: seq<Step>)
    requires Inv(s) && Enabled(s, Lock(p, pid)) && q != p && ProcessOf(s, q).pid == pid
    requires t in s.txs && s.txs[t].proc == q && !s.txs[t].admitted && s.txs[t].stage == Closing
    ensures var r := Transition(s, Lock(p, pid));
      Runs(r, steps) && NoLock(steps) && !StaleCommitFree(After(r, steps).log)
  {
    hide Runs, After, NoLock, StaleCommitFree;
    var r := Transition(s, Lock(p, pid));
    var i := |r.log|;
    steps := Acquire(r, p);
    var u := After(r, steps);
    assert t !in s.shared;
    assert Mistaken(u, q, i);
    var rest := ClosesStale(u, t, q, i);
    RunsAppend(r, steps, rest);
    NoLockBoth(steps, rest);
    steps := steps + rest;
  }

  /** A transaction of a holder overtaken long ago is at its closing fence already. */
  lemma ClosesOvertaken(s: State, p: Proc, pid: Pid, q: Proc, t: Tx) returns (steps: seq<Step>)
    requires Inv(s) && Enabled(s, Lock(p, pid)) && q != p && ProcessOf(s, q).pid == pid
    requires t in s.txs && s.txs[t].proc == q && s.txs[t].stage == Rechecking && Overtaken(s, ProcessOf(s, q).epoch)
    ensures var r := Transition(s, Lock(p, pid));
      Runs(r, steps) && NoLock(steps) && !StaleCommitFree(After(r, steps).log)
  {
    hide Runs, After, NoLock, StaleCommitFree;
    var r := Transition(s, Lock(p, pid));
    var e := ProcessOf(s, q).epoch;
    if i :| 0 <= i < |s.log| && s.log[i].Returned? && s.log[i].epoch > e {
      assert Mistaken(r, q, i);
      steps := ClosesStale(r, t, q, i);
    } else {
      var d :| ProcessOf(s, d).phase == Drained && ProcessOf(s, d).epoch > e;
      EmptyRun(r);
      OneMore(r, [], Return(d));
      NoLockMore([], Return(d));
      var u := Transition(r, Return(d));
      assert Mistaken(u, q, |r.log|);
      var rest := ClosesStale(u, t, q, |r.log|);
      RunsAppend(r, [] + [Return(d)], rest);
      NoLockBoth([] + [Return(d)], rest);
      steps := [] + [Return(d)] + rest;
    }
  }

  /**
   * Exactly when a pid may be reused: in every reachable state, taking the owner lock on this pid is harmless if and
   * only if every continuation that reuses pids harmlessly from then on is free of stale commits.
   */
  lemma FencingIsExact(s: State, p: Proc, pid: Pid)
    requires Inv(s) && Enabled(s, Lock(p, pid))
    ensures Harmless(s, p, pid) <==> SafeAfter(Transition(s, Lock(p, pid)))
  {
    hide Inv, CanStillAct, Transition, Enabled, StaleCommitFree;
    var r := Transition(s, Lock(p, pid));
    if Harmless(s, p, pid) {
      InvStep(s, Lock(p, pid));
      forall rest | Runs(r, rest) && PidsHarmless(r, rest) ensures StaleCommitFree(After(r, rest).log) {
        InvRun(r, rest);
        InvLog(After(r, rest));
      }
    } else {
      var q :| q != p && ProcessOf(s, q).epoch > 0 && ProcessOf(s, q).pid == pid && CanStillAct(s, q);
      var rest := HarmfulReuse(s, p, pid, q);
      NoLockIsHarmless(r, rest);
      assert Runs(r, rest) && PidsHarmless(r, rest);
    }
  }

  lemma InvLog(s: State)
    requires Inv(s)
    ensures StaleCommitFree(s.log)
  {
  }

  /** Whatever happens next, no stale transaction commits. */
  ghost predicate SafeAfter(s: State) {
    forall rest :: Runs(s, rest) && PidsHarmless(s, rest) ==> StaleCommitFree(After(s, rest).log)
  }

  /** Process 0 acquires the lease on the pid and loses its connection without noticing. */
  lemma OwnerGone(pid: Pid) returns (steps: seq<Step>)
    ensures Runs(INITIAL, steps) && PidsHarmless(INITIAL, steps)
    ensures var s := After(INITIAL, steps);
      && s.owner == None && ProcessOf(s, 0) == Process(Serving, false, pid, 1, false, false)
      && ProcessOf(s, 1) == IDLE
  {
    var s1 := Transition(INITIAL, Lock(0, pid));
    var rest := Acquire(s1, 0);
    OneMore(s1, rest, Disconnect(0));
    NoLockMore(rest, Disconnect(0));
    NoLockIsHarmless(s1, rest + [Disconnect(0)]);
    steps := [Lock(0, pid)] + (rest + [Disconnect(0)]);
    assert steps[0] == Lock(0, pid) && steps[1..] == rest + [Disconnect(0)];
    hide Runs, After, PidsHarmless;
  }

  /**
   * Ownership is read off `pg_locks` by pid alone. When the successor's backend gets the pid of a connection that was
   * lost unnoticed, the check of the earlier process passes and its transaction commits.
   */
  lemma PidReuseBreaksFencing(pid: Pid)
    ensures exists steps :: Runs(INITIAL, steps) && !StaleCommitFree(After(INITIAL, steps).log)
  {
    var a := OwnerGone(pid);
    assert Inv(INITIAL);
    InvRun(INITIAL, a);
    hide Runs, After, PidsHarmless, Inv, StaleCommitFree;
    var s := After(INITIAL, a);
    var b := HarmfulReuse(s, 1, pid, 0);
    OneMore(INITIAL, a, Lock(1, pid));
    RunsAppend(INITIAL, a + [Lock(1, pid)], b);
  }
}
