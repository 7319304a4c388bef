/**
 * Publishing a run's check and comment on GitHub, as a transition system.
 *
 * GitHub POSTs are not idempotent and their responses can be lost, so the service writes an "uncertain"
 * flag before each one. Database blocks succeed only for the current lease owner (module Lease says why);
 * a publisher of an earlier owner may still be talking to GitHub.
 */
module Publication {
  import opened Wrappers

  type Run = nat
  type Pull = nat     // a pull request of one repository connection
  type Proc = nat     // numbered by lease acquisition
  type CheckId = n: int | 0 < n witness 1

  /** The stored run. */
  datatype Row = Row(
    pull: Pull,
    checkId: Option<CheckId>,
    checkUncertain: bool,
    commentUncertain: bool,
    published: bool)

  datatype Progress =
    | Loaded                         // run row read
    | ChecksListed(found: Option<CheckId>)
    | CheckArmed                     // check_uncertain committed, POST not sent
    | CheckSent                      // POST sent, no answer yet
    | CheckKnown(id: CheckId)
    | CheckStored                    // check id committed
    | CommentsListed(seen: bool)
    | CommentArmed                   // comment_uncertain committed, POST not sent
    | CommentSent
    | CommentDone                    // comment patched or its POST acknowledged

  /** One `publish` call in flight, with the row it read at its start. */
  datatype Publisher = Publisher(run: Run, snapshot: Row, at: Progress)

  datatype State = State(
    rows: map<Run, Row>,
    owner: Proc,
    publishers: map<Proc, Publisher>,
    checkPosts: map<Run, nat>,
    commentPosts: map<Pull, nat>,
    created: set<Pull>,              // GitHub applied a comment POST
    visible: set<Pull>)              // an answer has shown the comment, so later listings show it

  datatype Step =
    | NewRun(r: Run, pull: Pull)
    | Handover                       // a new process acquires the lease
    | Start(p: Proc, run: Run)
    | ListChecks(p: Proc, found: Option<CheckId>)
    | MarkCheck(p: Proc)
    | PostCheck(p: Proc)
    | CheckAnswer(p: Proc, id: CheckId)
    | StoreCheck(p: Proc)
    | ListComments(p: Proc, shown: bool)
    | MarkComment(p: Proc)
    | PostComment(p: Proc)
    | Apply(pull: Pull)              // GitHub creates the comment, whether or not anybody learns of it
    | CommentAnswer(p: Proc)
    | PatchComment(p: Proc)
    | Finish(p: Proc)
    | Fail(p: Proc)                  // any error, lost response or crash

  function Count<K>(m: map<K, nat>, k: K): nat {
    if k in m then m[k] else 0
  }

  predicate Guarded(row: Row) {
    row.checkUncertain || row.checkId.Some?
  }

  predicate StandsAt(s: State, p: Proc, a: Progress) {
    p in s.publishers && s.publishers[p].run in s.rows && s.publishers[p].at == a
  }

  function PullOf(s: State, p: Proc): Pull {
    if p in s.publishers && s.publishers[p].run in s.rows then s.rows[s.publishers[p].run].pull else 0
  }

  /** Some run of the pull request has an unresolved comment POST. */
  predicate CommentUncertain(s: State, pull: Pull) {
    exists r :: r in s.rows && s.rows[r].pull == pull && s.rows[r].commentUncertain
  }

  predicate Enabled(s: State, a: Step) {
    match a
    case NewRun(r, _) => r !in s.rows
    case Handover => true
    case Start(p, run) => p == s.owner && p !in s.publishers && run in s.rows
    case ListChecks(p, _) => StandsAt(s, p, Loaded)
    case MarkCheck(p) => p == s.owner && StandsAt(s, p, ChecksListed(None)) && !Guarded(s.publishers[p].snapshot)
    case PostCheck(p) => StandsAt(s, p, CheckArmed)
    case CheckAnswer(p, _) => StandsAt(s, p, CheckSent)
    case StoreCheck(p) =>
      p == s.owner && p in s.publishers && s.publishers[p].run in s.rows &&
      (s.publishers[p].at.CheckKnown? || (s.publishers[p].at.ChecksListed? && s.publishers[p].at.found.Some?))
    case ListComments(p, shown) =>
      // Listings show every comment an earlier answer showed, and none that was not created.
      StandsAt(s, p, CheckStored) && (PullOf(s, p) in s.visible ==> shown) && (shown ==> PullOf(s, p) in s.created)
    case MarkComment(p) => p == s.owner && StandsAt(s, p, CommentsListed(false)) && !CommentUncertain(s, PullOf(s, p))
    case PostComment(p) => StandsAt(s, p, CommentArmed)
    case Apply(pull) => Count(s.commentPosts, pull) > 0
    case CommentAnswer(p) => StandsAt(s, p, CommentSent) && PullOf(s, p) in s.created
    case PatchComment(p) => StandsAt(s, p, CommentsListed(true))
    case Finish(p) => p == s.owner && StandsAt(s, p, CommentDone)
    case Fail(p) => p in s.publishers
  }

  function Goto(s: State, p: Proc, a: Progress): State
    requires p in s.publishers
  {
    s.(publishers := s.publishers[p := s.publishers[p].(at := a)])
  }

  function Write(s: State, run: Run, row: Row): State {
    s.(rows := s.rows[run := row])
  }

  function Transition(s: State, a: Step): State
    requires Enabled(s, a)
  {
    match a
    case NewRun(r, pull) => Write(s, r, Row(pull, None, false, false, false))
    case Handover => s.(owner := s.owner + 1)
    case Start(p, run) => s.(publishers := s.publishers[p := Publisher(run, s.rows[run], Loaded)])
    case ListChecks(p, found) => Goto(s, p, ChecksListed(found))
    case MarkCheck(p) =>
      var run := s.publishers[p].run;
      Write(Goto(s, p, CheckArmed), run, s.rows[run].(checkUncertain := true))
    case PostCheck(p) =>
      var run := s.publishers[p].run;
      Goto(s, p, CheckSent).(checkPosts := s.checkPosts[run := Count(s.checkPosts, run) + 1])
    case CheckAnswer(p, id) => Goto(s, p, CheckKnown(id))
    case StoreCheck(p) =>
      var x := s.publishers[p];
      var id := if x.at.CheckKnown? then Some(x.at.id) else x.at.found;
      Write(Goto(s, p, CheckStored), x.run, s.rows[x.run].(checkId := id, checkUncertain := false))
    case ListComments(p, shown) =>
      Goto(s, p, CommentsListed(shown)).(visible := if shown then s.visible + {PullOf(s, p)} else s.visible)
    case MarkComment(p) =>
      var run := s.publishers[p].run;
      Write(Goto(s, p, CommentArmed), run, s.rows[run].(commentUncertain := true))
    case PostComment(p) =>
      var pull := PullOf(s, p);
      Goto(s, p, CommentSent).(commentPosts := s.commentPosts[pull := Count(s.commentPosts, pull) + 1])
    case Apply(pull) => s.(created := s.created + {pull})
    case CommentAnswer(p) => Goto(s, p, CommentDone).(visible := s.visible + {PullOf(s, p)})
    case PatchComment(p) => Goto(s, p, CommentDone)
    case Finish(p) =>
      var run, pull := s.publishers[p].run, PullOf(s, p);
      var cleared := map r | r in s.rows ::
        if s.rows[r].pull == pull then s.rows[r].(commentUncertain := false) else s.rows[r];
      s.(rows := cleared[run := cleared[run].(published := true)], publishers := s.publishers - {p})
    case Fail(p) => s.(publishers := s.publishers - {p})
  }

  const INITIAL := State(map[], 0, map[], map[], map[], {}, {})

  ghost predicate Runs(s: State, steps: seq<Step>)
    decreases |steps|
  {
    steps != [] ==> Enabled(s, steps[0]) && Runs(Transition(s, steps[0]), steps[1..])
  }

  ghost function After(s: State, steps: seq<Step>): State
    requires Runs(s, steps)
    decreases |steps|
  {
    if steps == [] then s else After(Transition(s, steps[0]), steps[1..])
  }

  // ---------------------------------------------------------------- an undisturbed publisher

  lemma {:induction false} RunsMore(s: State, steps: seq<Step>, a: Step)
    requires Runs(s, steps) && Enabled(After(s, steps), a)
    ensures Runs(s, steps + [a]) && After(s, steps + [a]) == Transition(After(s, steps), a)
    decreases |steps|
  {
    if steps == [] {
      assert [a][1..] == [];
    } else {
      assert (steps + [a])[0] == steps[0] && (steps + [a])[1..] == steps[1..] + [a];
      RunsMore(Transition(s, steps[0]), steps[1..], a);
    }
  }

  /** The owner's publisher stands here with its run's row as given; nothing else is known of the rest. */
  predicate Undisturbed(s: State, run: Run, row: Row, at: Progress) {
    && s.owner in s.publishers && s.publishers[s.owner].run == run && s.publishers[s.owner].at == at
    && run in s.rows && s.rows[run] == row
  }

  lemma ArmsItsCheck(s: State, run: Run, row: Row) returns (steps: seq<Step>)
    requires Undisturbed(s, run, row, Loaded) && !Guarded(row) && s.publishers[s.owner].snapshot == row
    ensures Runs(s, steps) && Undisturbed(After(s, steps), run, row.(checkUncertain := true), CheckArmed)
    ensures var t := After(s, steps);
      && t.owner == s.owner && t.visible == s.visible && t.commentPosts == s.commentPosts
      && t.checkPosts == s.checkPosts && t.rows == s.rows[run := row.(checkUncertain := true)]
  {
    hide Runs, After, CommentUncertain;
    EmptyRun(s);
    steps := [];
    RunsMore(s, steps, ListChecks(s.owner, None));
    steps := steps + [ListChecks(s.owner, None)];
    RunsMore(s, steps, MarkCheck(s.owner));
    steps := steps + [MarkCheck(s.owner)];
  }

  lemma SendsItsCheck(s: State, run: Run, row: Row, id: CheckId) returns (steps: seq<Step>)
    requires Undisturbed(s, run, row, CheckArmed)
    ensures Runs(s, steps)
         && Undisturbed(After(s, steps), run, row.(checkId := Some(id), checkUncertain := false), CheckStored)
    ensures var t := After(s, steps);
      && t.owner == s.owner && t.visible == s.visible && t.commentPosts == s.commentPosts
      && t.checkPosts == s.checkPosts[run := Count(s.checkPosts, run) + 1]
      && t.rows == s.rows[run := row.(checkId := Some(id), checkUncertain := false)]
  {
    hide Runs, After, CommentUncertain;
    EmptyRun(s);
    steps := [];
    RunsMore(s, steps, PostCheck(s.owner));
    steps := steps + [PostCheck(s.owner)];
    RunsMore(s, steps, CheckAnswer(s.owner, id));
    steps := steps + [CheckAnswer(s.owner, id)];
    RunsMore(s, steps, StoreCheck(s.owner));
    steps := steps + [StoreCheck(s.owner)];
  }

  /** A new check is posted once and its id stored. */
  lemma StoresItsCheck(s: State, run: Run, row: Row, id: CheckId) returns (steps: seq<Step>)
    requires Undisturbed(s, run, row, Loaded) && !Guarded(row) && s.publishers[s.owner].snapshot == row
    ensures Runs(s, steps) && Undisturbed(After(s, steps), run, row.(checkId := Some(id)), CheckStored)
    ensures var t := After(s, steps);
      && t.owner == s.owner && t.visible == s.visible && t.commentPosts == s.commentPosts
      && t.checkPosts == s.checkPosts[run := Count(s.checkPosts, run) + 1]
      && t.rows == s.rows[run := row.(checkId := Some(id))]
  {
    hide Runs, After, Undisturbed;
    var armed := ArmsItsCheck(s, run, row);
    var sent := SendsItsCheck(After(s, armed), run, row.(checkUncertain := true), id);
    RunsAppend(s, armed, sent);
    steps := armed + sent;
    assert row.(checkUncertain := true).(checkId := Some(id), checkUncertain := false) == row.(checkId := Some(id));
  }

  /** A check found by its listing, as after a lost answer, is stored without another POST. */
  lemma StoresAFoundCheck(s: State, run: Run, row: Row, id: CheckId) returns (steps: seq<Step>)
    requires Undisturbed(s, run, row, Loaded)
    ensures Runs(s, steps)
         && Undisturbed(After(s, steps), run, row.(checkId := Some(id), checkUncertain := false), CheckStored)
    ensures After(s, steps).checkPosts == s.checkPosts
    ensures var t := After(s, steps);
      && t.owner == s.owner && t.visible == s.visible && t.created == s.created && t.commentPosts == s.commentPosts
      && t.rows == s.rows[run := row.(checkId := Some(id), checkUncertain := false)]
  {
    var p := s.owner;
    steps := [];
    RunsMore(s, steps, ListChecks(p, Some(id)));
    steps := steps + [ListChecks(p, Some(id))];
    RunsMore(s, steps, StoreCheck(p));
    steps := steps + [StoreCheck(p)];
  }

  lemma EmptyRun(s: State)
    ensures Runs(s, []) && After(s, []) == s
  {
  }

  lemma ArmsItsComment(s: State, run: Run, row: Row) returns (steps: seq<Step>)
    requires Undisturbed(s, run, row, CheckStored) && row.pull !in s.visible && !CommentUncertain(s, row.pull)
    ensures Runs(s, steps) && Undisturbed(After(s, steps), run, row.(commentUncertain := true), CommentArmed)
    ensures var t := After(s, steps);
      t.owner == s.owner && t.visible == s.visible && t.checkPosts == s.checkPosts && t.commentPosts == s.commentPosts
  {
    hide Runs, After;
    EmptyRun(s);
    steps := [];
    RunsMore(s, steps, ListComments(s.owner, false));
    steps := steps + [ListComments(s.owner, false)];
    RunsMore(s, steps, MarkComment(s.owner));
    steps := steps + [MarkComment(s.owner)];
  }

  lemma SendsItsComment(s: State, run: Run, row: Row) returns (steps: seq<Step>)
    requires Undisturbed(s, run, row, CommentArmed)
    ensures Runs(s, steps) && Undisturbed(After(s, steps), run, row, CommentDone)
    ensures var t := After(s, steps);
      && t.owner == s.owner && t.visible == s.visible + {row.pull} && t.checkPosts == s.checkPosts
      && t.commentPosts == s.commentPosts[row.pull := Count(s.commentPosts, row.pull) + 1]
  {
    hide Runs, After, CommentUncertain;
    EmptyRun(s);
    steps := [];
    RunsMore(s, steps, PostComment(s.owner));
    steps := steps + [PostComment(s.owner)];
    RunsMore(s, steps, Apply(row.pull));
    steps := steps + [Apply(row.pull)];
    RunsMore(s, steps, CommentAnswer(s.owner));
    steps := steps + [CommentAnswer(s.owner)];
  }

  /** A new comment is posted once and acknowledged. */
  lemma PostsItsComment(s: State, run: Run, row: Row) returns (steps: seq<Step>)
    requires Undisturbed(s, run, row, CheckStored) && row.pull !in s.visible && !CommentUncertain(s, row.pull)
    ensures Runs(s, steps) && Undisturbed(After(s, steps), run, row.(commentUncertain := true), CommentDone)
    ensures var t := After(s, steps);
      && t.owner == s.owner && t.visible == s.visible + {row.pull} && t.checkPosts == s.checkPosts
      && t.commentPosts == s.commentPosts[row.pull := Count(s.commentPosts, row.pull) + 1]
  {
    hide Runs, After, Undisturbed, CommentUncertain;
    var armed := ArmsItsComment(s, run, row);
    var sent := SendsItsComment(After(s, armed), run, row.(commentUncertain := true));
    RunsAppend(s, armed, sent);
    steps := armed + sent;
  }

  /** A comment the listing shows is patched. */
  lemma PatchesItsComment(s: State, run: Run, row: Row) returns (steps: seq<Step>)
    requires Undisturbed(s, run, row, CheckStored) && row.pull in s.visible && row.pull in s.created
    ensures Runs(s, steps) && Undisturbed(After(s, steps), run, row, CommentDone)
    ensures var t := After(s, steps);
      && t.owner == s.owner && t.visible == s.visible && t.checkPosts == s.checkPosts
      && t.commentPosts == s.commentPosts
  {
    hide Runs, After;
    EmptyRun(s);
    var p := s.owner;
    steps := [];
    RunsMore(s, steps, ListComments(p, true));
    steps := steps + [ListComments(p, true)];
    RunsMore(s, steps, PatchComment(p));
    steps := steps + [PatchComment(p)];
    assert s.visible + {row.pull} == s.visible;
  }

  lemma FinishesItsRun(s: State, run: Run, row: Row)
    requires Undisturbed(s, run, row, CommentDone)
    ensures Enabled(s, Finish(s.owner))
    ensures var t := Transition(s, Finish(s.owner));
      && run in t.rows && t.rows[run] == row.(commentUncertain := false, published := true)
      && t.owner !in t.publishers && t.visible == s.visible
      && t.checkPosts == s.checkPosts && t.commentPosts == s.commentPosts
      && t.rows.Keys == s.rows.Keys
      && forall r :: r in s.rows && r != run ==>
           t.rows[r] == if s.rows[r].pull == row.pull then s.rows[r].(commentUncertain := false) else s.rows[r]
  {
  }

  /**
   * With the check stored, an undisturbed publisher finishes: a comment already visible is patched, and otherwise, when
   * no POST is unresolved, one is sent and acknowledged. The run ends published, with nothing left uncertain.
   */
  lemma PublishesItsComment(s: State, run: Run, row: Row) returns (steps: seq<Step>)
    requires Undisturbed(s, run, row, CheckStored) && (row.pull in s.visible ==> row.pull in s.created)
    requires row.pull in s.visible || !CommentUncertain(s, row.pull)
    ensures Runs(s, steps)
    ensures var t := After(s, steps);
      && run in t.rows && t.rows[run] == row.(commentUncertain := false, published := true)
      && t.owner !in t.publishers && row.pull in t.visible && t.checkPosts == s.checkPosts
      && t.commentPosts == if row.pull in s.visible then s.commentPosts
                           else s.commentPosts[row.pull := Count(s.commentPosts, row.pull) + 1]
  {
    hide Runs, After, Undisturbed, Transition, Enabled, CommentUncertain;
    var done := row;
    if row.pull in s.visible {
      steps := PatchesItsComment(s, run, row);
    } else {
      steps := PostsItsComment(s, run, row);
      done := row.(commentUncertain := true);
    }
    FinishesItsRun(After(s, steps), run, done);
    RunsMore(s, steps, Finish(s.owner));
    steps := steps + [Finish(s.owner)];
  }

  /** From the run's first read to the end, new check and comment: one POST each, and everything stored. */
  lemma UndisturbedPublishes(s: State, run: Run, row: Row, id: CheckId) returns (steps: seq<Step>)
    requires s.owner !in s.publishers && run in s.rows && s.rows[run] == row && !Guarded(row)
    requires row.pull !in s.visible && !CommentUncertain(s, row.pull)
    ensures Runs(s, steps)
    ensures var t := After(s, steps);
      && run in t.rows && t.rows[run].published && t.rows[run].checkId == Some(id)
      && !t.rows[run].checkUncertain && !t.rows[run].commentUncertain
      && t.checkPosts == s.checkPosts[run := Count(s.checkPosts, run) + 1]
      && t.commentPosts == s.commentPosts[row.pull := Count(s.commentPosts, row.pull) + 1]
      && row.pull in t.visible && t.owner !in t.publishers
  {
    EmptyRun(s);
    RunsMore(s, [], Start(s.owner, run));
    var begun := [] + [Start(s.owner, run)];
    var u := After(s, begun);
    hide Runs, After, Transition, Enabled;
    var checked := StoresItsCheck(u, run, row, id);
    var stored := row.(checkId := Some(id));
    var v := After(u, checked);
    assert CommentUncertain(v, row.pull) ==> CommentUncertain(s, row.pull);
    var commented := PublishesItsComment(v, run, stored);
    RunsAppend(s, begun, checked);
    RunsAppend(s, begun + checked, commented);
    steps := begun + checked + commented;
  }

  lemma {:induction false} RunsAppend(s: State, a: seq<Step>, b: seq<Step>)
    requires Runs(s, a) && Runs(After(s, a), b)
    ensures Runs(s, a + b) && After(s, a + b) == After(After(s, a), b)
    decreases |a|
  {
    if a == [] {
      assert a + b == b;
    } else {
      RunsAppend(Transition(s, a[0]), a[1..], b);
      assert (a + b)[0] == a[0] && (a + b)[1..] == a[1..] + b;
    }
  }

  // ---------------------------------------------------------------- the invariant

  /** Publishers belong to this or an earlier owner, and their run exists. */
  ghost predicate ShapeInv(s: State) {
    forall p :: p in s.publishers ==> p <= s.owner && s.publishers[p].run in s.rows
  }

  /** The owner's publisher still sees the check columns it read at its start. */
  ghost predicate SnapshotInv(s: State) {
    s.owner in s.publishers && s.publishers[s.owner].run in s.rows
      && (s.publishers[s.owner].at.Loaded? || s.publishers[s.owner].at.ChecksListed?) ==>
    Guarded(s.publishers[s.owner].snapshot) == Guarded(s.rows[s.publishers[s.owner].run])
  }

  /** A run whose check POST was sent, or is about to be, is guarded for good. */
  ghost predicate CheckInv(s: State) {
    && (forall r :: Count(s.checkPosts, r) <= 1)
    && (forall r :: Count(s.checkPosts, r) > 0 ==> r in s.rows && Guarded(s.rows[r]))
    && (forall p :: StandsAt(s, p, CheckArmed) ==>
          Guarded(s.rows[s.publishers[p].run]) && Count(s.checkPosts, s.publishers[p].run) == 0)
    && (forall p, q :: StandsAt(s, p, CheckArmed) && StandsAt(s, q, CheckArmed) && p != q ==>
          s.publishers[p].run != s.publishers[q].run)
  }

  ghost predicate Armed(s: State, pull: Pull) {
    exists p :: StandsAt(s, p, CommentArmed) && PullOf(s, p) == pull
  }

  /** A comment POST was sent for the pull request or is about to be. */
  ghost predicate Committed(s: State, pull: Pull) {
    Count(s.commentPosts, pull) > 0 || Armed(s, pull)
  }

  ghost predicate CommentInv(s: State) {
    && (forall k :: Count(s.commentPosts, k) <= 1)
    && (forall k :: k in s.visible ==> k in s.created)
    && (forall k :: k in s.created ==> Count(s.commentPosts, k) > 0)
    && (forall p :: StandsAt(s, p, CommentArmed) ==> Count(s.commentPosts, PullOf(s, p)) == 0)
    && (forall p, q :: StandsAt(s, p, CommentArmed) && StandsAt(s, q, CommentArmed) && p != q ==>
          PullOf(s, p) != PullOf(s, q))
  }

  /** Until a comment is visible, some run remembers that its POST is unresolved. */
  ghost predicate MemoryInv(s: State) {
    && (forall k :: Committed(s, k) ==> k in s.visible || CommentUncertain(s, k))
    && (forall p :: StandsAt(s, p, CommentDone) || StandsAt(s, p, CommentsListed(true)) ==> PullOf(s, p) in s.visible)
    && (StandsAt(s, s.owner, CommentsListed(false)) && Committed(s, PullOf(s, s.owner)) ==>
          CommentUncertain(s, PullOf(s, s.owner)))
  }

  ghost predicate Inv(s: State) {
    ShapeInv(s) && SnapshotInv(s) && CheckInv(s) && CommentInv(s) && MemoryInv(s)
  }

  lemma ShapeStep(s: State, a: Step)
    requires ShapeInv(s) && Enabled(s, a)
    ensures ShapeInv(Transition(s, a))
  {
  }

  lemma SnapshotStep(s: State, a: Step)
    requires ShapeInv(s) && SnapshotInv(s) && Enabled(s, a)
    ensures SnapshotInv(Transition(s, a))
  {
  }

  /** Publishers keep their run and pull request while in flight. */
  lemma PullsStay(s: State, a: Step, p: Proc)
    requires ShapeInv(s) && Enabled(s, a) && p in s.publishers && p in Transition(s, a).publishers
    ensures Transition(s, a).publishers[p].run == s.publishers[p].run && PullOf(Transition(s, a), p) == PullOf(s, p)
  {
  }

  lemma GuardsStay(s: State, a: Step, r: Run)
    requires Enabled(s, a) && r in s.rows && Guarded(s.rows[r])
    ensures r in Transition(s, a).rows && Guarded(Transition(s, a).rows[r])
  {
  }

  /** Only a mark arms a check POST; every other armed publisher was armed before. */
  lemma CheckArmedBefore(s: State, a: Step, p: Proc)
    requires ShapeInv(s) && Enabled(s, a) && StandsAt(Transition(s, a), p, CheckArmed)
    ensures (a.MarkCheck? && a.p == p) || (StandsAt(s, p, CheckArmed) && !(a.PostCheck? && a.p == p))
    ensures p in s.publishers && Transition(s, a).publishers[p].run == s.publishers[p].run
  {
  }

  lemma PostsChange(s: State, a: Step, r: Run)
    requires Enabled(s, a)
    ensures Count(Transition(s, a).checkPosts, r) ==
            Count(s.checkPosts, r) + if a.PostCheck? && s.publishers[a.p].run == r then 1 else 0
  {
  }

  lemma CheckStep(s: State, a: Step)
    requires ShapeInv(s) && SnapshotInv(s) && CheckInv(s) && Enabled(s, a)
    ensures CheckInv(Transition(s, a))
  {
    var t := Transition(s, a);
    forall r ensures Count(t.checkPosts, r) <= 1 && (Count(t.checkPosts, r) > 0 ==> r in t.rows && Guarded(t.rows[r])) {
      PostsChange(s, a, r);
      if r in s.rows && Guarded(s.rows[r]) { GuardsStay(s, a, r); }
    }
    forall p | StandsAt(t, p, CheckArmed)
      ensures Guarded(t.rows[t.publishers[p].run]) && Count(t.checkPosts, t.publishers[p].run) == 0
    {
      CheckArmedBefore(s, a, p);
      var run := s.publishers[p].run;
      PostsChange(s, a, run);
      if StandsAt(s, p, CheckArmed) { GuardsStay(s, a, run); }
    }
    forall p, q | StandsAt(t, p, CheckArmed) && StandsAt(t, q, CheckArmed) && p != q
      ensures t.publishers[p].run != t.publishers[q].run
    {
      CheckArmedBefore(s, a, p);
      CheckArmedBefore(s, a, q);
    }
  }

  lemma CommentArmedBefore(s: State, a: Step, p: Proc)
    requires ShapeInv(s) && Enabled(s, a) && StandsAt(Transition(s, a), p, CommentArmed)
    ensures (a.MarkComment? && a.p == p) || (StandsAt(s, p, CommentArmed) && !(a.PostComment? && a.p == p))
    ensures PullOf(Transition(s, a), p) == PullOf(s, p)
  {
  }

  lemma CommentPostsChange(s: State, a: Step, k: Pull)
    requires Enabled(s, a)
    ensures Count(Transition(s, a).commentPosts, k) ==
            Count(s.commentPosts, k) + if a.PostComment? && PullOf(s, a.p) == k then 1 else 0
  {
  }

  /** The mark is made only when no POST for the pull request was sent or is about to be. */
  lemma MarkMeansUncommitted(s: State, a: Step)
    requires Inv(s) && Enabled(s, a) && a.MarkComment?
    ensures !Committed(s, PullOf(s, a.p))
  {
  }

  lemma CommentStep(s: State, a: Step)
    requires Inv(s) && Enabled(s, a)
    ensures CommentInv(Transition(s, a))
  {
    var t := Transition(s, a);
    if a.MarkComment? { MarkMeansUncommitted(s, a); }
    forall k ensures Count(t.commentPosts, k) <= 1 && (k in t.visible ==> k in t.created)
                     && (k in t.created ==> Count(t.commentPosts, k) > 0) {
      CommentPostsChange(s, a, k);
    }
    forall p | StandsAt(t, p, CommentArmed) ensures Count(t.commentPosts, PullOf(t, p)) == 0 {
      CommentArmedBefore(s, a, p);
      CommentPostsChange(s, a, PullOf(t, p));
    }
    forall p, q | StandsAt(t, p, CommentArmed) && StandsAt(t, q, CommentArmed) && p != q
      ensures PullOf(t, p) != PullOf(t, q)
    {
      CommentArmedBefore(s, a, p);
      CommentArmedBefore(s, a, q);
    }
  }

  /** Only a finished publication forgets unresolved comment POSTs, and only those of its own pull request. */
  lemma UncertaintyStays(s: State, a: Step, k: Pull)
    requires ShapeInv(s) && Enabled(s, a) && CommentUncertain(s, k) && !(a.Finish? && PullOf(s, a.p) == k)
    ensures CommentUncertain(Transition(s, a), k)
  {
    var r :| r in s.rows && s.rows[r].pull == k && s.rows[r].commentUncertain;
    var t := Transition(s, a);
    assert r in t.rows && t.rows[r].pull == k && t.rows[r].commentUncertain;
  }

  /** A pull request becomes committed only by a mark, which leaves an uncertain run behind. */
  lemma CommittedBefore(s: State, a: Step, k: Pull)
    requires ShapeInv(s) && Enabled(s, a) && Committed(Transition(s, a), k)
    ensures Committed(s, k) || (a.MarkComment? && PullOf(s, a.p) == k && CommentUncertain(Transition(s, a), k))
  {
    var t := Transition(s, a);
    CommentPostsChange(s, a, k);
    if Armed(t, k) {
      var p :| StandsAt(t, p, CommentArmed) && PullOf(t, p) == k;
      CommentArmedBefore(s, a, p);
      if a.MarkComment? && a.p == p {
        var run := s.publishers[p].run;
        assert run in t.rows && t.rows[run].pull == k && t.rows[run].commentUncertain;
      }
    }
  }

  lemma VisibleStays(s: State, a: Step)
    requires Enabled(s, a)
    ensures s.visible <= Transition(s, a).visible
  {
  }

  lemma MemoryOfPosts(s: State, a: Step, k: Pull)
    requires Inv(s) && Enabled(s, a) && Committed(Transition(s, a), k)
    ensures k in Transition(s, a).visible || CommentUncertain(Transition(s, a), k)
  {
    CommittedBefore(s, a, k);
    VisibleStays(s, a);
    if CommentUncertain(s, k) && !(a.Finish? && PullOf(s, a.p) == k) { UncertaintyStays(s, a, k); }
  }

  lemma MemoryOfDone(s: State, a: Step, p: Proc)
    requires Inv(s) && Enabled(s, a)
    requires StandsAt(Transition(s, a), p, CommentDone) || StandsAt(Transition(s, a), p, CommentsListed(true))
    ensures PullOf(Transition(s, a), p) in Transition(s, a).visible
  {
    VisibleStays(s, a);
    PullsStay(s, a, p);
  }

  lemma MemoryOfOwner(s: State, a: Step)
    requires Inv(s) && Enabled(s, a)
    requires var t := Transition(s, a);
      StandsAt(t, t.owner, CommentsListed(false)) && Committed(t, PullOf(t, t.owner))
    ensures CommentUncertain(Transition(s, a), PullOf(Transition(s, a), Transition(s, a).owner))
  {
    var t := Transition(s, a);
    var k := PullOf(t, t.owner);
    assert t.owner == s.owner;
    PullsStay(s, a, s.owner);
    CommittedBefore(s, a, k);
    if CommentUncertain(s, k) { UncertaintyStays(s, a, k); }
  }

  lemma InvStep(s: State, a: Step)
    requires Inv(s) && Enabled(s, a)
    ensures Inv(Transition(s, a))
  {
    var t := Transition(s, a);
    ShapeStep(s, a);
    SnapshotStep(s, a);
    CheckStep(s, a);
    CommentStep(s, a);
    forall k | Committed(t, k) ensures k in t.visible || CommentUncertain(t, k) { MemoryOfPosts(s, a, k); }
    forall p | StandsAt(t, p, CommentDone) || StandsAt(t, p, CommentsListed(true)) ensures PullOf(t, p) in t.visible {
      MemoryOfDone(s, a, p);
    }
    if StandsAt(t, t.owner, CommentsListed(false)) && Committed(t, PullOf(t, t.owner)) { MemoryOfOwner(s, a); }
  }

  lemma {:induction false} InvRun(s: State, steps: seq<Step>)
    requires Inv(s) && Runs(s, steps)
    ensures Inv(After(s, steps))
    decreases |steps|
  {
    if steps != [] {
      InvStep(s, steps[0]);
      InvRun(Transition(s, steps[0]), steps[1..]);
    }
  }

  /** Over crashes, lost answers, retries and handovers: one check POST per run, one comment POST per pull request. */
  lemma AtMostOnce(steps: seq<Step>, run: Run, pull: Pull)
    requires Runs(INITIAL, steps)
    ensures Count(After(INITIAL, steps).checkPosts, run) <= 1
    ensures Count(After(INITIAL, steps).commentPosts, pull) <= 1
  {
    InvRun(INITIAL, steps);
  }

  /** Once its check POST was sent, a run's row says so in every later state. */
  lemma PostedStaysRecorded(steps: seq<Step>, run: Run)
    requires Runs(INITIAL, steps) && Count(After(INITIAL, steps).checkPosts, run) > 0
    ensures run in After(INITIAL, steps).rows && Guarded(After(INITIAL, steps).rows[run])
  {
    InvRun(INITIAL, steps);
  }

  // ---------------------------------------------------------------- finding the app's own comment

  datatype Comment = Comment(id: nat, byBot: bool, app: Option<nat>, body: string)

  const MARKER := "<!-- blastradius-app-result -->"
  const PAGE := 100
  const PAGES := 5

  predicate OwnedComment(c: Comment, appId: nat) {
    c.byBot && c.app == Some(appId) && MARKER <= c.body
  }

  function OwnedIn(all: seq<Comment>, appId: nat): seq<Comment> {
    if all == [] then []
    else OwnedIn(all[..|all| - 1], appId) + if OwnedComment(all[|all| - 1], appId) then [all[|all| - 1]] else []
  }

  lemma {:induction false} OwnedInIsAdditive(a: seq<Comment>, b: seq<Comment>, appId: nat)
    ensures OwnedIn(a + b, appId) == OwnedIn(a, appId) + OwnedIn(b, appId)
    decreases |b|
  {
    if b == [] {
      assert a + b == a;
    } else {
      assert (a + b)[..|a + b| - 1] == a + b[..|b| - 1];
      OwnedInIsAdditive(a, b[..|b| - 1], appId);
    }
  }

  /** The app's own comments: by a bot of this app, and marked at the start, in the order of the listing. */
  lemma {:induction false} OwnedInMeans(all: seq<Comment>, appId: nat, c: Comment)
    ensures c in OwnedIn(all, appId) <==>
              c in all && c.byBot && c.app == Some(appId) && "<!-- blastradius-app-result -->" <= c.body
    ensures |OwnedIn(all, appId)| <= |all|
  {
    if all != [] {
      OwnedInMeans(all[..|all| - 1], appId, c);
      assert all == all[..|all| - 1] + [all[|all| - 1]];
    }
  }

  function Min(a: nat, b: nat): nat { if a <= b then a else b }

  /** What GitHub answers for one page of the listing. */
  function PageOf(all: seq<Comment>, page: nat): seq<Comment>
    requires page >= 1
  {
    all[Min(PAGE * (page - 1), |all|)..Min(PAGE * page, |all|)]
  }

  /** One page extends what was read so far; a short page was the last. */
  lemma PageStep(all: seq<Comment>, page: nat, appId: nat)
    requires page >= 1 && PAGE * (page - 1) <= |all|
    ensures var batch, before := PageOf(all, page), all[..PAGE * (page - 1)];
      && (|batch| < PAGE ==>
            |all| < PAGE * page && OwnedIn(all, appId) == OwnedIn(before, appId) + OwnedIn(batch, appId))
      && (|batch| >= PAGE ==>
            && PAGE * page <= |all|
            && OwnedIn(all[..PAGE * page], appId) == OwnedIn(before, appId) + OwnedIn(batch, appId))
  {
    var batch, before := PageOf(all, page), all[..PAGE * (page - 1)];
    OwnedInIsAdditive(before, batch, appId);
    assert before + batch == all[..Min(PAGE * page, |all|)];
    assert all[..|all|] == all;
  }

  /** Reads pages until a short one; gives up when all the allowed pages were full. */
  method ScanComments(all: seq<Comment>, appId: nat) returns (r: Option<seq<Comment>>)
    ensures r == if |all| < 500 then Some(OwnedIn(all, appId)) else None
  {
    hide OwnedIn, PageOf;
    var comments: seq<Comment> := [];
    assert OwnedIn(all[..0], appId) == [] by { NoneOwned(all[..0], appId); }
    for page := 1 to PAGES + 1
      invariant PAGE * (page - 1) <= |all| && comments == OwnedIn(all[..PAGE * (page - 1)], appId)
    {
      var batch := PageOf(all, page);
      PageStep(all, page, appId);
      comments := comments + OwnedIn(batch, appId);
      if |batch| < PAGE {
        return Some(comments);
      }
    }
    return None;
  }

  lemma NoneOwned(all: seq<Comment>, appId: nat)
    requires all == []
    ensures OwnedIn(all, appId) == []
  {
  }
}
