/** The fixed-window rate limiter of the HTTP guard. */
module RateLimit {
  import opened Wrappers

  datatype Category = AUTH | DEMO | API | BETA | FEEDBACK

  type Key = (string, Category)

  datatype Limits = Limits(auth: nat, demo: nat, api: nat) {
    function LimitOf(category: Category): nat {
      match category case AUTH => auth case DEMO => demo case API => api case BETA => 5 case FEEDBACK => 30
    }
  }

  const WINDOW := 60.0
  const MAX_BUCKETS := 10000

  /** The service-wide limit of the public submission routes; other routes have none. */
  function GlobalLimit(category: Category): Option<nat> {
    match category case BETA => Some(60) case FEEDBACK => Some(120) case _ => None
  }

  /** When a counting window began and how much it admitted. */
  datatype Window = Window(start: real, count: nat)

  datatype Request = Request(client: string, category: Category, now: real) {
    function Key(): Key {
      (client, category)
    }
  }

  datatype State = State(buckets: map<Key, Window>, submissions: map<Category, Window>)

  datatype Verdict = Verdict(byKey: bool, admitted: bool)

  function Pruned(buckets: map<Key, Window>, now: real): map<Key, Window> {
    map k | k in buckets && now - buckets[k].start < WINDOW :: buckets[k]
  }

  /** The window a request of this key counts in. */
  function KeyWindow(s: State, r: Request): Window {
    var buckets := Pruned(s.buckets, r.now);
    if r.Key() in buckets then buckets[r.Key()] else Window(r.now, 0)
  }

  predicate KeyAdmits(s: State, r: Request, limits: Limits) {
    var buckets := Pruned(s.buckets, r.now);
    KeyWindow(s, r).count < limits.LimitOf(r.category) && (r.Key() in buckets || |buckets| < MAX_BUCKETS)
  }

  function GlobalWindow(s: State, r: Request): Window {
    if r.category in s.submissions && r.now - s.submissions[r.category].start < WINDOW
    then s.submissions[r.category] else Window(r.now, 0)
  }

  function Admission(s: State, r: Request, limits: Limits): (State, Verdict) {
    var buckets := Pruned(s.buckets, r.now);
    if !KeyAdmits(s, r, limits) then (s.(buckets := buckets), Verdict(false, false))
    else
      var w := KeyWindow(s, r);
      var counted := buckets[r.Key() := Window(w.start, w.count + 1)];
      var global := GlobalLimit(r.category);
      if global.None? then (s.(buckets := counted), Verdict(true, true))
      else
        var g := GlobalWindow(s, r);
        if g.count >= global.value then (s.(buckets := counted), Verdict(true, false))
        else (State(counted, s.submissions[r.category := Window(g.start, g.count + 1)]), Verdict(true, true))
  }

  class GuardMiddleware {
    const limits: Limits
    var buckets: map<Key, Window>
    var submissions: map<Category, Window>

    constructor (limits: Limits)
      ensures this.limits == limits && buckets == map[] && submissions == map[]
    {
      this.limits := limits;
      buckets, submissions := map[], map[];
    }

    /** The guard's rate-limit section, up to reading the body. */
    method Admit(r: Request) returns (v: Verdict)
      modifies this
      ensures (State(buckets, submissions), v) == Admission(State(old(buckets), old(submissions)), r, limits)
    {
      buckets := map k | k in buckets && r.now - buckets[k].start < WINDOW :: buckets[k];
      var key := r.Key();
      var w := if key in buckets then buckets[key] else Window(r.now, 0);
      if w.count >= limits.LimitOf(r.category) || (key !in buckets && |buckets| >= MAX_BUCKETS) {
        return Verdict(false, false);
      }
      buckets := buckets[key := Window(w.start, w.count + 1)];
      if r.category in {BETA, FEEDBACK} {
        var g := if r.category in submissions then submissions[r.category] else Window(r.now, 0);
        if r.now - g.start >= WINDOW {
          g := Window(r.now, 0);
        }
        if g.count >= GlobalLimit(r.category).value {
          return Verdict(true, false);
        }
        submissions := submissions[r.category := Window(g.start, g.count + 1)];
      }
      v := Verdict(true, true);
    }
  }

  // ---------------------------------------------------------------- whole request sequences

  predicate Monotone(requests: seq<Request>) {
    forall i, j :: 0 <= i < j < |requests| ==> requests[i].now <= requests[j].now
  }

  function After(requests: seq<Request>, limits: Limits): State {
    if requests == [] then State(map[], map[])
    else Admission(After(requests[..|requests| - 1], limits), requests[|requests| - 1], limits).0
  }

  /** One admission: when, in which window, and as its how-manieth. */
  datatype Grant = Grant(now: real, start: real, rank: nat)

  /** The admissions of one key, in order. */
  function Granted(requests: seq<Request>, limits: Limits, key: Key): seq<Grant> {
    if requests == [] then [] else
      var before, r := requests[..|requests| - 1], requests[|requests| - 1];
      var s := After(before, limits);
      Granted(before, limits, key)
      + if r.Key() == key && KeyAdmits(s, r, limits)
        then [Grant(r.now, KeyWindow(s, r).start, KeyWindow(s, r).count + 1)] else []
  }

  /** Ranks count up within a window, and a new window starts no sooner than a whole length after the last. */
  predicate Chained(g: seq<Grant>, limit: nat) {
    && (forall i :: 0 <= i < |g| ==> g[i].start <= g[i].now < g[i].start + WINDOW && 1 <= g[i].rank <= limit)
    && (forall i :: 0 <= i < |g| - 1 ==>
          (g[i + 1].start == g[i].start && g[i + 1].rank == g[i].rank + 1) || g[i].start + WINDOW <= g[i + 1].start)
  }

  /** The stored window of a key is its last admission's, or that window is over. */
  ghost predicate Tracks(s: State, g: seq<Grant>, key: Key, now: real) {
    if key in s.buckets then
      g != [] && g[|g| - 1].start == s.buckets[key].start && g[|g| - 1].rank == s.buckets[key].count
    else g == [] || g[|g| - 1].start + WINDOW <= now
  }

  function Next(s: State, g: seq<Grant>, r: Request, limits: Limits, key: Key): seq<Grant> {
    g + if r.Key() == key && KeyAdmits(s, r, limits)
        then [Grant(r.now, KeyWindow(s, r).start, KeyWindow(s, r).count + 1)] else []
  }

  lemma ChainedStep(s: State, g: seq<Grant>, r: Request, limits: Limits, key: Key, earlier: real)
    requires Chained(g, limits.LimitOf(key.1)) && Tracks(s, g, key, earlier) && earlier <= r.now
    requires key in s.buckets ==> s.buckets[key].start <= earlier
    ensures Chained(Next(s, g, r, limits, key), limits.LimitOf(key.1))
  {
    if r.Key() == key && KeyAdmits(s, r, limits) {
      var grant := Grant(r.now, KeyWindow(s, r).start, KeyWindow(s, r).count + 1);
      assert Next(s, g, r, limits, key) == g + [grant];
      if g != [] {
        var last := g[|g| - 1];
        assert (grant.start == last.start && grant.rank == last.rank + 1) || last.start + WINDOW <= grant.start;
      }
    } else {
      assert Next(s, g, r, limits, key) == g;
    }
  }

  lemma TracksStep(s: State, g: seq<Grant>, r: Request, limits: Limits, key: Key, earlier: real)
    requires Tracks(s, g, key, earlier) && earlier <= r.now
    ensures Tracks(Admission(s, r, limits).0, Next(s, g, r, limits, key), key, r.now)
  {
    var t := Admission(s, r, limits).0;
    if r.Key() == key && KeyAdmits(s, r, limits) {
      assert t.buckets[key] == Window(KeyWindow(s, r).start, KeyWindow(s, r).count + 1);
    } else {
      assert Next(s, g, r, limits, key) == g;
      assert key in t.buckets <==> key in Pruned(s.buckets, r.now);
    }
  }

  /** Windows never start in the future of the last request. */
  lemma {:induction false} StartsArePast(requests: seq<Request>, limits: Limits, key: Key)
    requires requests != [] && Monotone(requests) && key in After(requests, limits).buckets
    ensures After(requests, limits).buckets[key].start <= requests[|requests| - 1].now
    decreases |requests|
  {
    var before, r := requests[..|requests| - 1], requests[|requests| - 1];
    if before != [] && key in After(before, limits).buckets { StartsArePast(before, limits, key); }
  }

  lemma {:induction false} GrantsAreChained(requests: seq<Request>, limits: Limits, key: Key)
    requires Monotone(requests)
    ensures Chained(Granted(requests, limits, key), limits.LimitOf(key.1))
    ensures requests != [] ==>
              Tracks(After(requests, limits), Granted(requests, limits, key), key, requests[|requests| - 1].now)
    decreases |requests|
  {
    if requests != [] {
      var before, r := requests[..|requests| - 1], requests[|requests| - 1];
      GrantsAreChained(before, limits, key);
      var s, g := After(before, limits), Granted(before, limits, key);
      var earlier := if before == [] then r.now else before[|before| - 1].now;
      if before != [] && key in s.buckets { StartsArePast(before, limits, key); }
      ChainedStep(s, g, r, limits, key, earlier);
      TracksStep(s, g, r, limits, key, earlier);
    }
  }

  /** The m-th admission after one is in the same window, m ranks on, or a window length later. */
  lemma {:induction false} LaterRank(g: seq<Grant>, limit: nat, i: nat, m: nat)
    requires Chained(g, limit) && i + m < |g|
    ensures (g[i + m].start == g[i].start && g[i + m].rank == g[i].rank + m) || g[i].start + WINDOW <= g[i + m].start
  {
    if m > 0 { LaterRank(g, limit, i, m - 1); }
  }

  /** Any 2 * limit + 1 consecutive admissions of one key span at least a window length. */
  lemma AdmissionsAreSpread(g: seq<Grant>, limit: nat, i: nat)
    requires Chained(g, limit) && i + 2 * limit < |g|
    ensures g[i].now + WINDOW <= g[i + 2 * limit].now
  {
    LaterRank(g, limit, i, limit);
    LaterRank(g, limit, i + limit, limit);
  }

  predicate Within(x: Grant, t: real) {
    t <= x.now < t + 60.0
  }

  /** How many admissions fall into the half-open window that begins at t. */
  function CountWithin(g: seq<Grant>, t: real): nat {
    if g == [] then 0 else CountWithin(g[..|g| - 1], t) + if Within(g[|g| - 1], t) then 1 else 0
  }

  lemma {:induction false} CountInRange(g: seq<Grant>, t: real, lo: nat, n: nat)
    requires forall i :: 0 <= i < |g| && Within(g[i], t) ==> lo <= i < lo + n
    ensures CountWithin(g, t) <= if |g| <= lo then 0 else if |g| - lo <= n then |g| - lo else n
    decreases |g|
  {
    if g != [] {
      var before := g[..|g| - 1];
      assert forall i :: 0 <= i < |before| ==> before[i] == g[i];
      CountInRange(before, t, lo, n);
    }
  }

  lemma FirstWithin(g: seq<Grant>, t: real) returns (m: nat)
    ensures m <= |g| && (m < |g| ==> Within(g[m], t)) && forall i :: 0 <= i < m ==> !Within(g[i], t)
  {
    m := 0;
    while m < |g| && !Within(g[m], t)
      invariant m <= |g| && forall i :: 0 <= i < m ==> !Within(g[i], t)
    {
      m := m + 1;
    }
  }

  lemma {:induction false} NowGrows(requests: seq<Request>, limits: Limits, key: Key)
    requires Monotone(requests)
    ensures InOrder(Granted(requests, limits, key))
    ensures requests != [] ==> forall x :: x in Granted(requests, limits, key) ==> x.now <= requests[|requests| - 1].now
    decreases |requests|
  {
    if requests != [] {
      var before, r := requests[..|requests| - 1], requests[|requests| - 1];
      NowGrows(before, limits, key);
      var g := Granted(before, limits, key);
      assert before != [] ==> before[|before| - 1].now <= r.now;
      OrderOn(g, r.now);
    }
  }

  lemma OrderOn(g: seq<Grant>, now: real)
    requires InOrder(g) && forall x :: x in g ==> x.now <= now
    ensures forall x: Grant :: x.now == now ==> InOrder(g + [x])
  {
    assert forall i :: 0 <= i < |g| ==> g[i] in g;
  }

  predicate InOrder(g: seq<Grant>) {
    forall i, j :: 0 <= i < j < |g| ==> g[i].now <= g[j].now
  }

  /** For every request sequence with a monotone clock, any half-open window admits at most twice the limit per key. */
  lemma AtMostTwiceTheLimit(requests: seq<Request>, limits: Limits, key: Key, t: real)
    requires Monotone(requests)
    ensures CountWithin(Granted(requests, limits, key), t) <= 2 * limits.LimitOf(key.1)
  {
    GrantsAreChained(requests, limits, key);
    NowGrows(requests, limits, key);
    SpreadMeansFew(Granted(requests, limits, key), limits.LimitOf(key.1), t);
  }

  /** The bucket table never outgrows its cap. */
  lemma {:induction false} BucketsAreCapped(requests: seq<Request>, limits: Limits)
    ensures |After(requests, limits).buckets| <= 10000
    decreases |requests|
  {
    if requests != [] {
      var before, r := requests[..|requests| - 1], requests[|requests| - 1];
      BucketsAreCapped(before, limits);
      var kept := Pruned(After(before, limits).buckets, r.now);
      PruningShrinks(After(before, limits).buckets, r.now);
      var after := After(requests, limits).buckets;
      if KeyAdmits(After(before, limits), r, limits) {
        assert after.Keys == kept.Keys + {r.Key()};
        if r.Key() in kept { assert kept.Keys + {r.Key()} == kept.Keys; }
      } else {
        assert after == kept;
      }
    }
  }

  lemma PruningShrinks(buckets: map<Key, Window>, now: real)
    ensures |Pruned(buckets, now)| <= |buckets|
  {
    var kept := Pruned(buckets, now);
    assert buckets.Keys == kept.Keys + (buckets.Keys - kept.Keys);
  }

  // ---------------------------------------------------------------- the service-wide submission limit

  predicate Submits(s: State, r: Request, limits: Limits, category: Category) {
    r.category == category && GlobalLimit(category).Some? && Admission(s, r, limits).1.admitted
  }

  /** The submissions of one category admitted from all clients together, in order. */
  function Submitted(requests: seq<Request>, limits: Limits, category: Category): seq<Grant> {
    if requests == [] then [] else
      var before, r := requests[..|requests| - 1], requests[|requests| - 1];
      NextSubmitted(After(before, limits), Submitted(before, limits, category), r, limits, category)
  }

  function NextSubmitted(s: State, g: seq<Grant>, r: Request, limits: Limits, category: Category): seq<Grant> {
    g + if Submits(s, r, limits, category)
        then [Grant(r.now, GlobalWindow(s, r).start, GlobalWindow(s, r).count + 1)] else []
  }

  ghost predicate TracksSubmissions(s: State, g: seq<Grant>, category: Category, now: real) {
    if category in s.submissions then
      && g != [] && g[|g| - 1].start == s.submissions[category].start <= now
      && g[|g| - 1].rank == s.submissions[category].count
    else g == []
  }

  /** One more admission extends a chain by a rank or by a new window. */
  lemma ChainOn(g: seq<Grant>, limit: nat, x: Grant)
    requires Chained(g, limit) && x.start <= x.now < x.start + WINDOW && 1 <= x.rank <= limit
    requires g != [] ==>
      (x.start == g[|g| - 1].start && x.rank == g[|g| - 1].rank + 1) || g[|g| - 1].start + WINDOW <= x.start
    ensures Chained(g + [x], limit)
  {
  }

  /** A request touches only its own category's submission window, and only when it is admitted. */
  lemma SubmissionEffect(s: State, r: Request, limits: Limits, category: Category)
    ensures var after, w := Admission(s, r, limits).0.submissions, GlobalWindow(s, r);
            if Submits(s, r, limits, category) then
              && category in after && after[category] == Window(w.start, w.count + 1)
              && w.count < GlobalLimit(category).value
            else
              (category in after <==> category in s.submissions)
              && (category in after ==> after[category] == s.submissions[category])
  {
  }

  lemma SubmissionStep(s: State, g: seq<Grant>, r: Request, limits: Limits, category: Category, limit: nat,
                       earlier: real)
    requires GlobalLimit(category) == Some(limit)
    requires Chained(g, limit) && TracksSubmissions(s, g, category, earlier) && earlier <= r.now
    ensures Chained(NextSubmitted(s, g, r, limits, category), limit)
    ensures TracksSubmissions(Admission(s, r, limits).0, NextSubmitted(s, g, r, limits, category), category, r.now)
  {
    SubmissionEffect(s, r, limits, category);
    if Submits(s, r, limits, category) {
      var w := GlobalWindow(s, r);
      ChainOn(g, limit, Grant(r.now, w.start, w.count + 1));
    } else {
      assert NextSubmitted(s, g, r, limits, category) == g;
    }
  }

  lemma {:induction false} SubmissionsAreChained(requests: seq<Request>, limits: Limits, category: Category, limit: nat)
    requires Monotone(requests) && GlobalLimit(category) == Some(limit)
    ensures Chained(Submitted(requests, limits, category), limit)
    ensures requests != [] ==>
              TracksSubmissions(After(requests, limits), Submitted(requests, limits, category), category,
                                requests[|requests| - 1].now)
    decreases |requests|
  {
    if requests != [] {
      var before, r := requests[..|requests| - 1], requests[|requests| - 1];
      SubmissionsAreChained(before, limits, category, limit);
      var earlier := if before == [] then r.now else before[|before| - 1].now;
      SubmissionStep(After(before, limits), Submitted(before, limits, category), r, limits, category, limit, earlier);
    }
  }

  lemma {:induction false} SubmissionsInOrder(requests: seq<Request>, limits: Limits, category: Category)
    requires Monotone(requests)
    ensures InOrder(Submitted(requests, limits, category))
    ensures requests != [] ==>
              forall x :: x in Submitted(requests, limits, category) ==> x.now <= requests[|requests| - 1].now
    decreases |requests|
  {
    if requests != [] {
      var before, r := requests[..|requests| - 1], requests[|requests| - 1];
      SubmissionsInOrder(before, limits, category);
      var g := Submitted(before, limits, category);
      assert before != [] ==> before[|before| - 1].now <= r.now;
      OrderOn(g, r.now);
    }
  }

  /** Any half-open window admits at most twice the service-wide limit of a submission route. */
  lemma SubmissionsAtMostTwice(requests: seq<Request>, limits: Limits, category: Category, limit: nat, t: real)
    requires Monotone(requests) && GlobalLimit(category) == Some(limit)
    ensures CountWithin(Submitted(requests, limits, category), t) <= 2 * limit
  {
    SubmissionsAreChained(requests, limits, category, limit);
    SubmissionsInOrder(requests, limits, category);
    SpreadMeansFew(Submitted(requests, limits, category), limit, t);
  }

  lemma SpreadMeansFew(g: seq<Grant>, limit: nat, t: real)
    requires Chained(g, limit) && InOrder(g)
    ensures CountWithin(g, t) <= 2 * limit
  {
    var first := FirstWithin(g, t);
    forall i | 0 <= i < |g| && Within(g[i], t) ensures first <= i < first + 2 * limit {
      if first + 2 * limit <= i { AdmissionsAreSpread(g, limit, first); }
    }
    CountInRange(g, t, first, 2 * limit);
  }

  // ---------------------------------------------------------------- whoever stays below the limits is admitted

  /** The limits of the routes: the settings' own, and fixed ones for the submissions, per client and altogether. */
  lemma LimitsAre(limits: Limits, category: Category)
    ensures limits.LimitOf(category)
         == match category case AUTH => limits.auth case DEMO => limits.demo case API => limits.api
                           case BETA => 5 case FEEDBACK => 30
    ensures GlobalLimit(category) == match category case BETA => Some(60) case FEEDBACK => Some(120) case _ => None
  {
  }

  /** How many admissions came after t. */
  function CountSince(g: seq<Grant>, t: real): nat {
    if g == [] then 0 else CountSince(g[..|g| - 1], t) + if g[|g| - 1].now > t then 1 else 0
  }

  /** Every window counts from one. */
  predicate CountsFromOne(g: seq<Grant>) {
    forall i :: 0 <= i < |g| ==>
      g[i].rank == 1 || (i > 0 && g[i - 1].start == g[i].start && g[i].rank == g[i - 1].rank + 1)
  }

  lemma CountOn(g: seq<Grant>, x: Grant)
    requires CountsFromOne(g)
    requires x.rank == 1 || (g != [] && g[|g| - 1].start == x.start && x.rank == g[|g| - 1].rank + 1)
    ensures CountsFromOne(g + [x])
  {
  }

  lemma CountStep(s: State, g: seq<Grant>, r: Request, limits: Limits, key: Key, now: real)
    requires CountsFromOne(g) && ((g == [] && key !in s.buckets) || Tracks(s, g, key, now))
    ensures CountsFromOne(Next(s, g, r, limits, key))
  {
    if r.Key() == key && KeyAdmits(s, r, limits) {
      CountOn(g, Grant(r.now, KeyWindow(s, r).start, KeyWindow(s, r).count + 1));
    } else {
      assert Next(s, g, r, limits, key) == g;
    }
  }

  lemma {:induction false} GrantsCountFromOne(requests: seq<Request>, limits: Limits, key: Key)
    requires Monotone(requests)
    ensures CountsFromOne(Granted(requests, limits, key))
    decreases |requests|
  {
    hide CountsFromOne, Chained, Tracks, Admission, KeyAdmits, KeyWindow;
    NothingCounted();
    if requests != [] {
      var before, r := requests[..|requests| - 1], requests[|requests| - 1];
      GrantsCountFromOne(before, limits, key);
      GrantsAreChained(before, limits, key);
      var s, g := After(before, limits), Granted(before, limits, key);
      CountStep(s, g, r, limits, key, if before == [] then r.now else before[|before| - 1].now);
    }
  }

  lemma NothingCounted()
    ensures CountsFromOne([])
  {
  }

  lemma SubmissionCountStep(s: State, g: seq<Grant>, r: Request, limits: Limits, category: Category, now: real)
    requires CountsFromOne(g) && ((g == [] && category !in s.submissions) || TracksSubmissions(s, g, category, now))
    ensures CountsFromOne(NextSubmitted(s, g, r, limits, category))
  {
    if Submits(s, r, limits, category) {
      CountOn(g, Grant(r.now, GlobalWindow(s, r).start, GlobalWindow(s, r).count + 1));
    } else {
      assert NextSubmitted(s, g, r, limits, category) == g;
    }
  }

  lemma {:induction false} SubmissionsCountFromOne(requests: seq<Request>, limits: Limits, category: Category,
                                                   limit: nat)
    requires Monotone(requests) && GlobalLimit(category) == Some(limit)
    ensures CountsFromOne(Submitted(requests, limits, category))
    decreases |requests|
  {
    hide CountsFromOne, Chained, TracksSubmissions, Admission, Submits, GlobalWindow;
    NothingCounted();
    if requests != [] {
      var before, r := requests[..|requests| - 1], requests[|requests| - 1];
      SubmissionsCountFromOne(before, limits, category, limit);
      SubmissionsAreChained(before, limits, category, limit);
      var s, g := After(before, limits), Submitted(before, limits, category);
      SubmissionCountStep(s, g, r, limits, category, if before == [] then r.now else before[|before| - 1].now);
    }
  }

  lemma PrefixCounts(g: seq<Grant>, limit: nat)
    requires Chained(g, limit) && CountsFromOne(g) && g != []
    ensures Chained(g[..|g| - 1], limit) && CountsFromOne(g[..|g| - 1])
    ensures g[|g| - 1].rank > 1 ==>
              |g| > 1 && g[|g| - 2].start == g[|g| - 1].start && g[|g| - 1].rank == g[|g| - 2].rank + 1
    ensures g[|g| - 1].start <= g[|g| - 1].now
  {
    var before, k := g[..|g| - 1], |g| - 1;
    assert forall i :: 0 <= i < |before| ==> before[i] == g[i];
    assert g[k].rank == 1 || (k > 0 && g[k - 1].start == g[k].start && g[k].rank == g[k - 1].rank + 1);
    assert g[k].start <= g[k].now;
    forall i | 0 <= i < |before|
      ensures before[i].rank == 1
              || (i > 0 && before[i - 1].start == before[i].start && before[i].rank == before[i - 1].rank + 1)
    {
      assert g[i].rank == 1 || (i > 0 && g[i - 1].start == g[i].start && g[i].rank == g[i - 1].rank + 1);
    }
  }

  /** As many admissions as the last one's rank lie in its window. */
  lemma {:induction false} RankIsCounted(g: seq<Grant>, limit: nat, t: real)
    requires Chained(g, limit) && CountsFromOne(g) && g != [] && g[|g| - 1].start > t
    ensures g[|g| - 1].rank <= CountSince(g, t)
    decreases |g|
  {
    hide Chained, CountsFromOne;
    PrefixCounts(g, limit);
    var before := g[..|g| - 1];
    assert CountSince(g, t) == CountSince(before, t) + 1;
    if g[|g| - 1].rank > 1 {
      assert before[|before| - 1] == g[|g| - 2];
      RankIsCounted(before, limit, t);
    }
  }

  /** A live window has counted no more than the client's admissions of the last minute. */
  lemma WindowIsRecent(s: State, g: seq<Grant>, r: Request, limit: nat, now: real)
    requires Chained(g, limit) && CountsFromOne(g)
    requires (g == [] && r.Key() !in s.buckets) || Tracks(s, g, r.Key(), now)
    ensures KeyWindow(s, r).count <= CountSince(g, r.now - 60.0)
  {
    if r.Key() in Pruned(s.buckets, r.now) {
      RankIsCounted(g, limit, r.now - 60.0);
    }
  }

  lemma GlobalWindowIsRecent(s: State, g: seq<Grant>, r: Request, limit: nat, now: real)
    requires Chained(g, limit) && CountsFromOne(g)
    requires (g == [] && r.category !in s.submissions) || TracksSubmissions(s, g, r.category, now)
    ensures GlobalWindow(s, r).count <= CountSince(g, r.now - 60.0)
  {
    if r.category in s.submissions && r.now - s.submissions[r.category].start < WINDOW {
      RankIsCounted(g, limit, r.now - 60.0);
    }
  }

  /**
   * With a monotone clock and room in the table, a client that was admitted less often than its limit in the last
   * minute is within its limit now.
   */
  lemma BelowTheLimitIsAdmitted(requests: seq<Request>, limits: Limits, r: Request)
    requires Monotone(requests + [r])
    requires CountSince(Granted(requests, limits, r.Key()), r.now - 60.0) < limits.LimitOf(r.category)
    requires |Pruned(After(requests, limits).buckets, r.now)| < 10000
    ensures Admission(After(requests, limits), r, limits).1.byKey
    ensures GlobalLimit(r.category).None? ==> Admission(After(requests, limits), r, limits).1.admitted
  {
    hide CountsFromOne, Chained, Tracks, KeyWindow, CountSince;
    var key, s, g := r.Key(), After(requests, limits), Granted(requests, limits, r.Key());
    PrefixIsMonotone(requests, r);
    GrantsAreChained(requests, limits, key);
    GrantsCountFromOne(requests, limits, key);
    WindowIsRecent(s, g, r, limits.LimitOf(key.1), if requests == [] then r.now else requests[|requests| - 1].now);
  }

  lemma NothingSubmitted(limits: Limits, category: Category)
    ensures Submitted([], limits, category) == [] && After([], limits).submissions == map[]
  {
  }

  lemma PrefixIsMonotone(requests: seq<Request>, r: Request)
    requires Monotone(requests + [r])
    ensures Monotone(requests)
  {
    assert forall i :: 0 <= i < |requests| ==> (requests + [r])[i] == requests[i];
  }

  /** A submission within its client's limit is admitted while all clients together stay below the service's. */
  lemma BelowBothLimitsIsAdmitted(requests: seq<Request>, limits: Limits, r: Request, limit: nat)
    requires Monotone(requests + [r]) && GlobalLimit(r.category) == Some(limit)
    requires CountSince(Granted(requests, limits, r.Key()), r.now - 60.0) < limits.LimitOf(r.category)
    requires CountSince(Submitted(requests, limits, r.category), r.now - 60.0) < limit
    requires |Pruned(After(requests, limits).buckets, r.now)| < 10000
    ensures Admission(After(requests, limits), r, limits).1.admitted
  {
    hide CountsFromOne, Chained, TracksSubmissions, GlobalWindow, CountSince, Submitted, Granted;
    var s, g := After(requests, limits), Submitted(requests, limits, r.category);
    NothingSubmitted(limits, r.category);
    BelowTheLimitIsAdmitted(requests, limits, r);
    PrefixIsMonotone(requests, r);
    SubmissionsAreChained(requests, limits, r.category, limit);
    SubmissionsCountFromOne(requests, limits, r.category, limit);
    GlobalWindowIsRecent(s, g, r, limit, if requests == [] then r.now else requests[|requests| - 1].now);
  }
}
