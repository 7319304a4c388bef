/** Node identifiers, their lexicographic order, and the " -> " path key built from them. */
module Ids {

  type Id = string

  /** Strict lexicographic order on identifiers (the order Python's `sorted` uses on strings). */
  predicate Before(a: Id, b: Id) {
    b != [] && (a == [] || a[0] < b[0] || (a[0] == b[0] && Before(a[1..], b[1..])))
  }

  lemma {:induction false} BeforeIsTotal(a: Id, b: Id)
    ensures a == b || Before(a, b) || Before(b, a)
  {
    if a != [] && b != [] && a[0] == b[0] {
      BeforeIsTotal(a[1..], b[1..]);
      assert a == [a[0]] + a[1..] && b == [b[0]] + b[1..];
    }
  }

  lemma {:induction false} BeforeIsTransitive(a: Id, b: Id, c: Id)
    requires Before(a, b) && Before(b, c)
    ensures Before(a, c)
  {
    if a != [] && a[0] == b[0] && b[0] == c[0] {
      BeforeIsTransitive(a[1..], b[1..], c[1..]);
    }
  }

  lemma {:induction false} BeforeIsIrreflexive(a: Id)
    ensures !Before(a, a)
  {
    if a != [] {
      BeforeIsIrreflexive(a[1..]);
    }
  }

  /** The first difference decides, and a proper prefix comes first. */
  lemma {:induction false} BeforeMeans(a: Id, b: Id)
    ensures Before(a, b) <==>
              exists k :: 0 <= k <= |a| && k < |b| && a[..k] == b[..k] && (k == |a| || a[k] < b[k])
  {
    if Before(a, b) {
      if a == [] || a[0] < b[0] {
        assert a[..0] == b[..0];
      } else {
        BeforeMeans(a[1..], b[1..]);
        var k :| 0 <= k <= |a| - 1 && k < |b| - 1 && a[1..][..k] == b[1..][..k]
                 && (k == |a| - 1 || a[1..][k] < b[1..][k]);
        assert a[..k + 1] == [a[0]] + a[1..][..k] && b[..k + 1] == [b[0]] + b[1..][..k];
      }
    }
    if k :| 0 <= k <= |a| && k < |b| && a[..k] == b[..k] && (k == |a| || a[k] < b[k]) {
      if k > 0 {
        assert a[0] == a[..k][0] == b[..k][0] == b[0];
        assert a[1..][..k - 1] == a[..k][1..] == b[..k][1..] == b[1..][..k - 1];
        BeforeMeans(a[1..], b[1..]);
      }
    }
  }

  predicate IsFirst(m: Id, s: set<Id>) {
    m in s && forall x :: x in s && x != m ==> Before(m, x)
  }

  lemma FirstExists(s: set<Id>)
    requires s != {}
    ensures exists m :: IsFirst(m, s)
  {
    var x :| x in s;
    if s == {x} {
      assert IsFirst(x, s);
    } else {
      FirstExists(s - {x});
      var m :| IsFirst(m, s - {x});
      BeforeIsTotal(m, x);
      if Before(x, m) {
        forall y | y in s && y != x ensures Before(x, y) {
          if y != m { BeforeIsTransitive(x, m, y); }
        }
        assert IsFirst(x, s);
      } else {
        assert IsFirst(m, s);
      }
    }
  }

  lemma FirstIsUnique(s: set<Id>)
    ensures forall m, n :: IsFirst(m, s) && IsFirst(n, s) ==> m == n
  {
    forall m, n | IsFirst(m, s) && IsFirst(n, s) && m != n ensures false {
      BeforeIsTransitive(m, n, m);
      BeforeIsIrreflexive(m);
    }
  }

  /** Every element of a set exactly once, in increasing order. */
  function Sorted(s: set<Id>): (r: seq<Id>)
    ensures forall x :: x in r <==> x in s
    ensures forall i, j :: 0 <= i < j < |r| ==> Before(r[i], r[j])
    ensures forall i, j :: 0 <= i < j < |r| ==> r[i] != r[j]
  {
    if s == {} then [] else
      FirstExists(s);
      FirstIsUnique(s);
      var m :| IsFirst(m, s);
      [m] + Sorted(s - {m})
  }

  const SEPARATOR := " -> "

  /** The identity of a path: its node ids joined by an arrow. */
  function Join(ids: seq<Id>): string {
    if ids == [] then "" else if |ids| == 1 then ids[0] else ids[0] + SEPARATOR + Join(ids[1..])
  }

  predicate SeparatorAt(id: Id, i: int) {
    0 <= i <= |id| - 4 && id[i..i + 4] == SEPARATOR
  }

  /** The separator occurs inside the id. */
  predicate HasSeparator(id: Id) {
    exists i :: 0 <= i <= |id| - 4 && SeparatorAt(id, i)
  }

  /** An id that joining cannot confuse: no separator in it, and no dash to complete one with. */
  predicate Unbroken(id: Id) {
    !HasSeparator(id) && (id == "" || id[0] != '-')
  }

  lemma JoinStart(ids: seq<Id>)
    requires ids != [] && Unbroken(ids[0])
    ensures Join(ids) == "" || Join(ids)[0] != '-'
  {
  }

  /** Two keys agree only when the node lists agree, as long as every id is unbroken. */
  lemma {:induction false} JoinIsInjective(a: seq<Id>, b: seq<Id>)
    requires a != [] && b != []
    requires forall id :: id in a || id in b ==> Unbroken(id)
    requires Join(a) == Join(b)
    ensures a == b
  {
    assert Unbroken(a[0]) && Unbroken(b[0]);
    HeadIsNoShorter(Join(a), a, b);
    HeadIsNoShorter(Join(a), b, a);
    assert a[0] == Join(a)[..|a[0]|] == b[0];
    if |a| > 1 {
      TailIsJoined(a);
      TailIsJoined(b);
      JoinIsInjective(a[1..], b[1..]);
    }
    assert a == [a[0]] + a[1..] && b == [b[0]] + b[1..];
  }

  lemma TailIsJoined(a: seq<Id>)
    requires |a| > 1
    ensures Join(a)[|a[0]| + 4..] == Join(a[1..])
  {
  }

  lemma SeparatorInPrefix(s: string, prefix: string, n: nat)
    requires prefix <= s && n + 4 <= |prefix| && s[n..n + 4] == SEPARATOR
    ensures HasSeparator(prefix)
  {
    assert prefix[n..n + 4] == s[n..n + 4];
    assert SeparatorAt(prefix, n);
  }

  /** The first id of one splitting is not shorter than that of another. */
  lemma HeadIsNoShorter(s: string, a: seq<Id>, b: seq<Id>)
    requires a != [] && b != [] && Join(a) == s == Join(b)
    requires forall id :: id in a || id in b ==> Unbroken(id)
    ensures |a[0]| >= |b[0]|
  {
    var x, y := a[0], b[0];
    var n, m := |x|, |y|;
    assert Unbroken(x) && Unbroken(y);
    assert s[..n] == x && s[..m] == y;
    if |a| > 1 {
      TailIsJoined(a);
      assert Unbroken(a[1]);
      JoinStart(a[1..]);
      assert s[n..n + 4] == SEPARATOR;
      assert s[n] == ' ' && s[n + 1] == '-' && s[n + 2] == '>' && s[n + 3] == ' ';
      assert n + 4 < |s| ==> s[n + 4] == s[n + 4..][0] != '-';
      assert |b| > 1 ==> s[m] == ' ' && s[m + 1] == '-';
      if n + 4 <= m {
        SeparatorInPrefix(s, y, n);
      }
    }
  }

  lemma {:induction false} JoinAppend(a: seq<Id>, b: seq<Id>)
    requires a != [] && b != []
    ensures Join(a + b) == Join(a) + SEPARATOR + Join(b)
  {
    if |a| == 1 {
      assert (a + b)[0] == a[0] && (a + b)[1..] == b;
    } else {
      assert (a + b)[0] == a[0] && (a + b)[1..] == a[1..] + b;
      JoinAppend(a[1..], b);
    }
  }

  lemma JoinPair(y: Id, z: Id)
    ensures Join([y, z]) == Join([y + SEPARATOR + z]) == y + SEPARATOR + z
  {
    assert [y, z][1..] == [z];
  }

  /** Every id with the separator inside collides: it always reads like the two ids around the separator. */
  lemma KeysCollide(before: seq<Id>, y: Id, z: Id, after: seq<Id>)
    ensures Join(before + [y + SEPARATOR + z] + after) == Join(before + [y, z] + after)
  {
    var one, two := [y + SEPARATOR + z], [y, z];
    JoinPair(y, z);
    if before != [] {
      JoinAppend(before, one);
      JoinAppend(before, two);
    } else {
      assert before + one == one && before + two == two;
    }
    if after != [] {
      JoinAppend(before + one, after);
      JoinAppend(before + two, after);
    } else {
      assert before + one + after == before + one && before + two + after == before + two;
    }
  }

  /** A name after a prefix without spaces is broken only by itself. */
  lemma PrefixedIsUnbroken(prefix: string, name: string)
    requires ' ' !in prefix && prefix != "" && prefix[0] != '-' && !HasSeparator(name)
    ensures Unbroken(prefix + name)
  {
    var id := prefix + name;
    forall i | 0 <= i <= |id| - 4 ensures !SeparatorAt(id, i) {
      assert i < |prefix| ==> id[i..i + 4][0] == prefix[i] && prefix[i] in prefix;
      if i >= |prefix| {
        assert id[i..i + 4] == name[i - |prefix|..i - |prefix| + 4];
        assert !SeparatorAt(name, i - |prefix|);
      }
    }
  }
}
