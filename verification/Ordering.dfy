/** Finite sets listed in ascending order.

The list-query runner, the suggest pager and the fixed-table theorems all speak of "the rows in order".
This module says what that means for any strict total order, and proves that such a listing exists, is
unique, and that cutting the set at a point of the order cuts the listing at an index. */
module Ordering {

  /** `lt` is a strict total order on the members of `s`. */
  ghost predicate TotalOn<T(!new)>(lt: (T, T) -> bool, s: set<T>) {
    && (forall x | x in s :: !lt(x, x))
    && (forall x, y | x in s && y in s :: x == y || lt(x, y) || lt(y, x))
    && (forall x, y, z | x in s && y in s && z in s && lt(x, y) && lt(y, z) :: lt(x, z))
  }

  ghost predicate Ascending<T(!new)>(lt: (T, T) -> bool, q: seq<T>) {
    forall i, j | 0 <= i < j < |q| :: lt(q[i], q[j])
  }

  function Elems<T>(q: seq<T>): set<T> {
    set x | x in q
  }

  /** `q` holds exactly the members of `s`, each once, in ascending order. */
  ghost predicate Lists<T(!new)>(lt: (T, T) -> bool, s: set<T>, q: seq<T>) {
    Ascending(lt, q) && Elems(q) == s
  }

  lemma {:induction false} LeastExists<T(!new)>(lt: (T, T) -> bool, s: set<T>) returns (m: T)
    requires TotalOn(lt, s) && s != {}
    ensures m in s && forall y | y in s :: y == m || lt(m, y)
    decreases |s|
  {
    var x :| x in s;
    if s == {x} {
      m := x;
    } else {
      var m' := LeastExists(lt, s - {x});
      m := if lt(x, m') then x else m';
    }
  }

  lemma {:induction false} ListingExists<T(!new)>(lt: (T, T) -> bool, s: set<T>)
    requires TotalOn(lt, s)
    ensures exists q :: Lists(lt, s, q)
    decreases |s|
  {
    if s == {} {
      assert Lists(lt, s, []);
    } else {
      var m := LeastExists(lt, s);
      SubsetTotal(lt, s, s - {m});
      ListingExists(lt, s - {m});
      var rest :| Lists(lt, s - {m}, rest);
      LeastFirst(lt, s, m, rest);
    }
  }

  lemma LeastFirst<T(!new)>(lt: (T, T) -> bool, s: set<T>, m: T, rest: seq<T>)
    requires m in s && (forall y | y in s :: y == m || lt(m, y)) && Lists(lt, s - {m}, rest)
    ensures Lists(lt, s, [m] + rest)
  {
    forall j | 0 <= j < |rest| ensures lt(m, rest[j]) {
      assert rest[j] in Elems(rest);
    }
    assert Elems([m] + rest) == {m} + Elems(rest);
  }

  /** The listing of `s`: the answer of a runner that sorts the rows of `s`. */
  ghost function Listing<T(!new)>(lt: (T, T) -> bool, s: set<T>): (q: seq<T>)
    requires TotalOn(lt, s)
    ensures Lists(lt, s, q)
  {
    ListingExists(lt, s);
    var q :| Lists(lt, s, q);
    q
  }

  lemma HeadIsLeast<T(!new)>(lt: (T, T) -> bool, s: set<T>, q: seq<T>, x: T)
    requires TotalOn(lt, s) && Lists(lt, s, q) && x in s
    ensures q != [] && (x == q[0] || lt(q[0], x))
  {
    assert x in Elems(q);
    var i :| 0 <= i < |q| && q[i] == x;
  }

  lemma TailLists<T(!new)>(lt: (T, T) -> bool, s: set<T>, q: seq<T>)
    requires TotalOn(lt, s) && Lists(lt, s, q) && q != []
    ensures q[0] in s && Lists(lt, s - {q[0]}, q[1..])
  {
    assert q[0] in Elems(q);
    forall x ensures x in Elems(q[1..]) <==> x in s - {q[0]} {
      if x in Elems(q[1..]) {
        var i :| 0 <= i < |q[1..]| && q[1..][i] == x;
        assert q[i + 1] == x && x in Elems(q);
      }
      if x in s - {q[0]} {
        assert x in Elems(q);
        var i :| 0 <= i < |q| && q[i] == x;
        assert q[1..][i - 1] == x;
      }
    }
  }

  /** A set has only one listing. */
  lemma {:induction false} ListingUnique<T(!new)>(lt: (T, T) -> bool, s: set<T>, p: seq<T>, q: seq<T>)
    requires TotalOn(lt, s) && Lists(lt, s, p) && Lists(lt, s, q)
    ensures p == q
    decreases |p|
  {
    ListingSize(lt, s, p);
    ListingSize(lt, s, q);
    if p != [] {
      assert p[0] in Elems(p);
      HeadIsLeast(lt, s, q, p[0]);
      assert q[0] in Elems(q);
      HeadIsLeast(lt, s, p, q[0]);
      TailLists(lt, s, p);
      TailLists(lt, s, q);
      ListingUnique(lt, s - {p[0]}, p[1..], q[1..]);
    }
  }

  /** A listing has as many entries as its set has members. */
  lemma {:induction false} ListingSize<T(!new)>(lt: (T, T) -> bool, s: set<T>, q: seq<T>)
    requires TotalOn(lt, s) && Lists(lt, s, q)
    ensures |q| == |s|
    decreases |q|
  {
    if q == [] {
      assert s == {};
    } else {
      TailLists(lt, s, q);
      ListingSize(lt, s - {q[0]}, q[1..]);
    }
  }

  /** Cutting the listing after index `k` lists exactly the members strictly after `q[k]`. */
  lemma SuffixLists<T(!new)>(lt: (T, T) -> bool, s: set<T>, q: seq<T>, k: nat)
    requires TotalOn(lt, s) && Lists(lt, s, q) && k < |q|
    ensures Lists(lt, (set x | x in s && lt(q[k], x)), q[k + 1..])
  {
    assert q[k] in Elems(q);
    forall x ensures x in Elems(q[k + 1..]) <==> x in s && lt(q[k], x) {
      if x in Elems(q[k + 1..]) {
        var i :| 0 <= i < |q[k + 1..]| && q[k + 1..][i] == x;
        assert q[k + 1 + i] == x && x in Elems(q);
      }
      if x in s && lt(q[k], x) {
        assert x in Elems(q);
        var i :| 0 <= i < |q| && q[i] == x;
        assert k < i;
        assert q[k + 1..][i - k - 1] == x;
      }
    }
  }

  lemma SubsetTotal<T(!new)>(lt: (T, T) -> bool, s: set<T>, t: set<T>)
    requires TotalOn(lt, s) && t <= s
    ensures TotalOn(lt, t)
  {
  }
}
