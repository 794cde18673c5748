/** The order of strings: by character, a proper prefix first. */
module StringOrder {
  import opened Ordering

  predicate StrLt(a: string, b: string) {
    b != [] && (a == [] || a[0] < b[0] || (a[0] == b[0] && StrLt(a[1..], b[1..])))
  }

  lemma {:induction false} StrIrreflexive(a: string)
    ensures !StrLt(a, a)
  {
    if a != [] {
      StrIrreflexive(a[1..]);
    }
  }

  lemma {:induction false} StrTransitive(a: string, b: string, c: string)
    requires StrLt(a, b) && StrLt(b, c)
    ensures StrLt(a, c)
  {
    if a != [] && a[0] == b[0] == c[0] {
      StrTransitive(a[1..], b[1..], c[1..]);
    }
  }

  lemma {:induction false} StrConnected(a: string, b: string)
    ensures a == b || StrLt(a, b) || StrLt(b, a)
  {
    if a != [] && b != [] && a[0] == b[0] {
      StrConnected(a[1..], b[1..]);
      assert a == [a[0]] + a[1..] && b == [b[0]] + b[1..];
    }
  }

  /** Strings are totally ordered, whatever set of them is listed. */
  lemma StrTotal(s: set<string>)
    ensures TotalOn(StrLt, s)
  {
    forall x | x in s ensures !StrLt(x, x) { StrIrreflexive(x); }
    forall x, y | x in s && y in s ensures x == y || StrLt(x, y) || StrLt(y, x) { StrConnected(x, y); }
    forall x, y, z | x in s && y in s && z in s && StrLt(x, y) && StrLt(y, z) ensures StrLt(x, z) {
      StrTransitive(x, y, z);
    }
  }

  ghost function SortedStrings(s: set<string>): (q: seq<string>)
    ensures Lists(StrLt, s, q)
  {
    StrTotal(s);
    Listing(StrLt, s)
  }

  function Insert(x: string, q: seq<string>): seq<string> {
    if q == [] || StrLt(x, q[0]) then [x] + q else [q[0]] + Insert(x, q[1..])
  }

  function SortStrings(q: seq<string>): seq<string> {
    if q == [] then [] else Insert(q[0], SortStrings(q[1..]))
  }

  lemma {:induction false} InsertLists(x: string, s: set<string>, q: seq<string>)
    requires Lists(StrLt, s, q) && x !in s
    ensures Lists(StrLt, s + {x}, Insert(x, q))
  {
    StrTotal(s + {x});
    if q == [] {
    } else if StrLt(x, q[0]) {
      assert forall y | y in q :: y in Elems(q);
      forall j | 0 <= j < |q| ensures StrLt(x, q[j]) {
        assert q[j] in Elems(q) && q[0] in Elems(q);
      }
      assert Elems([x] + q) == Elems(q) + {x};
    } else {
      assert q[0] in Elems(q);
      TailLists(StrLt, s, q);
      InsertLists(x, s - {q[0]}, q[1..]);
      var r := Insert(x, q[1..]);
      forall y | y in r ensures StrLt(q[0], y) {
        assert y in Elems(r);
        if y != x {
          HeadIsLeast(StrLt, s, q, y);
        }
      }
      assert Elems([q[0]] + r) == Elems(r) + {q[0]};
    }
  }

  /** Sorting distinct strings lists their set. */
  lemma {:induction false} SortLists(q: seq<string>)
    requires forall i, j | 0 <= i < j < |q| :: q[i] != q[j]
    ensures Lists(StrLt, Elems(q), SortStrings(q))
  {
    if q != [] {
      SortLists(q[1..]);
      assert Elems(q) == Elems(q[1..]) + {q[0]};
      InsertLists(q[0], Elems(q[1..]), SortStrings(q[1..]));
    }
  }
}

/** Value suggestions over one or several columns. */
module Suggest {
  import opened Ordering
  import opened StringOrder

  const FALLBACK_LIMIT := 10

  /** A suggest cursor: absent, a page number, or text that is not a number. */
  datatype Cursor = NoCursor | PageNo(n: int) | Junk

  datatype Page = Page(items: seq<string>, next: Cursor, pageSize: int, pageNumber: int)

  function SuggestPageNumber(token: Cursor): (n: int)
    ensures n >= 1
  {
    match token
    case PageNo(n) => if n > 1 then n else 1
    case _ => 1
  }

  function EffectiveLimit(limit: int): (l: nat)
    ensures l > 0
  {
    if limit <= 0 then FALLBACK_LIMIT else limit
  }

  function SuggestPage(values: seq<string>, limit: int, pageNum: int): Page {
    var l := EffectiveLimit(limit);
    if |values| > l then Page(values[..l], PageNo(pageNum + 1), l, pageNum) else Page(values, NoCursor, l, pageNum)
  }

  /** Page `pageNum` of an ordered list of values. */
  function PageOf(u: seq<string>, limit: int, pageNum: nat): Page
    requires pageNum >= 1
  {
    var l := EffectiveLimit(limit);
    var offset := (pageNum - 1) * l;
    if offset >= |u| then Page([], NoCursor, l, pageNum)
    else if offset + l < |u| then Page(u[offset..offset + l], PageNo(pageNum + 1), l, pageNum)
    else Page(u[offset..], NoCursor, l, pageNum)
  }

  ghost function Union(columns: seq<seq<string>>): set<string> {
    set i, j | 0 <= i < |columns| && 0 <= j < |columns[i]| :: columns[i][j]
  }

  /** The merging loop: one globally distinct, ascending list, windowed after the merge. */
  method MergeDistinct(columns: seq<seq<string>>, limit: int, pageNum: nat) returns (page: Page)
    requires pageNum >= 1
    ensures page == PageOf(SortedStrings(Union(columns)), limit, pageNum)
  {
    var l := EffectiveLimit(limit);
    var seen: set<string> := {};
    var merged: seq<string> := [];
    for i := 0 to |columns|
      invariant seen == Elems(merged)
      invariant seen == set a, b | 0 <= a < i && 0 <= b < |columns[a]| :: columns[a][b]
      invariant forall a, b | 0 <= a < b < |merged| :: merged[a] != merged[b]
    {
      var col := columns[i];
      ghost var before := seen;
      for j := 0 to |col|
        invariant seen == Elems(merged)
        invariant seen == before + Elems(col[..j])
        invariant forall a, b | 0 <= a < b < |merged| :: merged[a] != merged[b]
      {
        var v := col[j];
        assert col[..j + 1] == col[..j] + [v];
        if v !in seen {
          seen := seen + {v};
          assert Elems(merged + [v]) == Elems(merged) + {v};
          merged := merged + [v];
        }
      }
      assert col[..|col|] == col;
    }
    ghost var found := merged;
    merged := SortStrings(merged);
    SortLists(found);
    StrTotal(Elems(found));
    assert Elems(found) == Union(columns);
    ListingUnique(StrLt, Elems(found), merged, SortedStrings(Union(columns)));
    var offset := (pageNum - 1) * l;
    assert offset >= 0;
    if offset >= |merged| {
      return SuggestPage([], l, pageNum);
    }
    var end := if offset + l + 1 > |merged| then |merged| else offset + l + 1;
    page := SuggestPage(merged[offset..end], l, pageNum);
  }

  // ---------- capped columns are enough ----------

  function Take(q: seq<string>, m: nat): seq<string> {
    if m >= |q| then q else q[..m]
  }

  lemma {:induction false} RankGrows(c: seq<string>, u: seq<string>, t: nat, j: nat)
    requires Ascending(StrLt, c) && Ascending(StrLt, u) && Elems(c) <= Elems(u)
    requires t < |c| && j < |u| && c[t] == u[j]
    ensures t <= j
  {
    hide StrLt;
    if t > 0 {
      assert c[t - 1] in Elems(c);
      var k :| 0 <= k < |u| && u[k] == c[t - 1];
      if k > j {
        StrTransitive(u[j], u[k], c[t]);
        StrIrreflexive(c[t]);
        assert false;
      }
      StrIrreflexive(u[j]);
      RankGrows(c, u, t - 1, k);
    }
  }

  /** Two listings with the same least member begin with it. */
  lemma SameHead(us: set<string>, vs: set<string>, u: seq<string>, v: seq<string>)
    requires Lists(StrLt, us, u) && Lists(StrLt, vs, v) && vs <= us && u != [] && u[0] in vs
    ensures v != [] && u[0] == v[0]
  {
    hide StrLt;
    StrTotal(us);
    StrTotal(vs);
    HeadIsLeast(StrLt, vs, v, u[0]);
    assert v[0] in Elems(v);
    HeadIsLeast(StrLt, us, u, v[0]);
  }

  lemma TakeStep(u: seq<string>, m: nat)
    requires u != [] && m > 0
    ensures Take(u, m) == [u[0]] + Take(u[1..], m - 1)
  {
  }

  /** Past the head, the first `m` of the larger listing are still in the smaller set. */
  lemma TailWithin(us: set<string>, vs: set<string>, u: seq<string>, m: nat)
    requires Lists(StrLt, us, u) && u != [] && forall j | 0 <= j < m && j < |u| :: u[j] in vs
    ensures forall j | 0 <= j < m - 1 && j < |u[1..]| :: u[1..][j] in vs - {u[0]}
  {
    hide StrLt;
    StrIrreflexive(u[0]);
    forall j | 0 <= j < m - 1 && j < |u[1..]| ensures u[1..][j] in vs - {u[0]} {
      assert u[1..][j] == u[j + 1] && StrLt(u[0], u[j + 1]);
    }
  }

  /** Two listings agree on their first `m` entries when the smaller set holds the first `m` of the larger. */
  lemma {:induction false} PrefixAgrees(us: set<string>, vs: set<string>, u: seq<string>, v: seq<string>, m: nat)
    requires Lists(StrLt, us, u) && Lists(StrLt, vs, v) && vs <= us
    requires forall j | 0 <= j < m && j < |u| :: u[j] in vs
    ensures Take(u, m) == Take(v, m)
    decreases m
  {
    hide TotalOn;
    hide StrLt;
    StrTotal(us);
    StrTotal(vs);
    if u == [] {
      assert us == {};
      ListingSize(StrLt, vs, v);
    } else if m > 0 {
      hide Lists;
      hide Take;
      SameHead(us, vs, u, v);
      TailLists(StrLt, us, u);
      TailLists(StrLt, vs, v);
      TailWithin(us, vs, u, m);
      PrefixAgrees(us - {u[0]}, vs - {v[0]}, u[1..], v[1..], m - 1);
      TakeStep(u, m);
      TakeStep(v, m);
    }
  }

  /** Every distinct match of any column. */
  ghost function Matches(full: seq<set<string>>): set<string> {
    set i, x | 0 <= i < |full| && x in full[i] :: x
  }

  lemma PageNeedsPrefix(u: seq<string>, v: seq<string>, limit: int, pageNum: nat)
    requires pageNum >= 1
    requires (pageNum - 1) * EffectiveLimit(limit) >= 0
    requires var m := (pageNum - 1) * EffectiveLimit(limit) + EffectiveLimit(limit) + 1; Take(u, m) == Take(v, m)
    ensures PageOf(u, limit, pageNum) == PageOf(v, limit, pageNum)
  {
    var l := EffectiveLimit(limit);
    var offset := (pageNum - 1) * l;
    var m := offset + l + 1;
    assert PageOf(u, limit, pageNum) == PageOf(Take(u, m), limit, pageNum)
           by { PageOfTake(u, limit, pageNum, offset, m); }
    assert PageOf(v, limit, pageNum) == PageOf(Take(v, m), limit, pageNum)
           by { PageOfTake(v, limit, pageNum, offset, m); }
  }

  lemma PageOfTake(u: seq<string>, limit: int, pageNum: nat, offset: nat, m: nat)
    requires pageNum >= 1 && offset == (pageNum - 1) * EffectiveLimit(limit) && m == offset + EffectiveLimit(limit) + 1
    ensures PageOf(u, limit, pageNum) == PageOf(Take(u, m), limit, pageNum)
  {
    var l := EffectiveLimit(limit);
    if m < |u| {
      assert u[..m][offset..offset + l] == u[offset..offset + l];
    }
  }

  /** Each column capped at its first offset + limit + 1 sorted matches gives the same page, and the same decision
      whether another follows, as merging every match of every column. */
  lemma CappedColumnsSuffice(full: seq<set<string>>, columns: seq<seq<string>>, limit: int, pageNum: nat)
    requires pageNum >= 1 && |columns| == |full| && (pageNum - 1) * EffectiveLimit(limit) >= 0
    requires var m := (pageNum - 1) * EffectiveLimit(limit) + EffectiveLimit(limit) + 1;
             forall i | 0 <= i < |full| :: columns[i] == Take(SortedStrings(full[i]), m)
    ensures PageOf(SortedStrings(Union(columns)), limit, pageNum)
            == PageOf(SortedStrings(Matches(full)), limit, pageNum)
  {
    var m := (pageNum - 1) * EffectiveLimit(limit) + EffectiveLimit(limit) + 1;
    var us, vs := Matches(full), Union(columns);
    var u, v := SortedStrings(us), SortedStrings(vs);
    forall x | x in vs ensures x in us {
      var i, j :| 0 <= i < |columns| && 0 <= j < |columns[i]| && columns[i][j] == x;
      assert SortedStrings(full[i])[j] == x && x in Elems(SortedStrings(full[i]));
    }
    forall j | 0 <= j < m && j < |u| ensures u[j] in vs {
      CappedHolds(full, columns, m, u, j);
    }
    PrefixAgrees(us, vs, u, v, m);
    PageNeedsPrefix(u, v, limit, pageNum);
  }

  lemma CappedHolds(full: seq<set<string>>, columns: seq<seq<string>>, m: nat, u: seq<string>, j: nat)
    requires |columns| == |full| && forall i | 0 <= i < |full| :: columns[i] == Take(SortedStrings(full[i]), m)
    requires Lists(StrLt, Matches(full), u) && j < m && j < |u|
    ensures u[j] in Union(columns)
  {
    assert u[j] in Elems(u);
    var i, x :| 0 <= i < |full| && x in full[i] && x == u[j];
    var c := SortedStrings(full[i]);
    assert x in Elems(c);
    var t :| 0 <= t < |c| && c[t] == x;
    assert Elems(c) <= Elems(u);
    RankGrows(c, u, t, j);
    assert columns[i][t] == x;
  }

  // ---------- following the cursor ----------

  /** All values a client gets from page `pageNum` on by following the next cursor. */
  function Followed(u: seq<string>, limit: int, pageNum: nat, offset: nat): seq<string>
    requires pageNum >= 1 && offset == (pageNum - 1) * EffectiveLimit(limit)
    decreases |u| - offset
  {
    var page := PageOf(u, limit, pageNum);
    if page.next.PageNo? then
      NextOffset(pageNum, EffectiveLimit(limit));
      page.items + Followed(u, limit, SuggestPageNumber(page.next), offset + EffectiveLimit(limit))
    else page.items
  }

  lemma NextOffset(pageNum: nat, l: nat)
    requires pageNum >= 1
    ensures (pageNum - 1) * l + l == pageNum * l
  {
  }

  lemma PageAt(u: seq<string>, limit: int, pageNum: nat, offset: nat)
    requires pageNum >= 1 && offset == (pageNum - 1) * EffectiveLimit(limit)
    ensures var page, l := PageOf(u, limit, pageNum), EffectiveLimit(limit);
            if offset + l < |u| then page.items == u[offset..offset + l] && page.next == PageNo(pageNum + 1)
            else page.next == NoCursor && page.items == if offset >= |u| then [] else u[offset..]
  {
  }

  /** Concatenated pages are the list: no value twice, none missing. */
  lemma {:induction false} FollowedIsAll(u: seq<string>, limit: int, pageNum: nat, offset: nat)
    requires pageNum >= 1 && offset == (pageNum - 1) * EffectiveLimit(limit)
    ensures Followed(u, limit, pageNum, offset) == if offset >= |u| then [] else u[offset..]
    decreases |u| - offset
  {
    hide PageOf;
    hide EffectiveLimit;
    var l := EffectiveLimit(limit);
    PageAt(u, limit, pageNum, offset);
    NextOffset(pageNum, l);
    if offset + l < |u| {
      FollowedIsAll(u, limit, pageNum + 1, offset + l);
      assert u[offset..] == u[offset..offset + l] + u[offset + l..];
    }
  }

  /** The columns as a page's queries return them: each its first offset + limit + 1 sorted matches. */
  ghost function Capped(full: seq<set<string>>, m: nat): (columns: seq<seq<string>>)
    ensures |columns| == |full| && forall i | 0 <= i < |full| :: columns[i] == Take(SortedStrings(full[i]), m)
  {
    seq(|full|, i requires 0 <= i < |full| => Take(SortedStrings(full[i]), m))
  }

  /** What the merge of a page's capped columns returns, by the contract of MergeDistinct. */
  ghost function CappedPage(full: seq<set<string>>, limit: int, pageNum: nat, offset: nat): Page
    requires pageNum >= 1 && offset == (pageNum - 1) * EffectiveLimit(limit)
  {
    PageOf(SortedStrings(Union(Capped(full, offset + EffectiveLimit(limit) + 1))), limit, pageNum)
  }

  lemma CappedPageIs(full: seq<set<string>>, limit: int, pageNum: nat, offset: nat)
    requires pageNum >= 1 && offset == (pageNum - 1) * EffectiveLimit(limit)
    ensures CappedPage(full, limit, pageNum, offset) == PageOf(SortedStrings(Matches(full)), limit, pageNum)
  {
    hide PageOf;
    hide EffectiveLimit;
    CappedColumnsSuffice(full, Capped(full, offset + EffectiveLimit(limit) + 1), limit, pageNum);
  }

  /** All values a client gets from page `pageNum` on, each page merged from columns capped for that page. */
  ghost function FollowedCapped(full: seq<set<string>>, limit: int, pageNum: nat, offset: nat): seq<string>
    requires pageNum >= 1 && offset == (pageNum - 1) * EffectiveLimit(limit)
    decreases |SortedStrings(Matches(full))| - offset
  {
    var page := CappedPage(full, limit, pageNum, offset);
    CappedPageIs(full, limit, pageNum, offset);
    NextOffset(pageNum, EffectiveLimit(limit));
    if page.next.PageNo? then
      page.items + FollowedCapped(full, limit, SuggestPageNumber(page.next), offset + EffectiveLimit(limit))
    else page.items
  }

  /** From the first page on, a client gets every distinct match of every column exactly once, in order. */
  lemma {:induction false} CappedPagesReadAll(full: seq<set<string>>, limit: int, pageNum: nat, offset: nat)
    requires pageNum >= 1 && offset == (pageNum - 1) * EffectiveLimit(limit)
    ensures var u := SortedStrings(Matches(full));
            FollowedCapped(full, limit, pageNum, offset) == if offset >= |u| then [] else u[offset..]
    decreases |SortedStrings(Matches(full))| - offset
  {
    hide PageOf;
    hide EffectiveLimit;
    hide CappedPage;
    var u, l := SortedStrings(Matches(full)), EffectiveLimit(limit);
    CappedPageIs(full, limit, pageNum, offset);
    PageAt(u, limit, pageNum, offset);
    NextOffset(pageNum, l);
    if offset + l < |u| {
      CappedPagesReadAll(full, limit, pageNum + 1, offset + l);
      assert u[offset..] == u[offset..offset + l] + u[offset + l..];
    }
  }
}
