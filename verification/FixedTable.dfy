/** Following NextCursor over a table that does not change. */
module FixedTable {
  import opened Arithmetic
  import opened Wrappers
  import opened Filters
  import opened Keyset
  import opened Tokens
  import opened Paging
  import opened Ordering
  import opened PagingChain

  /** A table a reader can page: in the default order as for chains; in any other order it only needs unique ids. */
  ghost predicate Pageable(db: Db, r: Reader, table: set<Row>) {
    if DefaultOrdering(r) then WellKept(db, r, table)
    else
      Ordered(db) && UniqueIds(table) && IdSortedPlainly(r.resolvers, r.sort)
  }

  lemma PageableIsTotal(db: Db, r: Reader, table: set<Row>)
    requires Pageable(db, r, table)
    ensures TotalOn(RowOrder(db, r), UserRows(db, r, table))
  {
    if DefaultOrdering(r) {
      DefaultOrderIsTotal(db, r, table);
    } else {
      KeysetColumnsTotal(db, r.resolvers, r.sort, r.tiebreaker, table);
      SubsetTotal(RowOrder(db, r), table, UserRows(db, r, table));
    }
  }

  /** The filtered, sorted table. */
  ghost function Sorted(db: Db, r: Reader, table: set<Row>): seq<Row>
    requires Pageable(db, r, table)
  {
    PageableIsTotal(db, r, table);
    Listing(RowOrder(db, r), UserRows(db, r, table))
  }

  /** The token is an offset page that starts at index `pos`. */
  ghost predicate OffsetAt(token: Token, limit: nat, pos: nat) {
    exists n: nat :: n >= 1 && DecodeToken(token) == Ok(PageToken(None, n)) && pos == (n - 1) * limit
  }

  /** The token continues the listing `q` at index `pos`. */
  ghost predicate ContinuesAt(db: Db, r: Reader, q: seq<Row>, limit: nat, token: Token, pos: nat) {
    || OffsetAt(token, limit, pos)
    || (DefaultOrdering(r) && 0 < pos <= |q| && StandsAt(db, r, token, q[pos - 1]))
  }

  /** What one request owes: the next `limit` rows, and a token exactly when rows remain. */
  ghost predicate StepOf(db: Db, r: Reader, q: seq<Row>, limit: nat, pos: nat, page: Page) {
    && page.items == Window(q, pos, limit)
    && (page.next == NoToken <==> |q| <= pos + limit)
    && (page.next != NoToken ==> ContinuesAt(db, r, q, limit, page.next, pos + limit))
  }

  /** The number of pages of a custom sort fits the int32 of its page numbers. */
  predicate PageNumbersFit(r: Reader, n: nat, limit: nat) {
    DefaultOrdering(r) || n <= limit * (TWO31 - 1)
  }

  lemma KeysetContinues(db: Db, r: Reader, table: set<Row>, runner: Runner, token: Token, pos: nat, size: int,
                        skip: bool)
    requires DefaultOrdering(r) && WellKept(db, r, table) && Serves(db, table, runner)
    requires 0 < pos <= |Sorted(db, r, table)| && StandsAt(db, r, token, Sorted(db, r, table)[pos - 1])
    ensures Run(runner, token, size, skip, r).Ok?
    ensures StepOf(db, r, Sorted(db, r, table), PageLimit(size, r.bounds), pos, Run(runner, token, size, skip, r).value)
  {
    hide Run;
    hide Serves;
    hide StandsAt;
    hide UserRows;
    hide WellKept;
    hide ByColumns;
    hide TotalOn;
    var q, limit, lt := Sorted(db, r, table), PageLimit(size, r.bounds), RowOrder(db, r);
    var at := q[pos - 1];
    KeysetStep(db, r, table, runner, token, at, size, skip);
    PageableIsTotal(db, r, table);
    SuffixLists(lt, UserRows(db, r, table), q, pos - 1);
    var ahead := Ahead(db, r, table, at);
    assert ahead == set x | x in UserRows(db, r, table) && lt(q[pos - 1], x);
    ListingUnique(lt, ahead, Listing(lt, ahead), q[pos..]);
    assert Window(q[pos..], 0, limit) == Window(q, pos, limit);
    var page := Run(runner, token, size, skip, r).value;
    if page.next != NoToken {
      assert page.items[|page.items| - 1] == q[pos + limit - 1];
    }
  }

  lemma OffsetContinues(db: Db, r: Reader, table: set<Row>, runner: Runner, token: Token, n: nat, pos: nat, size: int,
                        skip: bool)
    requires Pageable(db, r, table) && Serves(db, table, runner)
    requires n >= 1 && DecodeToken(token) == Ok(PageToken(None, n)) && pos == (n - 1) * PageLimit(size, r.bounds)
    requires PageNumbersFit(r, |Sorted(db, r, table)|, PageLimit(size, r.bounds))
    ensures Run(runner, token, size, skip, r).Ok?
    ensures StepOf(db, r, Sorted(db, r, table), PageLimit(size, r.bounds), pos, Run(runner, token, size, skip, r).value)
  {
    if DefaultOrdering(r) {
      DefaultOffsetContinues(db, r, table, runner, token, n, pos, size, skip);
    } else {
      hide Serves;
      hide Pageable;
      hide StepOf;
      hide OffsetPage;
      CustomOffsetContinues(db, r, table, runner, n, pos, PageLimit(size, r.bounds), skip);
    }
  }

  lemma CustomOffsetContinues(db: Db, r: Reader, table: set<Row>, runner: Runner, n: nat, pos: nat, limit: nat,
                              skip: bool)
    requires Pageable(db, r, table) && Serves(db, table, runner) && !DefaultOrdering(r)
    requires n >= 1 && limit > 0 && pos == (n - 1) * limit && PageNumbersFit(r, |Sorted(db, r, table)|, limit)
    ensures OffsetPage(runner, n, limit, skip, r).Ok?
    ensures StepOf(db, r, Sorted(db, r, table), limit, pos, OffsetPage(runner, n, limit, skip, r).value)
  {
    hide Serves;
    hide StandsAt;
    hide Pageable;
    hide BoundedTotal;
    hide KeysetColumns;
    hide UserFilter;
    hide ByColumns;
    hide TotalOn;
    var q := Sorted(db, r, table);
    PageableIsTotal(db, r, table);
    OffsetRows(db, r, table, runner, pos, limit);
    TrimWindow(q, pos, limit);
    assert (n - 1) * limit + limit == n * limit;
    if |q| > pos + limit {
      FitsNextPage(n, limit, |q|);
      NextOffsetToken(n, limit, pos);
    }
  }

  lemma NextOffsetToken(n: nat, limit: nat, pos: nat)
    requires n >= 1 && n + 1 < TWO31 && pos == (n - 1) * limit
    ensures OffsetAt(EncodeToken(PageToken(None, Int32(n + 1))), limit, pos + limit)
  {
    assert (n - 1) * limit + limit == n * limit;
    assert DecodeToken(EncodeToken(PageToken(None, Int32(n + 1)))) == Ok(PageToken(None, n + 1));
  }

  lemma FitsNextPage(n: nat, limit: nat, total: nat)
    requires n * limit < total <= limit * (TWO31 - 1)
    ensures n + 1 < TWO31
  {
    assert n < TWO31 - 1;
  }

  lemma DefaultOffsetContinues(db: Db, r: Reader, table: set<Row>, runner: Runner, token: Token, n: nat, pos: nat,
                               size: int, skip: bool)
    requires DefaultOrdering(r) && WellKept(db, r, table) && Serves(db, table, runner)
    requires n >= 1 && DecodeToken(token) == Ok(PageToken(None, n)) && pos == (n - 1) * PageLimit(size, r.bounds)
    ensures Run(runner, token, size, skip, r).Ok?
    ensures StepOf(db, r, Sorted(db, r, table), PageLimit(size, r.bounds), pos, Run(runner, token, size, skip, r).value)
  {
    hide Run;
    hide Serves;
    hide StandsAt;
    hide UserRows;
    var q, limit := Sorted(db, r, table), PageLimit(size, r.bounds);
    OffsetStep(db, r, table, runner, token, n, pos, size, skip);
    var page := Run(runner, token, size, skip, r).value;
    assert Window(From(q, pos), 0, limit) == Window(q, pos, limit);
    if page.next != NoToken {
      assert page.items[|page.items| - 1] == q[pos + limit - 1];
    }
  }

  /** Either arm serves the next window of the listing. */
  lemma StepAt(db: Db, r: Reader, table: set<Row>, runner: Runner, token: Token, pos: nat, size: int, skip: bool)
    requires Pageable(db, r, table) && Serves(db, table, runner)
    requires PageNumbersFit(r, |Sorted(db, r, table)|, PageLimit(size, r.bounds))
    requires ContinuesAt(db, r, Sorted(db, r, table), PageLimit(size, r.bounds), token, pos)
    ensures Run(runner, token, size, skip, r).Ok?
    ensures StepOf(db, r, Sorted(db, r, table), PageLimit(size, r.bounds), pos, Run(runner, token, size, skip, r).value)
  {
    hide Run;
    hide Serves;
    hide StepOf;
    hide StandsAt;
    if OffsetAt(token, PageLimit(size, r.bounds), pos) {
      var n: nat :| n >= 1 && DecodeToken(token) == Ok(PageToken(None, n))
                    && pos == (n - 1) * PageLimit(size, r.bounds);
      OffsetContinues(db, r, table, runner, token, n, pos, size, skip);
    } else {
      KeysetContinues(db, r, table, runner, token, pos, size, skip);
    }
  }

  // ---------- following the cursor ----------

  /** The pages a client gets by following NextCursor until it is empty, giving up after `most` pages. */
  function Collect(runner: Runner, token: Token, size: int, skip: bool, r: Reader, most: nat): Result<seq<Page>, Error>
    decreases most
  {
    if most == 0 then Err(Internal("gave up"))
    else
      var page :- Run(runner, token, size, skip, r);
      if page.next == NoToken then Ok([page])
      else
        var rest :- Collect(runner, page.next, size, skip, r, most - 1);
        Ok([page] + rest)
  }

  /** The items of a first page and of the pages after it. */
  lemma {:induction false} FirstPageFirst(page: Page, rest: seq<Page>)
    ensures AllItems([page] + rest) == page.items + AllItems(rest)
  {
    var all := [page] + rest;
    if rest == [] {
      assert all[..0] == [];
    } else {
      FirstPageFirst(page, rest[..|rest| - 1]);
      assert all[..|all| - 1] == [page] + rest[..|rest| - 1];
    }
  }

  /** How many pages `rows` rows take: at least one, even when there is nothing to show. */
  function PageCount(rows: nat, limit: nat): (n: nat)
    requires limit > 0
    ensures n == if rows == 0 then 1 else (rows + limit - 1) / limit
  {
    if rows <= limit then
      assert 0 < rows ==> (rows + limit - 1) / limit == 1 by {
        if 0 < rows { OneUnit(1, rows + limit - 1, limit); }
      }
      1
    else
      var fewer := PageCount(rows - limit, limit);
      DivShift(rows - 1, limit);
      1 + fewer
  }

  lemma {:induction false} CollectFrom(db: Db, r: Reader, table: set<Row>, runner: Runner, token: Token, pos: nat,
                                       size: int, skip: bool, most: nat)
    requires Pageable(db, r, table) && Serves(db, table, runner)
    requires PageNumbersFit(r, |Sorted(db, r, table)|, PageLimit(size, r.bounds))
    requires ContinuesAt(db, r, Sorted(db, r, table), PageLimit(size, r.bounds), token, pos)
    requires most >= PageCount(|From(Sorted(db, r, table), pos)|, PageLimit(size, r.bounds))
    ensures Collect(runner, token, size, skip, r, most).Ok?
    ensures var pages := Collect(runner, token, size, skip, r, most).value;
            && |pages| == PageCount(|From(Sorted(db, r, table), pos)|, PageLimit(size, r.bounds))
            && AllItems(pages) == From(Sorted(db, r, table), pos)
    decreases most
  {
    hide Run;
    hide Serves;
    hide ContinuesAt;
    hide Pageable;
    hide PageNumbersFit;
    var q, limit := Sorted(db, r, table), PageLimit(size, r.bounds);
    StepAt(db, r, table, runner, token, pos, size, skip);
    var page := Run(runner, token, size, skip, r).value;
    if page.next == NoToken {
      assert Collect(runner, token, size, skip, r, most) == Ok([page]);
      FirstPageFirst(page, []);
      assert [page] + [] == [page];
    } else {
      CollectFrom(db, r, table, runner, page.next, pos + limit, size, skip, most - 1);
      var rest := Collect(runner, page.next, size, skip, r, most - 1).value;
      FirstPageFirst(page, rest);
      assert page.items + From(q, pos + limit) == From(q, pos);
    }
  }

  /** From the empty token, or from offset page `n`, following NextCursor ends after max(1, ceil(rows / limit)) pages
      whose concatenation is exactly the filtered, sorted table from index (n - 1) * limit on. */
  lemma FollowingCursorsReadsTheTable(db: Db, r: Reader, table: set<Row>, runner: Runner, token: Token, n: nat,
                                      from: nat, size: int, skip: bool, most: nat)
    requires Pageable(db, r, table) && Serves(db, table, runner)
    requires n >= 1 && (token == EncodeToken(PageToken(None, n)) || (token == NoToken && n == 1))
    requires from == (n - 1) * PageLimit(size, r.bounds)
    requires PageNumbersFit(r, |Sorted(db, r, table)|, PageLimit(size, r.bounds))
    requires most >= PageCount(|From(Sorted(db, r, table), from)|, PageLimit(size, r.bounds))
    ensures Collect(runner, token, size, skip, r, most).Ok?
    ensures var pages := Collect(runner, token, size, skip, r, most).value;
            && |pages| == PageCount(|From(Sorted(db, r, table), from)|, PageLimit(size, r.bounds))
            && AllItems(pages) == From(Sorted(db, r, table), from)
  {
    hide Run;
    hide Serves;
    hide Pageable;
    hide Collect;
    hide AllItems;
    var limit := PageLimit(size, r.bounds);
    assert DecodeToken(token) == Ok(PageToken(None, n));
    assert OffsetAt(token, limit, from);
    CollectFrom(db, r, table, runner, token, from, size, skip, most);
  }

  /** The bounded total is exact up to the cap and flagged beyond it. */
  lemma BoundedTotalIsExact(db: Db, r: Reader, table: set<Row>, runner: Runner, filters: seq<Filter>)
    requires Serves(db, table, runner)
    ensures var (total, estimate), n, cap :=
              BoundedTotal(runner, filters, r.bounds.CountCap()), |Matching(db, table, filters)|, r.bounds.CountCap();
            estimate == (n > cap) && total == if n > cap then cap else n
  {
  }
}
