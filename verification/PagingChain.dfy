/** Whole chains of page requests: nothing twice, nothing skipped. */
module PagingChain {
  import opened Wrappers
  import opened Filters
  import opened Keyset
  import opened Tokens
  import opened Paging
  import opened Ordering

  ghost function UserRows(db: Db, r: Reader, table: set<Row>): set<Row> {
    Matching(db, table, NonEmpty(UserFilter(r)))
  }

  function RowOrder(db: Db, r: Reader): (Row, Row) -> bool {
    ByColumns(db, OrderOf(r))
  }

  /** What the source demands of a table read in the default order: unique ids, and keyset values that are NOT NULL
      and that a cursor carries without loss. */
  ghost predicate WellKept(db: Db, r: Reader, table: set<Row>) {
    && Ordered(db) && DefaultOrdering(r) && UniqueIds(table)
    && forall row | row in table :: Carries(r.keyset.value, OrderOf(r), row)
  }

  lemma DefaultOrderIsPlain(r: Reader)
    requires r.sort == []
    ensures forall i | 0 <= i < |OrderOf(r)| :: OrderOf(r)[i].Base? && OrderOf(r)[i].column != ""
    ensures exists i :: 0 <= i < |OrderOf(r)| && IsPlainId(OrderOf(r)[i])
  {
    DefaultColumns(r.resolvers, r.tiebreaker);
    var cols := OrderOf(r);
    assert IsPlainId(cols[|cols| - 1]);
  }

  lemma DefaultOrderIsTotal(db: Db, r: Reader, table: set<Row>)
    requires WellKept(db, r, table)
    ensures TotalOn(RowOrder(db, r), table) && TotalOn(RowOrder(db, r), UserRows(db, r, table))
  {
    DefaultOrderIsPlain(r);
    OrderIsTotal(db, OrderOf(r), table);
    SubsetTotal(RowOrder(db, r), table, UserRows(db, r, table));
  }

  /** The token is a keyset cursor for this reader that stands at the row `at`. */
  ghost predicate StandsAt(db: Db, r: Reader, token: Token, at: Row)
    requires r.keyset.Some?
  {
    && token.Encoded? && DecodeToken(token).Ok? && DecodeToken(token).value.keyset.Some?
    && var cur := DecodeToken(token).value.keyset.value;
    && cur.fingerprint == r.fingerprint(r.sort, r.filter)
    && CursorValues(r.keyset.value, OrderOf(r), cur.sortValues, cur.id) == Ok(RowKeys(db, OrderOf(r), at))
  }

  lemma MintStandsAt(db: Db, r: Reader, row: Row)
    requires DefaultOrdering(r) && Carries(r.keyset.value, OrderOf(r), row)
    ensures var m := MintKeysetCursor(r.keyset.value, OrderOf(r), row, r.fingerprint(r.sort, r.filter));
            m.Ok? && StandsAt(db, r, m.value, row)
  {
    DefaultOrderIsPlain(r);
    CursorRoundTrip(db, r.keyset.value, OrderOf(r), row, r.fingerprint(r.sort, r.filter));
  }

  lemma TrimWindow(q: seq<Row>, offset: nat, limit: nat)
    ensures Trim(Window(q, offset, limit + 1), limit) == Window(q, offset, limit)
    ensures |Window(q, offset, limit + 1)| > limit <==> offset + limit < |q|
  {
  }

  /** `page` is the first `limit` rows of `rest`, with a next token exactly when more rows follow, standing at the last
      row of the page. */
  ghost predicate PageOf(db: Db, r: Reader, rest: seq<Row>, limit: nat, page: Page)
    requires r.keyset.Some?
  {
    && page.items == Window(rest, 0, limit)
    && (page.next == NoToken <==> |rest| <= limit)
    && (page.next != NoToken ==> page.items != [] && StandsAt(db, r, page.next, page.items[|page.items| - 1]))
  }

  /** The rows of a table that a cursor at `at` still has ahead of it. */
  ghost function Ahead(db: Db, r: Reader, table: set<Row>, at: Row): set<Row> {
    set x | x in UserRows(db, r, table) && RowOrder(db, r)(at, x)
  }

  lemma SeekRows(db: Db, r: Reader, table: set<Row>, at: Row)
    requires WellKept(db, r, table)
    ensures Matching(db, table, NonEmpty(UserFilter(r)) + [SeekFilter(OrderOf(r), RowKeys(db, OrderOf(r), at))])
            == Ahead(db, r, table, at)
  {
    var cols, user := OrderOf(r), NonEmpty(UserFilter(r));
    var values := RowKeys(db, cols, at);
    var fs := user + [SeekFilter(cols, values)];
    var sem := RowSemantics(db);
    DefaultOrderIsPlain(r);
    forall x | x in table
      ensures (forall i | 0 <= i < |fs| :: Holds(sem, fs[i], x))
              <==> (forall i | 0 <= i < |user| :: Holds(sem, user[i], x)) && Before(db, cols, at, x)
    {
      assert Carries(r.keyset.value, cols, x);
      assert Seekable(cols, x);
      SeekIsStrictlyAfter(db, cols, values, x);
      AfterRowIsBefore(db, cols, at, x);
      assert fs[|user|] == SeekFilter(cols, values);
      assert forall i | 0 <= i < |user| :: fs[i] == user[i];
    }
  }

  lemma AheadIsTotal(db: Db, r: Reader, table: set<Row>, at: Row)
    requires WellKept(db, r, table)
    ensures TotalOn(RowOrder(db, r), Ahead(db, r, table, at))
  {
    DefaultOrderIsTotal(db, r, table);
    SubsetTotal(RowOrder(db, r), table, Ahead(db, r, table, at));
  }

  lemma MintLast(db: Db, r: Reader, table: set<Row>, rows: set<Row>, rest: seq<Row>, limit: nat)
    requires WellKept(db, r, table) && rows <= table && Elems(rest) == rows && |rest| > limit > 0
    ensures var m := MintKeysetCursor(r.keyset.value, OrderOf(r), rest[limit - 1], r.fingerprint(r.sort, r.filter));
            m.Ok? && StandsAt(db, r, m.value, rest[limit - 1])
  {
    assert rest[limit - 1] in Elems(rest);
    MintStandsAt(db, r, rest[limit - 1]);
  }

  /** A keyset request returns the first rows ahead of its cursor. */
  lemma KeysetStep(db: Db, r: Reader, table: set<Row>, runner: Runner, token: Token, at: Row, size: int, skip: bool)
    requires WellKept(db, r, table) && Serves(db, table, runner) && StandsAt(db, r, token, at)
    ensures TotalOn(RowOrder(db, r), Ahead(db, r, table, at))
    ensures Run(runner, token, size, skip, r).Ok?
    ensures PageOf(db, r, Listing(RowOrder(db, r), Ahead(db, r, table, at)), PageLimit(size, r.bounds),
                   Run(runner, token, size, skip, r).value)
  {
    hide Serves;
    hide WellKept;
    hide TotalOn;
    hide SeekFilter;
    hide KeysetColumns;
    hide CursorValues;
    hide MintKeysetCursor;
    hide UserFilter;
    hide NonEmpty;
    hide Ahead;
    WellKeptDefault(db, r, table);
    AheadIsTotal(db, r, table, at);
    SeekAnswer(db, r, table, runner, at, PageLimit(size, r.bounds));
    var limit := PageLimit(size, r.bounds);
    var rest := Listing(RowOrder(db, r), Ahead(db, r, table, at));
    TrimWindow(rest, 0, limit);
    if |rest| > limit {
      AheadInTable(db, r, table, at);
      MintLast(db, r, table, Ahead(db, r, table, at), rest, limit);
    }
  }

  lemma WellKeptDefault(db: Db, r: Reader, table: set<Row>)
    requires WellKept(db, r, table)
    ensures DefaultOrdering(r) && Ordered(db)
  {
  }

  lemma AheadInTable(db: Db, r: Reader, table: set<Row>, at: Row)
    ensures Ahead(db, r, table, at) <= table
  {
  }

  /** What the runner answers on the keyset arm. */
  lemma SeekAnswer(db: Db, r: Reader, table: set<Row>, runner: Runner, at: Row, limit: nat)
    requires WellKept(db, r, table) && Serves(db, table, runner) && TotalOn(RowOrder(db, r), Ahead(db, r, table, at))
    ensures runner.list(ListSpec(NonEmpty(UserFilter(r)) + [SeekFilter(OrderOf(r), RowKeys(db, OrderOf(r), at))],
                                 OrderOf(r), limit + 1, 0))
            == Window(Listing(RowOrder(db, r), Ahead(db, r, table, at)), 0, limit + 1)
  {
    hide WellKept;
    hide TotalOn;
    hide SeekFilter;
    hide KeysetColumns;
    hide Matching;
    hide Ahead;
    SeekRows(db, r, table, at);
    var spec := ListSpec(NonEmpty(UserFilter(r)) + [SeekFilter(OrderOf(r), RowKeys(db, OrderOf(r), at))],
                         OrderOf(r), limit + 1, 0);
    assert TotalOn(ByColumns(db, spec.order), Matching(db, table, spec.filters));
  }

  /** What the runner answers on the offset arm. */
  lemma OffsetRows(db: Db, r: Reader, table: set<Row>, runner: Runner, from: nat, limit: nat)
    requires Serves(db, table, runner) && TotalOn(RowOrder(db, r), UserRows(db, r, table))
    ensures runner.list(ListSpec(NonEmpty(UserFilter(r)), OrderOf(r), limit + 1, from))
            == Window(Listing(RowOrder(db, r), UserRows(db, r, table)), from, limit + 1)
  {
    var spec := ListSpec(NonEmpty(UserFilter(r)), OrderOf(r), limit + 1, from);
    assert TotalOn(ByColumns(db, spec.order), Matching(db, table, spec.filters));
  }

  /** What is left of a listing from an offset on. */
  function From(q: seq<Row>, offset: nat): seq<Row> {
    if offset >= |q| then [] else q[offset..]
  }

  /** An offset request in the default order returns its window, and bridges to the keyset arm. */
  lemma OffsetStep(db: Db, r: Reader, table: set<Row>, runner: Runner, token: Token, n: nat, from: nat, size: int,
                   skip: bool)
    requires WellKept(db, r, table) && Serves(db, table, runner)
    requires n >= 1 && DecodeToken(token) == Ok(PageToken(None, n)) && from == (n - 1) * PageLimit(size, r.bounds)
    ensures TotalOn(RowOrder(db, r), UserRows(db, r, table))
    ensures Run(runner, token, size, skip, r).Ok?
    ensures PageOf(db, r, From(Listing(RowOrder(db, r), UserRows(db, r, table)), from), PageLimit(size, r.bounds),
                   Run(runner, token, size, skip, r).value)
  {
    hide PageOf;
    hide Serves;
    DefaultOrderIsTotal(db, r, table);
    OffsetArm(db, r, table, runner, n, from, PageLimit(size, r.bounds), skip);
  }

  lemma OffsetArm(db: Db, r: Reader, table: set<Row>, runner: Runner, n: nat, from: nat, limit: nat, skip: bool)
    requires WellKept(db, r, table) && Serves(db, table, runner)
    requires TotalOn(RowOrder(db, r), UserRows(db, r, table))
    requires n >= 1 && limit > 0 && from == (n - 1) * limit
    ensures OffsetPage(runner, n, limit, skip, r).Ok?
    ensures PageOf(db, r, From(Listing(RowOrder(db, r), UserRows(db, r, table)), from), limit,
                   OffsetPage(runner, n, limit, skip, r).value)
  {
    hide Serves;
    hide WellKept;
    hide TotalOn;
    hide KeysetColumns;
    hide MintKeysetCursor;
    hide UserFilter;
    hide NonEmpty;
    hide BoundedTotal;
    hide StandsAt;
    hide ByColumns;
    WellKeptDefault(db, r, table);
    var all := Listing(RowOrder(db, r), UserRows(db, r, table));
    var rest := From(all, from);
    OffsetRows(db, r, table, runner, from, limit);
    assert Window(all, from, limit + 1) == Window(rest, 0, limit + 1);
    TrimWindow(rest, 0, limit);
    if |rest| > limit {
      assert forall x | x in rest :: x in Elems(all);
      MintLast(db, r, table, Elems(rest), rest, limit);
    }
  }

  // ---------- a chain over a changing table ----------

  /** One request of a chain: the table as it stands at that moment, its runner, and the page size asked for. */
  datatype Request = Request(table: set<Row>, runner: Runner, size: int, skipCount: bool)

  function CursorAt(pages: seq<Page>, k: nat): Token
    requires k <= |pages|
  {
    if k == 0 then NoToken else pages[k - 1].next
  }

  /** One request, its token, and the page it got. */
  ghost predicate Answers(db: Db, r: Reader, req: Request, cursor: Token, page: Page) {
    && WellKept(db, r, req.table) && Serves(db, req.table, req.runner)
    && Run(req.runner, cursor, req.size, req.skipCount, r) == Ok(page)
  }

  /** `pages` answer `reqs` one after the other, each request carrying the token of the page before it. */
  ghost predicate Chain(db: Db, r: Reader, reqs: seq<Request>, pages: seq<Page>) {
    && |reqs| == |pages|
    && (forall k | 0 <= k < |reqs| :: Answers(db, r, reqs[k], CursorAt(pages, k), pages[k]))
    && (forall k | 0 < k < |reqs| :: CursorAt(pages, k) != NoToken)
  }

  function AllItems(pages: seq<Page>): seq<Row> {
    if pages == [] then [] else AllItems(pages[..|pages| - 1]) + pages[|pages| - 1].items
  }

  ghost predicate SameKeys(db: Db, r: Reader, a: Row, b: Row) {
    RowKeys(db, OrderOf(r), a) == RowKeys(db, OrderOf(r), b)
  }

  /** A row is there, with these keyset values and matching the filter, in every table of the chain. Its other columns
      may change from request to request. */
  ghost predicate PresentThroughout(db: Db, r: Reader, reqs: seq<Request>, a: Row) {
    forall k | 0 <= k < |reqs| :: PresentIn(db, r, reqs[k], a)
  }

  ghost predicate PresentIn(db: Db, r: Reader, req: Request, a: Row) {
    exists b :: b in UserRows(db, r, req.table) && SameKeys(db, r, b, a)
  }

  ghost predicate Delivered(db: Db, r: Reader, items: seq<Row>, a: Row) {
    exists i :: 0 <= i < |items| && SameKeys(db, r, items[i], a)
  }

  lemma {:induction false} BeforeByKeys(db: Db, cols: seq<KeysetColumn>, a: Row, b: Row, c: Row)
    requires RowKeys(db, cols, a) == RowKeys(db, cols, b)
    ensures Before(db, cols, c, a) == Before(db, cols, c, b)
  {
    if cols != [] {
      assert RowKeys(db, cols, a)[0] == SortKey(db, a, cols[0]);
      assert RowKeys(db, cols, a)[1..] == RowKeys(db, cols[1..], a);
      assert RowKeys(db, cols, b)[1..] == RowKeys(db, cols[1..], b);
      BeforeByKeys(db, cols[1..], a, b, c);
    }
  }

  /** What the pages so far guarantee about the rows they stopped before. */
  ghost predicate Progress(db: Db, r: Reader, reqs: seq<Request>, items: seq<Row>, next: Token)
    requires r.keyset.Some?
  {
    && Ascending(RowOrder(db, r), items)
    && (next != NoToken ==> items != [] && StandsAt(db, r, next, items[|items| - 1]))
    && (forall a | PresentThroughout(db, r, reqs, a) &&
                   (next == NoToken || !Before(db, OrderOf(r), items[|items| - 1], a)) ::
          Delivered(db, r, items, a))
  }

  lemma FirstAnswer(db: Db, r: Reader, req: Request, page: Page)
    requires Answers(db, r, req, NoToken, page)
    ensures DefaultOrdering(r) && TotalOn(RowOrder(db, r), UserRows(db, r, req.table))
    ensures PageOf(db, r, Listing(RowOrder(db, r), UserRows(db, r, req.table)), PageLimit(req.size, r.bounds), page)
  {
    hide PageOf;
    hide Run;
    hide Serves;
    hide UserRows;
    OffsetStep(db, r, req.table, req.runner, NoToken, 1, 0, req.size, req.skipCount);
    var all := Listing(RowOrder(db, r), UserRows(db, r, req.table));
    assert From(all, 0) == all;
  }

  lemma NextAnswer(db: Db, r: Reader, req: Request, token: Token, at: Row, page: Page)
    requires Answers(db, r, req, token, page) && StandsAt(db, r, token, at)
    ensures TotalOn(RowOrder(db, r), Ahead(db, r, req.table, at))
    ensures PageOf(db, r, Listing(RowOrder(db, r), Ahead(db, r, req.table, at)), PageLimit(req.size, r.bounds), page)
  {
    hide PageOf;
    hide Run;
    KeysetStep(db, r, req.table, req.runner, token, at, req.size, req.skipCount);
  }

  lemma FirstRequest(db: Db, r: Reader, req: Request, page: Page)
    requires DefaultOrdering(r) && TotalOn(RowOrder(db, r), UserRows(db, r, req.table))
    requires PageOf(db, r, Listing(RowOrder(db, r), UserRows(db, r, req.table)), PageLimit(req.size, r.bounds), page)
    ensures Progress(db, r, [req], page.items, page.next)
  {
    hide StandsAt;
    hide UserRows;
    var all := Listing(RowOrder(db, r), UserRows(db, r, req.table));
    forall a | PresentThroughout(db, r, [req], a) &&
               (page.next == NoToken || !Before(db, OrderOf(r), page.items[|page.items| - 1], a))
      ensures Delivered(db, r, page.items, a)
    {
      assert PresentIn(db, r, [req][0], a);
      var b :| b in UserRows(db, r, req.table) && SameKeys(db, r, b, a);
      CutCovers(db, r, UserRows(db, r, req.table), all, PageLimit(req.size, r.bounds), a, b);
    }
  }

  /** A row not after the last row of a page's window is inside the window. */
  lemma CutCovers(db: Db, r: Reader, rows: set<Row>, all: seq<Row>, limit: nat, a: Row, b: Row)
    requires TotalOn(RowOrder(db, r), rows) && Lists(RowOrder(db, r), rows, all)
    requires b in rows && SameKeys(db, r, b, a) && limit > 0
    requires |all| <= limit || !Before(db, OrderOf(r), all[limit - 1], a)
    ensures Delivered(db, r, Window(all, 0, limit), a)
  {
    assert b in Elems(all);
    var j :| 0 <= j < |all| && all[j] == b;
    if |all| > limit {
      BeforeByKeys(db, OrderOf(r), b, a, all[limit - 1]);
    }
    assert Window(all, 0, limit)[j] == b;
  }

  lemma StillAscending(db: Db, r: Reader, table: set<Row>, items: seq<Row>, more: seq<Row>)
    requires Ordered(db) && items != []
    requires Ascending(RowOrder(db, r), items) && Ascending(RowOrder(db, r), more)
    requires forall x | x in more :: Before(db, OrderOf(r), items[|items| - 1], x)
    ensures Ascending(RowOrder(db, r), items + more)
  {
    var at, cols, all := items[|items| - 1], OrderOf(r), items + more;
    forall i, j | 0 <= i < j < |all| ensures RowOrder(db, r)(all[i], all[j]) {
      if i < |items| <= j {
        assert all[j] == more[j - |items|] && more[j - |items|] in more;
        if i < |items| - 1 {
          assert RowOrder(db, r)(items[i], at);
          BeforeTransitive(db, cols, all[i], at, all[j]);
        }
      }
    }
  }

  lemma PresentEarlier(db: Db, r: Reader, reqs: seq<Request>, req: Request, a: Row)
    requires PresentThroughout(db, r, reqs + [req], a)
    ensures PresentThroughout(db, r, reqs, a)
  {
    hide PresentIn;
    var both := reqs + [req];
    forall k | 0 <= k < |reqs| ensures PresentIn(db, r, reqs[k], a) {
      assert both[k] == reqs[k];
    }
  }

  lemma StillCovered(db: Db, r: Reader, reqs: seq<Request>, items: seq<Row>, token: Token, req: Request, page: Page,
                     a: Row)
    requires DefaultOrdering(r) && token != NoToken && Progress(db, r, reqs, items, token)
    requires var at := items[|items| - 1];
             && TotalOn(RowOrder(db, r), Ahead(db, r, req.table, at))
             && PageOf(db, r, Listing(RowOrder(db, r), Ahead(db, r, req.table, at)), PageLimit(req.size, r.bounds),
                       page)
    requires PresentThroughout(db, r, reqs + [req], a)
    requires page.next == NoToken || !Before(db, OrderOf(r), page.items[|page.items| - 1], a)
    ensures Delivered(db, r, items + page.items, a)
  {
    hide StandsAt;
    hide UserRows;
    hide RowKeys;
    hide Listing;
    hide Before;
    var at, all := items[|items| - 1], items + page.items;
    if Before(db, OrderOf(r), at, a) {
      assert PresentIn(db, r, (reqs + [req])[|reqs|], a);
      var b :| b in UserRows(db, r, req.table) && SameKeys(db, r, b, a);
      BeforeByKeys(db, OrderOf(r), b, a, at);
      var rest := Listing(RowOrder(db, r), Ahead(db, r, req.table, at));
      CutCovers(db, r, Ahead(db, r, req.table, at), rest, PageLimit(req.size, r.bounds), a, b);
      var i :| 0 <= i < |page.items| && SameKeys(db, r, page.items[i], a);
      assert all[|items| + i] == page.items[i];
    } else {
      PresentEarlier(db, r, reqs, req, a);
      var i :| 0 <= i < |items| && SameKeys(db, r, items[i], a);
      assert all[i] == items[i];
    }
  }

  lemma NextRequest(db: Db, r: Reader, reqs: seq<Request>, items: seq<Row>, token: Token, req: Request, page: Page)
    requires DefaultOrdering(r) && Ordered(db) && token != NoToken && Progress(db, r, reqs, items, token)
    requires var at := items[|items| - 1];
             && TotalOn(RowOrder(db, r), Ahead(db, r, req.table, at))
             && PageOf(db, r, Listing(RowOrder(db, r), Ahead(db, r, req.table, at)), PageLimit(req.size, r.bounds),
                       page)
    ensures Progress(db, r, reqs + [req], items + page.items, page.next)
  {
    hide StandsAt;
    hide UserRows;
    hide Before;
    hide PresentThroughout;
    hide Delivered;
    hide TotalOn;
    var at := items[|items| - 1];
    var rest := Listing(RowOrder(db, r), Ahead(db, r, req.table, at));
    assert forall x | x in page.items :: x in Elems(rest);
    StillAscending(db, r, req.table, items, page.items);
    forall a | PresentThroughout(db, r, reqs + [req], a) &&
               (page.next == NoToken || !Before(db, OrderOf(r), (items + page.items)[|items + page.items| - 1], a))
      ensures Delivered(db, r, items + page.items, a)
    {
      StillCovered(db, r, reqs, items, token, req, page, a);
    }
  }

  lemma ShorterChain(db: Db, r: Reader, reqs: seq<Request>, pages: seq<Page>)
    requires Chain(db, r, reqs, pages) && reqs != []
    ensures Chain(db, r, reqs[..|reqs| - 1], pages[..|pages| - 1])
  {
    hide Answers;
    forall k | 0 <= k < |reqs| - 1
      ensures CursorAt(pages[..|pages| - 1], k) == CursorAt(pages, k)
      ensures Answers(db, r, reqs[..|reqs| - 1][k], CursorAt(pages[..|pages| - 1], k), pages[..|pages| - 1][k])
    {
      assert Answers(db, r, reqs[k], CursorAt(pages, k), pages[k]);
    }
  }

  lemma ChainBegins(db: Db, r: Reader, req: Request, page: Page)
    requires Answers(db, r, req, NoToken, page)
    ensures DefaultOrdering(r) && Ordered(db) && Progress(db, r, [req], page.items, page.next)
  {
    hide Serves;
    hide Run;
    hide PageOf;
    hide Progress;
    hide WellKept;
    WellKeptDefault(db, r, req.table);
    FirstAnswer(db, r, req, page);
    FirstRequest(db, r, req, page);
  }

  lemma ChainGoesOn(db: Db, r: Reader, reqs: seq<Request>, items: seq<Row>, token: Token, req: Request, page: Page)
    requires DefaultOrdering(r) && token != NoToken && Progress(db, r, reqs, items, token)
             && Answers(db, r, req, token, page)
    ensures Progress(db, r, reqs + [req], items + page.items, page.next)
  {
    hide Serves;
    hide Run;
    hide PageOf;
    hide WellKept;
    hide StandsAt;
    hide Ascending;
    hide PresentThroughout;
    WellKeptDefault(db, r, req.table);
    NextAnswer(db, r, req, token, items[|items| - 1], page);
    NextRequest(db, r, reqs, items, token, req, page);
  }

  lemma LastOfChain(db: Db, r: Reader, reqs: seq<Request>, pages: seq<Page>)
    requires Chain(db, r, reqs, pages) && reqs != []
    ensures |pages| == |reqs| && AllItems(pages) == AllItems(pages[..|pages| - 1]) + pages[|pages| - 1].items
    ensures var n := |reqs| - 1;
            var token := if n == 0 then NoToken else pages[n - 1].next;
            Answers(db, r, reqs[n], token, pages[n]) && (n > 0 ==> token != NoToken)
  {
    hide Answers;
    assert Answers(db, r, reqs[|reqs| - 1], CursorAt(pages, |reqs| - 1), pages[|reqs| - 1]);
    assert |reqs| > 1 ==> CursorAt(pages, |reqs| - 1) != NoToken;
  }

  lemma {:induction false} ChainProgress(db: Db, r: Reader, reqs: seq<Request>, pages: seq<Page>)
    requires Chain(db, r, reqs, pages) && reqs != []
    ensures DefaultOrdering(r) && Ordered(db)
    ensures Progress(db, r, reqs, AllItems(pages), pages[|pages| - 1].next)
  {
    hide Answers;
    hide Progress;
    hide DefaultOrdering;
    hide Ordered;
    hide Chain;
    LastOfChain(db, r, reqs, pages);
    var n := |reqs| - 1;
    var last := reqs[n];
    if n == 0 {
      ChainBegins(db, r, last, pages[0]);
      assert AllItems(pages) == [] + pages[0].items == pages[0].items;
      assert reqs == [last];
    } else {
      hide AllItems;
      var before, seen := reqs[..n], pages[..n];
      ShorterChain(db, r, reqs, pages);
      ChainProgress(db, r, before, seen);
      ChainGoesOn(db, r, before, AllItems(seen), seen[n - 1].next, last, pages[n]);
      assert reqs == before + [last];
    }
  }

  /** No duplicate, no skip. Rows may be inserted and deleted between requests and page sizes may vary: a completed
      chain from the empty token in the default order delivers rows in strictly ascending order, and delivers every
      row that was there throughout exactly once. */
  lemma NoDupNoSkip(db: Db, r: Reader, reqs: seq<Request>, pages: seq<Page>, a: Row)
    requires Chain(db, r, reqs, pages) && reqs != [] && pages[|pages| - 1].next == NoToken
    ensures Ascending(RowOrder(db, r), AllItems(pages))
    ensures PresentThroughout(db, r, reqs, a) ==>
              exists i :: 0 <= i < |AllItems(pages)| && SameKeys(db, r, AllItems(pages)[i], a)
                && forall j | 0 <= j < |AllItems(pages)| && SameKeys(db, r, AllItems(pages)[j], a) :: j == i
  {
    hide Chain;
    hide RowKeys;
    hide PresentThroughout;
    ChainProgress(db, r, reqs, pages);
    if PresentThroughout(db, r, reqs, a) {
      var items := AllItems(pages);
      var i :| 0 <= i < |items| && SameKeys(db, r, items[i], a);
      forall j | 0 <= j < |items| && SameKeys(db, r, items[j], a) ensures j == i {
        EqualKeysNotOrdered(db, r, items, i, j);
      }
    }
  }

  lemma EqualKeysNotOrdered(db: Db, r: Reader, items: seq<Row>, i: nat, j: nat)
    requires Ascending(RowOrder(db, r), items) && i < |items| && j < |items| && SameKeys(db, r, items[i], items[j])
    ensures i == j
  {
    var cols := OrderOf(r);
    BeforeByKeys(db, cols, items[i], items[j], items[i]);
    BeforeByKeys(db, cols, items[j], items[i], items[j]);
    BeforeIrreflexive(db, cols, items[i]);
    BeforeIrreflexive(db, cols, items[j]);
  }

  /** Nothing is made up: every delivered row was a matching row of the table its page was read from. */
  lemma {:induction false} DeliveredRowsMatch(db: Db, r: Reader, reqs: seq<Request>, pages: seq<Page>, row: Row)
    requires Chain(db, r, reqs, pages) && row in AllItems(pages)
    ensures exists k :: 0 <= k < |reqs| && row in UserRows(db, r, reqs[k].table)
  {
    hide Answers;
    hide UserRows;
    var n := |reqs| - 1;
    var before, seen := reqs[..n], pages[..n];
    if row in AllItems(seen) {
      ShorterChain(db, r, reqs, pages);
      DeliveredRowsMatch(db, r, before, seen, row);
      var k :| 0 <= k < |before| && row in UserRows(db, r, before[k].table);
      assert reqs[k] == before[k];
    } else {
      PageRowsMatch(db, r, reqs, pages);
      assert row in Elems(pages[n].items);
    }
  }

  lemma PageRowsMatch(db: Db, r: Reader, reqs: seq<Request>, pages: seq<Page>)
    requires Chain(db, r, reqs, pages) && reqs != []
    ensures Elems(pages[|pages| - 1].items) <= UserRows(db, r, reqs[|reqs| - 1].table)
  {
    hide Serves;
    hide Run;
    hide StandsAt;
    hide Ascending;
    var n := |reqs| - 1;
    var last, page := reqs[n], pages[n];
    assert Answers(db, r, last, CursorAt(pages, n), page);
    if n == 0 {
      FirstAnswer(db, r, last, page);
      var all := Listing(RowOrder(db, r), UserRows(db, r, last.table));
      assert forall row | row in page.items :: row in Elems(all);
    } else {
      ShorterChain(db, r, reqs, pages);
      ChainProgress(db, r, reqs[..n], pages[..n]);
      var items := AllItems(pages[..n]);
      NextAnswer(db, r, last, pages[n - 1].next, items[|items| - 1], page);
      var rest := Listing(RowOrder(db, r), Ahead(db, r, last.table, items[|items| - 1]));
      assert forall row | row in page.items :: row in Elems(rest);
    }
  }
}
