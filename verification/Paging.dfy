/** One paginated read: the offset arm, the keyset arm, and the cursor that joins them. */
module Paging {
  import opened Arithmetic
  import opened Wrappers
  import opened Calendar
  import opened Filters
  import opened Keyset
  import opened Tokens
  import Ordering

  const DEFAULT_COUNT_CAP := 10000
  const MICROS := 1000 // nanoseconds in a microsecond

  /** 1970-01-01T00:00:00Z, from which a cursor counts. */
  const UNIX_EPOCH := 719_162 * DAY

  /** Whole microseconds from the Unix epoch, rounded down. */
  function UnixMicro(nanos: int): int { (nanos - UNIX_EPOCH) / MICROS }

  function TimeOfMicro(us: int): int { us * MICROS + UNIX_EPOCH }

  datatype Bounds = Bounds(defaultSize: int, maxSize: int, countCap: int) {
    function CountCap(): (cap: int)
      ensures cap > 0
    {
      if countCap > 0 then countCap else DEFAULT_COUNT_CAP
    }
  }

  /** A resource's keyset wiring: the row extractor, the id parser (None keeps the id a string), and which columns
      are timestamps. */
  datatype KeysetSpec = KeysetSpec(
    rowValue: (Row, string) -> Option<Value>,
    parseID: Option<string -> Option<Value>>,
    timestampCols: set<string>)

  datatype Reader = Reader(
    filter: Filter,
    resolvers: Resolvers,
    keyset: Option<KeysetSpec>,
    tiebreaker: string,
    sort: seq<OrderField>,
    bounds: Bounds,
    count: bool,
    fingerprint: (seq<OrderField>, Filter) -> string)

  datatype ListSpec = ListSpec(filters: seq<Filter>, order: seq<KeysetColumn>, limit: int, offset: int)

  /** The datastore seam, already scoped to the request. */
  datatype Runner = Runner(list: ListSpec -> seq<Row>, count: (seq<Filter>, int) -> int)

  datatype Page = Page(items: seq<Row>, next: Token, total: int, estimate: bool, pageSize: int, pageNumber: int)

  // ---------- cursors ----------

  datatype Minted = Minted(values: seq<Value>, id: Option<string>)

  /** One column's contribution to a cursor: a sort value, or the id. */
  function MintColumn(ks: KeysetSpec, c: KeysetColumn, row: Row): Result<Minted, Error> {
    match ks.rowValue(row, c.Column())
    case None => Err(Internal("keyset cursor cannot extract column " + c.Column()))
    case Some(v) =>
      if c.Column() == ID_COLUMN then
        if v.Text? then Ok(Minted([], Some(v.text))) else Err(Internal("keyset id column value is not a string"))
      else if c.Column() in ks.timestampCols then
        if v.Time? then Ok(Minted([Num(UnixMicro(v.nanos))], None))
        else Err(Internal("keyset timestamp column value is not a time.Time"))
      else Ok(Minted([v], None))
  }

  function Join(a: Minted, b: Minted): Minted {
    Minted(a.values + b.values, if b.id.Some? then b.id else a.id)
  }

  function MintValues(ks: KeysetSpec, cols: seq<KeysetColumn>, row: Row): Result<Minted, Error> {
    if cols == [] then Ok(Minted([], None))
    else
      var first :- MintColumn(ks, cols[0], row);
      JoinTo(first, MintValues(ks, cols[1..], row))
  }

  function JoinTo(a: Minted, r: Result<Minted, Error>): Result<Minted, Error> {
    match r
    case Ok(rest) => Ok(Join(a, rest))
    case Err(e) => Err(e)
  }

  lemma JoinToNothing(r: Result<Minted, Error>)
    ensures JoinTo(Minted([], None), r) == r
  {
    if r.Ok? {
      assert [] + r.value.values == r.value.values;
    }
  }

  lemma JoinToTwice(a: Minted, b: Minted, r: Result<Minted, Error>)
    ensures JoinTo(a, JoinTo(b, r)) == JoinTo(Join(a, b), r)
  {
    if r.Ok? {
      assert a.values + (b.values + r.value.values) == a.values + b.values + r.value.values;
    }
  }

  function CursorToken(m: Minted, fingerprint: string): Token {
    EncodeToken(PageToken(Some(KeysetCursor(m.values, if m.id.Some? then m.id.value else "", fingerprint)), 0))
  }

  function MintKeysetCursor(ks: KeysetSpec, cols: seq<KeysetColumn>, row: Row, fingerprint: string)
    : Result<Token, Error>
  {
    var m :- MintValues(ks, cols, row);
    Ok(CursorToken(m, fingerprint))
  }

  /** The minting loop. */
  method MintCursor(ks: KeysetSpec, cols: seq<KeysetColumn>, row: Row, fingerprint: string)
    returns (r: Result<Token, Error>)
    ensures r == MintKeysetCursor(ks, cols, row, fingerprint)
  {
    var values: seq<Value>, id: Option<string> := [], None;
    assert cols[0..] == cols;
    JoinToNothing(MintValues(ks, cols, row));
    for i := 0 to |cols|
      invariant MintValues(ks, cols, row) == JoinTo(Minted(values, id), MintValues(ks, cols[i..], row))
    {
      assert cols[i..][1..] == cols[i + 1..];
      var m := MintColumn(ks, cols[i], row);
      if m.Err? {
        return Err(m.error);
      }
      JoinToTwice(Minted(values, id), m.value, MintValues(ks, cols[i + 1..], row));
      values := values + m.value.values;
      if m.value.id.Some? {
        id := m.value.id;
      }
    }
    assert cols[|cols|..] == [] && values + [] == values;
    r := Ok(CursorToken(Minted(values, id), fingerprint));
  }

  function RestoreId(ks: KeysetSpec, id: string): Result<Value, Error> {
    match ks.parseID
    case None => Ok(Text(id))
    case Some(parse) =>
      match parse(id)
      case Some(v) => Ok(v)
      case None => Err(InvalidInput("keyset cursor id is malformed"))
  }

  function UnixMicroToTime(v: Value): Result<Value, Error> {
    if v.Num? then Ok(Time(TimeOfMicro(v.num))) else Err(InvalidInput("keyset timestamp cursor value is not numeric"))
  }

  /** What one column's value comes back as. */
  function RestoreColumn(ks: KeysetSpec, col: string, v: Value): Result<Value, Error> {
    if col in ks.timestampCols then UnixMicroToTime(v) else Ok(v)
  }

  /** Pairs the cursor's values with the columns and restores each to the type the seek binds. */
  function CursorValues(ks: KeysetSpec, cols: seq<KeysetColumn>, sortValues: seq<Value>, id: string)
    : (r: Result<seq<Value>, Error>)
    ensures r.Ok? ==> |r.value| == |cols|
  {
    if cols == [] then
      if sortValues == [] then Ok([]) else Err(InvalidInput("keyset cursor has too many sort values for the sort"))
    else if cols[0].Column() == ID_COLUMN then
      var v :- RestoreId(ks, id);
      Prepend([v], CursorValues(ks, cols[1..], sortValues, id))
    else if sortValues == [] then Err(InvalidInput("keyset cursor has too few sort values for the sort"))
    else
      var v :- RestoreColumn(ks, cols[0].Column(), sortValues[0]);
      Prepend([v], CursorValues(ks, cols[1..], sortValues[1..], id))
  }

  function Prepend(vs: seq<Value>, r: Result<seq<Value>, Error>): Result<seq<Value>, Error> {
    match r
    case Ok(rest) => Ok(vs + rest)
    case Err(e) => Err(e)
  }

  lemma PrependTwice(a: seq<Value>, b: seq<Value>, r: Result<seq<Value>, Error>)
    ensures Prepend(a, Prepend(b, r)) == Prepend(a + b, r)
    ensures Prepend([], r) == r
  {
    if r.Ok? {
      assert a + (b + r.value) == a + b + r.value;
      assert [] + r.value == r.value;
    }
  }

  lemma PrependEnds(a: seq<Value>, e: Error)
    ensures Prepend(a, Err(e)) == Err(e) && Prepend(a, Ok([])) == Ok(a)
  {
    assert a + [] == a;
  }

  /** The restoring loop, with its index into the sort values. */
  method RestoreCursor(ks: KeysetSpec, cols: seq<KeysetColumn>, cur: KeysetCursor)
    returns (r: Result<seq<Value>, Error>)
    ensures r == CursorValues(ks, cols, cur.sortValues, cur.id)
  {
    hide Prepend;
    hide UnixMicroToTime;
    hide RestoreId;
    var values: seq<Value> := [];
    var si := 0;
    assert cols[0..] == cols && cur.sortValues[0..] == cur.sortValues;
    PrependTwice([], [], CursorValues(ks, cols, cur.sortValues, cur.id));
    for i := 0 to |cols|
      invariant 0 <= si <= |cur.sortValues|
      invariant CursorValues(ks, cols, cur.sortValues, cur.id)
             == Prepend(values, CursorValues(ks, cols[i..], cur.sortValues[si..], cur.id))
    {
      var rest, left := cols[i..], cur.sortValues[si..];
      assert rest[0] == cols[i] && rest[1..] == cols[i + 1..];
      var c := cols[i];
      if c.Column() == ID_COLUMN {
        var v := RestoreId(ks, cur.id);
        if v.Err? {
          PrependEnds(values, v.error);
          return Err(v.error);
        }
        PrependTwice(values, [v.value], CursorValues(ks, cols[i + 1..], left, cur.id));
        values := values + [v.value];
      } else {
        if si >= |cur.sortValues| {
          PrependEnds(values, InvalidInput("keyset cursor has too few sort values for the sort"));
          return Err(InvalidInput("keyset cursor has too few sort values for the sort"));
        }
        assert left[0] == cur.sortValues[si] && left[1..] == cur.sortValues[si + 1..];
        var v := cur.sortValues[si];
        si := si + 1;
        if c.Column() in ks.timestampCols {
          var t := UnixMicroToTime(v);
          if t.Err? {
            PrependEnds(values, t.error);
            return Err(t.error);
          }
          v := t.value;
        }
        PrependTwice(values, [v], CursorValues(ks, cols[i + 1..], left[1..], cur.id));
        values := values + [v];
      }
    }
    assert cols[|cols|..] == [];
    PrependEnds(values, InvalidInput("keyset cursor has too many sort values for the sort"));
    if si != |cur.sortValues| {
      return Err(InvalidInput("keyset cursor has too many sort values for the sort"));
    }
    r := Ok(values);
  }

  // ---------- the read ----------

  function PageLimit(pageSize: int, b: Bounds): (limit: int)
    ensures limit > 0
    ensures b.maxSize > 0 ==> limit <= b.maxSize
    ensures 0 < pageSize && (b.maxSize <= 0 || pageSize <= b.maxSize) ==> limit == pageSize
  {
    var size := if pageSize > 0 then pageSize else if b.defaultSize > 0 then b.defaultSize else 10;
    if b.maxSize > 0 && size > b.maxSize then b.maxSize else size
  }

  predicate DefaultOrdering(r: Reader) {
    r.keyset.Some? && r.sort == []
  }

  function OrderOf(r: Reader): seq<KeysetColumn> {
    KeysetColumns(r.resolvers, r.sort, r.tiebreaker)
  }

  function UserFilter(r: Reader): Filter {
    ResolveFilter(r.resolvers.column, r.resolvers.join, r.filter)
  }

  function NonEmpty(f: Filter): seq<Filter> {
    if f.IsEmpty() then [] else [f]
  }

  function Run(runner: Runner, cursor: Token, pageSize: int, skipCount: bool, r: Reader): Result<Page, Error> {
    var tok :- DecodeToken(cursor);
    var limit := PageLimit(pageSize, r.bounds);
    match tok.keyset
    case Some(cur) =>
      if r.keyset.None? then Err(InvalidInput("keyset pagination is not supported for this resource"))
      else if !DefaultOrdering(r) then
        Err(InvalidInput("keyset (infinite-scroll) pagination is only available for the default ordering"))
      else KeysetPage(runner, cur, limit, r)
    case None => OffsetPage(runner, tok.offsetPage, limit, skipCount, r)
  }

  /** Drops the probe row that says whether another page follows. */
  function Trim(rows: seq<Row>, limit: int): seq<Row>
    requires limit >= 0
  {
    if |rows| > limit then rows[..limit] else rows
  }

  function OffsetPage(runner: Runner, page: int, limit: int, skipCount: bool, r: Reader): Result<Page, Error>
    requires limit > 0
  {
    var pageNum := if page < 1 then 1 else page;
    var filters := NonEmpty(UserFilter(r));
    var rows := runner.list(ListSpec(filters, OrderOf(r), limit + 1, (pageNum - 1) * limit));
    var hasMore := |rows| > limit;
    var (total, estimate) :=
      if r.count && !skipCount then BoundedTotal(runner, filters, r.bounds.CountCap()) else (0, false);
    var next :- OffsetNextCursor(hasMore, pageNum, Trim(rows, limit), r);
    Ok(Page(Trim(rows, limit), next, total, estimate, limit, pageNum))
  }

  function BoundedTotal(runner: Runner, filters: seq<Filter>, cap: int): (int, bool) {
    var n := runner.count(filters, cap + 1);
    if n > cap then (cap, true) else (n, false)
  }

  function OffsetNextCursor(hasMore: bool, pageNum: int, rows: seq<Row>, r: Reader): Result<Token, Error> {
    if !hasMore then Ok(NoToken)
    else if DefaultOrdering(r) && |rows| > 0 then
      MintKeysetCursor(r.keyset.value, OrderOf(r), rows[|rows| - 1], r.fingerprint(r.sort, r.filter))
    else Ok(EncodeToken(PageToken(None, Int32(pageNum + 1))))
  }

  function KeysetPage(runner: Runner, cur: KeysetCursor, limit: int, r: Reader): Result<Page, Error>
    requires limit > 0 && r.keyset.Some?
  {
    if cur.fingerprint != r.fingerprint(r.sort, r.filter) then
      Err(InvalidInput("page token does not match the current query (sort or filter changed)"))
    else
      var cols := OrderOf(r);
      var values :- CursorValues(r.keyset.value, cols, cur.sortValues, cur.id);
      var rows := runner.list(ListSpec(NonEmpty(UserFilter(r)) + [SeekFilter(cols, values)], cols, limit + 1, 0));
      var kept := Trim(rows, limit);
      var next :- if |rows| > limit && |kept| > 0
                  then MintKeysetCursor(r.keyset.value, cols, kept[|kept| - 1], r.fingerprint(r.sort, r.filter))
                  else Ok(NoToken);
      Ok(Page(kept, next, 0, false, limit, 0))
  }

  // ---------- what a runner promises ----------

  ghost function Matching(db: Db, table: set<Row>, filters: seq<Filter>): set<Row> {
    set row | row in table && forall i | 0 <= i < |filters| :: Holds(RowSemantics(db), filters[i], row)
  }

  function Window<T>(q: seq<T>, offset: nat, limit: nat): seq<T> {
    if offset >= |q| then [] else if offset + limit >= |q| then q[offset..] else q[offset..offset + limit]
  }

  /** The contract of the datastore seam: filter, sort, window; and a count that stops at its bound. */
  ghost predicate Serves(db: Db, table: set<Row>, runner: Runner) {
    && (forall spec: ListSpec | spec.offset >= 0 && spec.limit >= 0
                      && Ordering.TotalOn(ByColumns(db, spec.order), Matching(db, table, spec.filters)) ::
          runner.list(spec)
          == Window(Ordering.Listing(ByColumns(db, spec.order), Matching(db, table, spec.filters)), spec.offset,
                    spec.limit))
    && (forall fs, bound | bound >= 1 ::
          runner.count(fs, bound)
          == (if |Matching(db, table, fs)| <= bound then |Matching(db, table, fs)| else bound))
  }

  // ---------- cursor round trip ----------

  /** Whole microseconds, as many from 1970 as float64 holds exactly. */
  predicate CarriesTime(nanos: int) {
    nanos % MICROS == 0 && IsFloat64(UnixMicro(nanos))
  }

  /** A row value the cursor carries without loss: the extractor agrees with the column, a timestamp is whole
      microseconds that float64 holds, any other value is a JSON scalar, and the id parses back. */
  ghost predicate CarriesColumn(ks: KeysetSpec, row: Row, col: string) {
    col in row &&
    if col == ID_COLUMN then
      ks.rowValue(row, col).Some? && ks.rowValue(row, col).value.Text?
      && RestoreId(ks, ks.rowValue(row, col).value.text) == Ok(row[col])
    else
      ks.rowValue(row, col) == Some(row[col]) &&
      if col in ks.timestampCols then
        row[col].Time? && CarriesTime(row[col].nanos)
      else JsonScalar(row[col]) == row[col]
  }

  ghost predicate Carries(ks: KeysetSpec, cols: seq<KeysetColumn>, row: Row) {
    forall i | 0 <= i < |cols| :: cols[i].Base? && cols[i].column != "" && CarriesColumn(ks, row, cols[i].column)
  }

  /** A timestamp column survives mint, JSON and restore exactly when it is whole microseconds that float64 holds. */
  lemma TimestampRoundTrip(nanos: int)
    ensures UnixMicroToTime(JsonScalar(Num(UnixMicro(nanos)))) == Ok(Time(nanos)) <==> CarriesTime(nanos)
  {
    var us := UnixMicro(nanos);
    Float64IsExact(us);
    UnitStep(nanos - UNIX_EPOCH, MICROS);
    WholeMicros(nanos);
    if TimeOfMicro(Float64(us)) == nanos {
      assert Float64(us) * MICROS == nanos - UNIX_EPOCH;
      MultipleDiv(Float64(us), MICROS);
    }
  }

  /** The Unix epoch is whole microseconds from the year 1. */
  lemma WholeMicros(nanos: int)
    ensures nanos % MICROS == 0 <==> nanos == TimeOfMicro(UnixMicro(nanos))
  {
    UnitStep(nanos - UNIX_EPOCH, MICROS);
    assert UNIX_EPOCH == 62_135_596_800_000_000 * MICROS;
    if nanos % MICROS == 0 {
      UnitStep(nanos, MICROS);
      DivModUnique(nanos - UNIX_EPOCH, MICROS, nanos / MICROS - 62_135_596_800_000_000, 0);
    } else if nanos == TimeOfMicro(UnixMicro(nanos)) {
      DivModUnique(nanos, MICROS, UnixMicro(nanos) + 62_135_596_800_000_000, 0);
    }
  }

  /** Every whole microsecond within 2^53 of 1970 (some 285 years) is carried. */
  lemma TimesAround1970(nanos: int)
    requires nanos % MICROS == 0 && -TWO53 <= UnixMicro(nanos) <= TWO53
    ensures UnixMicroToTime(JsonScalar(Num(UnixMicro(nanos)))) == Ok(Time(nanos))
  {
    hide IsFloat64;
    hide Float64;
    hide UnixMicro;
    SmallIntegersAreExact(UnixMicro(nanos));
    TimestampRoundTrip(nanos);
  }

  /** The microsecond after that is not. */
  lemma TimePast2255(late: int)
    requires late == TimeOfMicro(TWO53 + 1)
    ensures late % MICROS == 0 && UnixMicroToTime(JsonScalar(Num(UnixMicro(late)))) != Ok(Time(late))
  {
    hide IsFloat64;
    hide Float64;
    MultipleDiv(TWO53 + 1, MICROS);
    WholeMicros(late);
    SmallIntegersAreExact(0);
    TimestampRoundTrip(late);
  }

  /** The epoch is the first day of 1970 in the calendar the grains use. */
  lemma EpochIs1970()
    ensures DateOf(DayOf(UNIX_EPOCH)) == Date(1969, 0, 0) && TimeOfDay(UNIX_EPOCH) == 0
  {
    hide DateOf;
    DaySplit(719_162, 0);
    EpochDate();
  }

  lemma EpochDate()
    ensures DateOf(719_162) == Date(1969, 0, 0)
  {
    hide DateOf;
    assert YearStart(1969) == 719_162 && MonthStart(0, IsLeap(1969)) == 0 && MonthStart(1, IsLeap(1969)) == 31;
    MonthOfDay(1969, 0, 719_162);
  }

  lemma ColumnRoundTrip(ks: KeysetSpec, c: KeysetColumn, row: Row)
    requires c.Base? && CarriesColumn(ks, row, c.column)
    ensures c.column in row && MintColumn(ks, c, row).Ok?
    ensures var values := MintColumn(ks, c, row).value.values;
            if c.column == ID_COLUMN then values == []
            else |values| == 1 && RestoreColumn(ks, c.column, JsonScalar(values[0])) == Ok(row[c.column])
  {
    hide UnixMicro;
    hide TimeOfMicro;
    hide Float64;
    hide CarriesTime;
    if c.column != ID_COLUMN && c.column in ks.timestampCols {
      TimestampRoundTrip(row[c.column].nanos);
    }
  }

  /** Minting, encoding, decoding and restoring gives back exactly the row's keyset values. */
  lemma {:induction false} ValuesRoundTrip(db: Db, ks: KeysetSpec, cols: seq<KeysetColumn>, row: Row, id: string)
    requires Carries(ks, cols, row)
    requires ID_COLUMN in row ==> RestoreId(ks, id) == Ok(row[ID_COLUMN])
    ensures MintValues(ks, cols, row).Ok?
    ensures CursorValues(ks, cols, JsonScalars(MintValues(ks, cols, row).value.values), id)
            == Ok(RowKeys(db, cols, row))
  {
    hide MintColumn;
    hide UnixMicroToTime;
    hide JsonScalar;
    hide CarriesColumn;
    hide RestoreId;
    if cols != [] {
      ValuesRoundTrip(db, ks, cols[1..], row, id);
      ColumnRoundTrip(ks, cols[0], row);
      var col := cols[0].column;
      var first := MintColumn(ks, cols[0], row).value;
      var rest := MintValues(ks, cols[1..], row).value;
      var all := JsonScalars(first.values + rest.values);
      assert RowKeys(db, cols, row) == [row[col]] + RowKeys(db, cols[1..], row);
      if col == ID_COLUMN {
        assert all == JsonScalars(rest.values);
      } else {
        assert all[0] == JsonScalar(first.values[0]) && all[1..] == JsonScalars(rest.values);
      }
    }
  }

  lemma {:induction false} MintedId(ks: KeysetSpec, cols: seq<KeysetColumn>, row: Row)
    requires Carries(ks, cols, row)
    ensures MintValues(ks, cols, row).Ok?
    ensures (exists i :: 0 <= i < |cols| && cols[i].Column() == ID_COLUMN)
            ==> MintValues(ks, cols, row).value.id == Some(ks.rowValue(row, ID_COLUMN).value.text)
    ensures (forall i | 0 <= i < |cols| :: cols[i].Column() != ID_COLUMN) ==> MintValues(ks, cols, row).value.id == None
  {
    if cols != [] {
      MintedId(ks, cols[1..], row);
      assert CarriesColumn(ks, row, cols[0].column);
      if i :| 0 <= i < |cols| && cols[i].Column() == ID_COLUMN {
        assert i > 0 ==> cols[1..][i - 1] == cols[i];
      }
    }
  }

  /** The whole way round: the token minted from a row decodes to a cursor that is accepted for the same sort and
      filter and whose values are that row's keys. */
  lemma CursorRoundTrip(db: Db, ks: KeysetSpec, cols: seq<KeysetColumn>, row: Row, fingerprint: string)
    requires Carries(ks, cols, row) && exists i :: 0 <= i < |cols| && IsPlainId(cols[i])
    ensures MintKeysetCursor(ks, cols, row, fingerprint).Ok?
    ensures var token := MintKeysetCursor(ks, cols, row, fingerprint).value;
            && token.Encoded? && DecodeToken(token).Ok? && DecodeToken(token).value.keyset.Some?
            && var cur := DecodeToken(token).value.keyset.value;
            && cur.fingerprint == fingerprint
            && CursorValues(ks, cols, cur.sortValues, cur.id) == Ok(RowKeys(db, cols, row))
  {
    var i :| 0 <= i < |cols| && IsPlainId(cols[i]);
    assert CarriesColumn(ks, row, cols[i].column);
    MintedId(ks, cols, row);
    assert cols[i].Column() == ID_COLUMN;
    ValuesRoundTrip(db, ks, cols, row, ks.rowValue(row, ID_COLUMN).value.text);
  }
}
