/** Small result types shared by the models. */
module Wrappers {
  datatype Option<+T> = None | Some(value: T)

  datatype Result<+T, +E> = Ok(value: T) | Err(error: E) {
    predicate IsFailure() { Err? }
    function PropagateFailure<U>(): Result<U, E>
      requires Err?
    {
      Err(error)
    }
    function Extract(): T
      requires Ok?
    {
      value
    }
  }
}

/** The list-query filter language and the fold that compiles it for a datastore. */
module Filters {
  import opened Wrappers

  /** A dynamically typed operand or column value. `Uid` is an identifier in its native type. */
  datatype Value =
    | Null
    | Text(text: string)
    | Num(num: int)
    | Bool(flag: bool)
    | Time(nanos: int)
    | Uid(uid: string)
    | List(items: seq<Value>)

  datatype Operator = Eq | Ne | In | NotIn | Like | Gt | Gte | Lt | Lte

  datatype JoinTarget = JoinTarget(table: string, localKey: string, targetKey: string, columns: seq<string>)

  /** `NoFilter` is the nil filter; a `Composite` may carry both arms, and `all` then wins. */
  datatype Filter =
    | NoFilter
    | Clause(field: string, op: Operator, value: Value, join: Option<JoinTarget>)
    | Composite(all: seq<Filter>, any: seq<Filter>)
  {
    predicate IsEmpty() {
      match this
      case NoFilter => true
      case Clause(field, _, _, _) => field == ""
      case Composite(all, any) => all == [] && any == []
    }
  }

  type ColumnFn = string -> string
  type JoinFn = string -> Option<JoinTarget>

  function IdentityColumn(field: string): string { field }

  // ---------- the fold ----------

  /** The algebra a datastore supplies; `Q` is its predicate node. */
  datatype Backend<!Q> = Backend(
    clause: (string, Operator, Value) -> Q,
    existsClause: (JoinTarget, Operator, Value) -> Q,
    all: seq<Q> -> Q,
    any: seq<Q> -> Q,
    empty: Q)

  function Compile<Q>(b: Backend<Q>, resolve: ColumnFn, f: Filter): Q
    decreases f, 1
  {
    if f.IsEmpty() then b.empty
    else match f
      case Clause(field, op, value, Some(j)) => b.existsClause(j, op, value)
      case Clause(field, op, value, None) => b.clause(resolve(field), op, value)
      case Composite(all, any) =>
        if |all| > 0 then b.all(CompileEach(b, resolve, all)) else b.any(CompileEach(b, resolve, any))
  }

  function CompileEach<Q>(b: Backend<Q>, resolve: ColumnFn, fs: seq<Filter>): (qs: seq<Q>)
    ensures |qs| == |fs|
    decreases fs, 0
  {
    if fs == [] then [] else [Compile(b, resolve, fs[0])] + CompileEach(b, resolve, fs[1..])
  }

  /** Rewrites field names to columns and stamps each clause's join, replacing any join it carried. */
  function ResolveFilter(resolve: ColumnFn, joinOf: JoinFn, f: Filter): Filter
    decreases f, 1
  {
    if f.IsEmpty() then f
    else match f
      case Clause(field, op, value, _) => Clause(resolve(field), op, value, joinOf(field))
      case Composite(all, any) =>
        if |all| > 0 then Composite(ResolveEach(resolve, joinOf, all), [])
        else Composite([], ResolveEach(resolve, joinOf, any))
  }

  function ResolveEach(resolve: ColumnFn, joinOf: JoinFn, fs: seq<Filter>): (r: seq<Filter>)
    ensures |r| == |fs|
    decreases fs, 0
  {
    if fs == [] then [] else [ResolveFilter(resolve, joinOf, fs[0])] + ResolveEach(resolve, joinOf, fs[1..])
  }

  // ---------- what a filter means ----------

  /** How a kind of row `R` answers one comparison, on its own columns or through a join. */
  datatype Semantics<!R> = Semantics(
    clause: (string, Operator, Value, R) -> bool,
    joined: (JoinTarget, Operator, Value, R) -> bool)

  /** The rows a filter selects, with `resolve` and `joinOf` deciding what each field name stands for. */
  ghost predicate Selects<R>(sem: Semantics<R>, resolve: ColumnFn, joinOf: JoinFn, f: Filter, row: R)
  {
    if f.IsEmpty() then true
    else match f
      case Clause(field, op, value, _) =>
        (match joinOf(field)
         case Some(j) => sem.joined(j, op, value, row)
         case None => sem.clause(resolve(field), op, value, row))
      case Composite(all, any) =>
        if |all| > 0 then forall i | 0 <= i < |all| :: Selects(sem, resolve, joinOf, all[i], row)
        else exists i | 0 <= i < |any| :: Selects(sem, resolve, joinOf, any[i], row)
  }

  /** The rows a resolved filter selects: columns are read as they stand and carried joins are followed. */
  ghost predicate Holds<R>(sem: Semantics<R>, f: Filter, row: R)
  {
    if f.IsEmpty() then true
    else match f
      case Clause(field, op, value, Some(j)) => sem.joined(j, op, value, row)
      case Clause(field, op, value, None) => sem.clause(field, op, value, row)
      case Composite(all, any) =>
        if |all| > 0 then forall i | 0 <= i < |all| :: Holds(sem, all[i], row)
        else exists i | 0 <= i < |any| :: Holds(sem, any[i], row)
  }

  /** `den` reads a backend's predicates as sets of rows, and the five operations mean what their names say. */
  ghost predicate Lawful<Q(!new), R(!new)>(b: Backend<Q>, sem: Semantics<R>, den: (Q, R) -> bool) {
    && (forall c, op, v, r :: den(b.clause(c, op, v), r) == sem.clause(c, op, v, r))
    && (forall j, op, v, r :: den(b.existsClause(j, op, v), r) == sem.joined(j, op, v, r))
    && (forall qs, r :: den(b.all(qs), r) == (forall i | 0 <= i < |qs| :: den(qs[i], r)))
    && (forall qs, r :: den(b.any(qs), r) == (exists i | 0 <= i < |qs| :: den(qs[i], r)))
    && (forall r :: den(b.empty, r))
  }

  /** Compiling a resolved filter preserves its meaning, for every lawful backend. */
  lemma {:induction false} CompilePreservesMeaning<Q(!new), R(!new)>(
    b: Backend<Q>, sem: Semantics<R>, den: (Q, R) -> bool, f: Filter, row: R)
    requires Lawful(b, sem, den)
    ensures den(Compile(b, IdentityColumn, f), row) == Holds(sem, f, row)
    decreases f, 1
  {
    if !f.IsEmpty() && f.Composite? {
      var subs := if |f.all| > 0 then f.all else f.any;
      CompileEachPreservesMeaning(b, sem, den, subs, row);
      var qs := CompileEach(b, IdentityColumn, subs);
      if |f.all| > 0 {
        assert den(b.all(qs), row) == (forall i | 0 <= i < |qs| :: den(qs[i], row));
      } else {
        assert den(b.any(qs), row) == (exists i | 0 <= i < |qs| :: den(qs[i], row));
        if i :| 0 <= i < |qs| && den(qs[i], row) {
          assert Holds(sem, f.any[i], row);
        }
      }
    }
  }

  lemma {:induction false} CompileEachPreservesMeaning<Q(!new), R(!new)>(
    b: Backend<Q>, sem: Semantics<R>, den: (Q, R) -> bool, fs: seq<Filter>, row: R)
    requires Lawful(b, sem, den)
    ensures forall i | 0 <= i < |fs| ::
              den(CompileEach(b, IdentityColumn, fs)[i], row) == Holds(sem, fs[i], row)
    decreases fs, 0
  {
    if fs != [] {
      CompilePreservesMeaning(b, sem, den, fs[0], row);
      CompileEachPreservesMeaning(b, sem, den, fs[1..], row);
    }
  }

  /** No clause of the filter that takes part in it resolves to the empty name. */
  ghost predicate NeverBlank(resolve: ColumnFn, f: Filter) {
    if f.IsEmpty() then true
    else match f
      case Clause(field, _, _, _) => resolve(field) != ""
      case Composite(all, any) =>
        if |all| > 0 then forall i | 0 <= i < |all| :: NeverBlank(resolve, all[i])
        else forall i | 0 <= i < |any| :: NeverBlank(resolve, any[i])
  }

  /** Resolving keeps the meaning: the resolved filter selects what the caller's field names stood for. */
  lemma {:induction false} ResolvePreservesMeaning<R(!new)>(
    sem: Semantics<R>, resolve: ColumnFn, joinOf: JoinFn, f: Filter, row: R)
    requires NeverBlank(resolve, f)
    ensures Holds(sem, ResolveFilter(resolve, joinOf, f), row) == Selects(sem, resolve, joinOf, f, row)
    decreases f, 1
  {
    if !f.IsEmpty() && f.Composite? {
      var subs := if |f.all| > 0 then f.all else f.any;
      ResolveEachPreservesMeaning(sem, resolve, joinOf, subs, row);
      var rs := ResolveEach(resolve, joinOf, subs);
      if |f.all| > 0 {
      } else if i :| 0 <= i < |rs| && Holds(sem, rs[i], row) {
        assert Selects(sem, resolve, joinOf, f.any[i], row);
      }
    }
  }

  lemma {:induction false} ResolveEachPreservesMeaning<R(!new)>(
    sem: Semantics<R>, resolve: ColumnFn, joinOf: JoinFn, fs: seq<Filter>, row: R)
    requires forall i | 0 <= i < |fs| :: NeverBlank(resolve, fs[i])
    ensures forall i | 0 <= i < |fs| ::
              Holds(sem, ResolveEach(resolve, joinOf, fs)[i], row) == Selects(sem, resolve, joinOf, fs[i], row)
    decreases fs, 0
  {
    if fs != [] {
      ResolvePreservesMeaning(sem, resolve, joinOf, fs[0], row);
      ResolveEachPreservesMeaning(sem, resolve, joinOf, fs[1..], row);
    }
  }

  // ---------- resolving first, or while compiling ----------

  function NoJoins(field: string): Option<JoinTarget> { None }

  /** No clause of the filter carries a join. */
  ghost predicate Joinless(f: Filter) {
    match f
    case NoFilter => true
    case Clause(_, _, _, join) => join == None
    case Composite(all, any) =>
      && (forall i | 0 <= i < |all| :: Joinless(all[i]))
      && (forall i | 0 <= i < |any| :: Joinless(any[i]))
  }

  /** The free backend: its predicates are the syntax of what was asked for. */
  datatype Term =
    | TClause(column: string, op: Operator, value: Value)
    | TExists(join: JoinTarget, op: Operator, value: Value)
    | TAll(all: seq<Term>)
    | TAny(any: seq<Term>)
    | TEmpty

  function FreeBackend(): Backend<Term> {
    Backend((c, op, v) => TClause(c, op, v), (j, op, v) => TExists(j, op, v), qs => TAll(qs), qs => TAny(qs), TEmpty)
  }

  /** Resolving up front and then compiling with the identity resolver asks every backend for the same
      predicate as compiling with the resolver, when no clause resolves to the empty name. */
  lemma {:induction false} ResolveThenCompile<Q>(b: Backend<Q>, resolve: ColumnFn, f: Filter)
    requires Joinless(f) && NeverBlank(resolve, f)
    ensures Compile(b, IdentityColumn, ResolveFilter(resolve, NoJoins, f)) == Compile(b, resolve, f)
    decreases f, 1
  {
    if !f.IsEmpty() && f.Composite? {
      ResolveThenCompileEach(b, resolve, if |f.all| > 0 then f.all else f.any);
    }
  }

  lemma {:induction false} ResolveThenCompileEach<Q>(b: Backend<Q>, resolve: ColumnFn, fs: seq<Filter>)
    requires forall i | 0 <= i < |fs| :: Joinless(fs[i]) && NeverBlank(resolve, fs[i])
    ensures CompileEach(b, IdentityColumn, ResolveEach(resolve, NoJoins, fs)) == CompileEach(b, resolve, fs)
    decreases fs, 0
  {
    if fs != [] {
      ResolveThenCompile(b, resolve, fs[0]);
      ResolveThenCompileEach(b, resolve, fs[1..]);
    }
  }

  /** The condition is exact: as soon as one clause resolves to the empty name the two routes part,
      because an empty field makes the resolved clause match every row. */
  lemma {:induction false} BlankColumnMatchesAll(resolve: ColumnFn, f: Filter)
    requires Joinless(f)
    ensures NeverBlank(resolve, f) <==>
            Compile(FreeBackend(), IdentityColumn, ResolveFilter(resolve, NoJoins, f))
            == Compile(FreeBackend(), resolve, f)
    decreases f, 1
  {
    if !f.IsEmpty() && f.Composite? {
      var subs := if |f.all| > 0 then f.all else f.any;
      BlankColumnMatchesAllEach(resolve, subs);
      var l := CompileEach(FreeBackend(), IdentityColumn, ResolveEach(resolve, NoJoins, subs));
      var r := CompileEach(FreeBackend(), resolve, subs);
      if |f.all| > 0 {
        assert Compile(FreeBackend(), IdentityColumn, ResolveFilter(resolve, NoJoins, f)) == TAll(l);
        assert Compile(FreeBackend(), resolve, f) == TAll(r);
      } else {
        assert Compile(FreeBackend(), IdentityColumn, ResolveFilter(resolve, NoJoins, f)) == TAny(l);
        assert Compile(FreeBackend(), resolve, f) == TAny(r);
      }
    }
  }

  lemma {:induction false} BlankColumnMatchesAllEach(resolve: ColumnFn, fs: seq<Filter>)
    requires forall i | 0 <= i < |fs| :: Joinless(fs[i])
    ensures (forall i | 0 <= i < |fs| :: NeverBlank(resolve, fs[i])) <==>
            CompileEach(FreeBackend(), IdentityColumn, ResolveEach(resolve, NoJoins, fs))
            == CompileEach(FreeBackend(), resolve, fs)
    decreases fs, 0
  {
    if fs != [] {
      BlankColumnMatchesAll(resolve, fs[0]);
      BlankColumnMatchesAllEach(resolve, fs[1..]);
      var tail := fs[1..];
      assert forall i | 0 <= i < |tail| :: tail[i] == fs[i + 1];
      assert (forall i | 0 <= i < |fs| :: NeverBlank(resolve, fs[i]))
        <==> NeverBlank(resolve, fs[0]) && (forall i | 0 <= i < |tail| :: NeverBlank(resolve, tail[i]));
      var l := CompileEach(FreeBackend(), IdentityColumn, ResolveEach(resolve, NoJoins, fs));
      var r := CompileEach(FreeBackend(), resolve, fs);
      assert l == r <==> l[0] == r[0] && l[1..] == r[1..];
    }
  }

  /** One clause whose column resolves to the empty name: compiled directly it asks for a comparison, resolved first it
      asks for every row. */
  lemma BlankColumnWitness()
    ensures var f, resolve: ColumnFn := Clause("a", Operator.Eq, Text("v"), None), (_: string) => "";
            && Compile(FreeBackend(), resolve, f) == TClause("", Operator.Eq, Text("v"))
            && Compile(FreeBackend(), IdentityColumn, ResolveFilter(resolve, NoJoins, f)) == TEmpty
  {
  }
}
