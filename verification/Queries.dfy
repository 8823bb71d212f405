/**
 * The query builder: text with numbered placeholders on one side, the bound arguments on the other.
 * A query is kept as a list of fragments whose conditions name their placeholders by number.
 */
module Queries {
  import opened Wrappers

  /** A column, or what a JSON path inside it leads to. */
  datatype Field = Field(column: string, path: seq<string>)

  /**
   * A stored or bound value. Texts count by their place in the collation order; a pattern stands
   * for the set of stored texts that match it.
   */
  datatype Value = Number(amount: real) | Text(rank: int) | Tags(ranks: set<int>) | Pattern(matches: set<int>)

  type Row = map<Field, Value>

  datatype Operator = Equal | Less | Greater | AtMost | AtLeast | Like | HasKey

  datatype Operand = Param(number: int) | Literal(value: Value)

  datatype Condition =
    | Always
    | Test(field: Field, op: Operator, operand: Operand)
    | AnyOf(field: Field, op: Operator, operands: seq<Operand>)
    | And(left: Condition, right: Condition)
    | Or(left: Condition, right: Condition)
    | Paren(inner: Condition)

  datatype Fragment =
    | Where(condition: Condition)
    | OrderBy(field: Field, ascending: bool, tie: seq<Field>)
    | Limit(operand: Operand)
    | Offset(operand: Operand)

  type Query = seq<Fragment>

  // ---- What a query means to the database ----

  predicate Compare(op: Operator, a: Value, b: Value) {
    match op
    case Equal => a == b
    case Less => (a.Number? && b.Number? && a.amount < b.amount) || (a.Text? && b.Text? && a.rank < b.rank)
    case Greater => (a.Number? && b.Number? && a.amount > b.amount) || (a.Text? && b.Text? && a.rank > b.rank)
    case AtMost => (a.Number? && b.Number? && a.amount <= b.amount) || (a.Text? && b.Text? && a.rank <= b.rank)
    case AtLeast => (a.Number? && b.Number? && a.amount >= b.amount) || (a.Text? && b.Text? && a.rank >= b.rank)
    case Like => a.Text? && b.Pattern? && a.rank in b.matches
    case HasKey => a.Tags? && b.Text? && b.rank in a.ranks
  }

  /** A row without the field (a NULL) passes no test on it. */
  predicate Passes(row: Row, field: Field, op: Operator, value: Value) {
    field in row && Compare(op, row[field], value)
  }

  predicate TestHolds(row: Row, field: Field, op: Operator, operand: Operand, args: seq<Value>) {
    match operand
    case Param(n) => 1 <= n <= |args| && Passes(row, field, op, args[n - 1])
    case Literal(v) => Passes(row, field, op, v)
  }

  predicate Holds(c: Condition, args: seq<Value>, row: Row) {
    match c
    case Always => true
    case Test(f, op, x) => TestHolds(row, f, op, x, args)
    case AnyOf(f, op, xs) => exists i :: 0 <= i < |xs| && TestHolds(row, f, op, xs[i], args)
    case And(l, r) => Holds(l, args, row) && Holds(r, args, row)
    case Or(l, r) => Holds(l, args, row) || Holds(r, args, row)
    case Paren(c) => Holds(c, args, row)
  }

  /** The rows that satisfy every clause of a query. */
  predicate Selects(q: Query, args: seq<Value>, row: Row) {
    forall i :: 0 <= i < |q| && q[i].Where? ==> Holds(q[i].condition, args, row)
  }

  // ---- Placeholders, in the order they stand in the text ----

  function Numbers(x: Operand): seq<int> {
    if x.Param? then [x.number] else []
  }

  function AllNumbers(xs: seq<Operand>): seq<int> {
    if xs == [] then [] else AllNumbers(xs[..|xs| - 1]) + Numbers(xs[|xs| - 1])
  }

  function Placeholders(c: Condition): seq<int> {
    match c
    case Always => []
    case Test(_, _, x) => Numbers(x)
    case AnyOf(_, _, xs) => AllNumbers(xs)
    case And(l, r) => Placeholders(l) + Placeholders(r)
    case Or(l, r) => Placeholders(l) + Placeholders(r)
    case Paren(c) => Placeholders(c)
  }

  function InFragment(f: Fragment): seq<int> {
    match f
    case Where(c) => Placeholders(c)
    case OrderBy(_, _, _) => []
    case Limit(x) => Numbers(x)
    case Offset(x) => Numbers(x)
  }

  function InQuery(q: Query): seq<int> {
    if q == [] then [] else InQuery(q[..|q| - 1]) + InFragment(q[|q| - 1])
  }

  /** `lo, lo + 1, ..., lo + n - 1`. */
  function UpFrom(lo: int, n: nat): seq<int> {
    seq(n, i => lo + i)
  }

  // ---- Builder calls ----

  datatype Call =
    | AndEq(column: string, value: Value)
    | AndIn(column: string, values: seq<Value>)
    | AndILike(column: string, value: Value)
    | AndGte(column: string, value: Value)
    | AndLte(column: string, value: Value)
    | AndLt(column: string, value: Value)
    | AndCursorKeyset(colA: string, valA: Value, colB: string, valB: Value, ascending: bool)
    | AndJsonbHasAny(column: string, path: string, values: seq<Value>)
    | AndJsonbTextEq(column: string, path: string, value: Value)
    | AndJsonbTextIn(column: string, path: string, values: seq<Value>)
    | AndJsonbArrayContains(column: string, path: string, value: Value)
    | AndRaw(clause: Condition)
    | OrderedBy(column: string, ascending: bool)
    | OrderedByRaw(field: Field, ascending: bool, tie: seq<Field>)
    | Limited(limit: int)
    | Skipping(offset: int)

  /** Which characters count as letters or digits: any Unicode classification, nothing is assumed of it. */
  const ALPHANUMERIC: char -> bool

  predicate NameChar(c: char) { ALPHANUMERIC(c) || c == '_' || c == '.' }

  predicate ValidName(s: string) {
    forall i :: 0 <= i < |s| ==> NameChar(s[i])
  }

  /** The calls refused because of a malformed column name or path. An empty list of values is let through unread. */
  predicate Panics(call: Call) {
    match call
    case AndJsonbHasAny(c, p, vs) => vs != [] && !(ValidName(c) && ValidName(p))
    case AndJsonbTextIn(c, p, vs) => vs != [] && !(ValidName(c) && ValidName(p))
    case AndJsonbTextEq(c, p, _) => !(ValidName(c) && ValidName(p))
    case AndJsonbArrayContains(c, p, _) => !(ValidName(c) && ValidName(p))
    case OrderedBy(c, _) => !ValidName(c)
    case _ => false
  }

  function Column(c: string): Field { Field(c, []) }

  /** The parts of a path between its dots. */
  function Split(s: string): seq<string> {
    if s == [] then [[]]
    else
      var rest := Split(s[1..]);
      if s[0] == '.' then [[]] + rest else if rest == [] then [s] else [[s[0]] + rest[0]] + rest[1..]
  }

  /** What a call asks of a row, said without any placeholder. */
  predicate Meaning(call: Call, row: Row) {
    match call
    case AndEq(c, v) => Passes(row, Column(c), Equal, v)
    case AndIn(c, vs) => vs != [] ==> exists v :: v in vs && Passes(row, Column(c), Equal, v)
    case AndILike(c, v) => Passes(row, Column(c), Like, v)
    case AndGte(c, v) => Passes(row, Column(c), AtLeast, v)
    case AndLte(c, v) => Passes(row, Column(c), AtMost, v)
    case AndLt(c, v) => Passes(row, Column(c), Less, v)
    case AndCursorKeyset(a, va, b, vb, asc) =>
      || Passes(row, Column(a), if asc then Greater else Less, va)
      || (Passes(row, Column(a), Equal, va) && Passes(row, Column(b), Greater, vb))
    case AndJsonbHasAny(c, p, vs) => vs != [] ==> exists v :: v in vs && Passes(row, Field(c, Split(p)), HasKey, v)
    case AndJsonbTextEq(c, p, v) => Passes(row, Field(c, [p]), Equal, v)
    case AndJsonbTextIn(c, p, vs) => vs != [] ==> exists v :: v in vs && Passes(row, Field(c, Split(p)), Equal, v)
    case AndJsonbArrayContains(c, p, v) => Passes(row, Field(c, Split(p)), HasKey, v)
    case AndRaw(c) => Holds(c, [], row)
    case _ => true
  }

  /** The arguments a call binds, in order. */
  function Bound(call: Call): seq<Value> {
    match call
    case AndIn(_, vs) => vs
    case AndJsonbHasAny(_, _, vs) => vs
    case AndJsonbTextIn(_, _, vs) => vs
    case AndCursorKeyset(_, va, _, vb, _) => [va, va, vb]
    case AndRaw(_) => []
    case OrderedBy(_, _) => []
    case OrderedByRaw(_, _, _) => []
    case Limited(n) => [Number(n as real)]
    case Skipping(n) => [Number(n as real)]
    case _ => [call.value]
  }

  function Params(lo: int, n: nat): seq<Operand> {
    seq(n, i => Param(lo + i))
  }

  /** The text a call appends when the next placeholder is `n`. */
  function Clause(call: Call, n: int): Query {
    match call
    case AndEq(c, _) => [Where(Test(Column(c), Equal, Param(n)))]
    case AndIn(c, vs) => if vs == [] then [] else [Where(AnyOf(Column(c), Equal, Params(n, |vs|)))]
    case AndILike(c, _) => [Where(Test(Column(c), Like, Param(n)))]
    case AndGte(c, _) => [Where(Test(Column(c), AtLeast, Param(n)))]
    case AndLte(c, _) => [Where(Test(Column(c), AtMost, Param(n)))]
    case AndLt(c, _) => [Where(Test(Column(c), Less, Param(n)))]
    case AndCursorKeyset(a, _, b, _, asc) =>
      [Where(Paren(Or(Test(Column(a), if asc then Greater else Less, Param(n)),
                      And(Test(Column(a), Equal, Param(n + 1)), Test(Column(b), Greater, Param(n + 2))))))]
    case AndJsonbHasAny(c, p, vs) =>
      if vs == [] then [] else [Where(AnyOf(Field(c, Split(p)), HasKey, Params(n, |vs|)))]
    case AndJsonbTextEq(c, p, _) => [Where(Test(Field(c, [p]), Equal, Param(n)))]
    case AndJsonbTextIn(c, p, vs) => if vs == [] then [] else [Where(AnyOf(Field(c, Split(p)), Equal, Params(n, |vs|)))]
    case AndJsonbArrayContains(c, p, _) => [Where(Test(Field(c, Split(p)), HasKey, Param(n)))]
    case AndRaw(c) => [Where(c)]
    case OrderedBy(c, asc) => [OrderBy(Column(c), asc, [])]
    case OrderedByRaw(f, asc, tie) => [OrderBy(f, asc, tie)]
    case Limited(_) => [Limit(Param(n))]
    case Skipping(_) => [Offset(Param(n))]
  }

  /** The calls whose text goes into the main query only. */
  predicate MainOnly(call: Call) {
    call.AndCursorKeyset? || call.OrderedBy? || call.OrderedByRaw? || call.Limited? || call.Skipping?
  }

  /** The calls that pick a window out of the selected rows; each binds at least one argument. */
  predicate Windows(call: Call) {
    call.AndCursorKeyset? || call.Limited? || call.Skipping?
  }

  datatype Build = Build(query: Query, countQuery: Query, args: seq<Value>, paramIndex: int)

  function Start(base: Condition): Build {
    Build([Where(base)], [Where(base)], [], 1)
  }

  function Appended(b: Build, call: Call): Build {
    if Panics(call) then b
    else
      var text := Clause(call, b.paramIndex);
      Build(b.query + text, b.countQuery + (if MainOnly(call) then [] else text),
            b.args + Bound(call), b.paramIndex + |Bound(call)|)
  }

  function Built(base: Condition, calls: seq<Call>): Build {
    if calls == [] then Start(base) else Appended(Built(base, calls[..|calls| - 1]), calls[|calls| - 1])
  }

  class QueryBuilder {
    var query: Query
    var countQuery: Query
    var args: seq<Value>
    var paramIndex: int

    ghost function State(): Build
      reads this
    {
      Build(query, countQuery, args, paramIndex)
    }

    constructor (base: Condition)
      ensures State() == Start(base)
    {
      query, countQuery, args, paramIndex := [Where(base)], [Where(base)], [], 1;
    }

    /** One condition on one bound value: the shape of six of the operations. */
    method AndTest(field: Field, op: Operator, value: Value)
      modifies this
      ensures query == old(query) + [Where(Test(field, op, Param(old(paramIndex))))]
      ensures countQuery == old(countQuery) + [Where(Test(field, op, Param(old(paramIndex))))]
      ensures args == old(args) + [value] && paramIndex == old(paramIndex) + 1
    {
      var clause := Where(Test(field, op, Param(paramIndex)));
      query := query + [clause];
      countQuery := countQuery + [clause];
      args := args + [value];
      paramIndex := paramIndex + 1;
    }

    /** One condition on a non-empty list of bound values. */
    method AndAny(field: Field, op: Operator, values: seq<Value>)
      modifies this
      ensures query == old(query) + [Where(AnyOf(field, op, Params(old(paramIndex), |values|)))]
      ensures countQuery == old(countQuery) + [Where(AnyOf(field, op, Params(old(paramIndex), |values|)))]
      ensures args == old(args) + values && paramIndex == old(paramIndex) + |values|
    {
      var placeholders := Params(paramIndex, |values|);
      query := query + [Where(AnyOf(field, op, placeholders))];
      countQuery := countQuery + [Where(AnyOf(field, op, placeholders))];
      for i := 0 to |values|
        invariant query == old(query) + [Where(AnyOf(field, op, placeholders))]
        invariant countQuery == old(countQuery) + [Where(AnyOf(field, op, placeholders))]
        invariant args == old(args) + values[..i] && paramIndex == old(paramIndex) + i
      {
        assert values[..i + 1] == values[..i] + [values[i]];
        args := args + [values[i]];
        paramIndex := paramIndex + 1;
      }
      assert values[..|values|] == values;
    }

    method AndEq(column: string, value: Value)
      modifies this
      ensures State() == Appended(old(State()), Call.AndEq(column, value))
    {
      AndTest(Column(column), Equal, value);
    }

    method AndIn(column: string, values: seq<Value>)
      modifies this
      ensures State() == Appended(old(State()), Call.AndIn(column, values))
    {
      if values != [] {
        AndAny(Column(column), Equal, values);
      }
    }

    method AndILike(column: string, pattern: Value)
      modifies this
      ensures State() == Appended(old(State()), Call.AndILike(column, pattern))
    {
      AndTest(Column(column), Like, pattern);
    }

    method AndGte(column: string, value: Value)
      modifies this
      ensures State() == Appended(old(State()), Call.AndGte(column, value))
    {
      AndTest(Column(column), AtLeast, value);
    }

    method AndLte(column: string, value: Value)
      modifies this
      ensures State() == Appended(old(State()), Call.AndLte(column, value))
    {
      AndTest(Column(column), AtMost, value);
    }

    method AndLt(column: string, value: Value)
      modifies this
      ensures State() == Appended(old(State()), Call.AndLt(column, value))
    {
      AndTest(Column(column), Less, value);
    }

    /** The cursor's first value is bound twice, and the count query does not see the clause. */
    method AndCursorKeyset(colA: string, valA: Value, colB: string, valB: Value, ascending: bool)
      modifies this
      ensures State() == Appended(old(State()), Call.AndCursorKeyset(colA, valA, colB, valB, ascending))
    {
      var past := Test(Column(colA), if ascending then Greater else Less, Param(paramIndex));
      var tied := And(Test(Column(colA), Equal, Param(paramIndex + 1)),
                      Test(Column(colB), Greater, Param(paramIndex + 2)));
      query := query + [Where(Paren(Or(past, tied)))];
      args := args + [valA];
      paramIndex := paramIndex + 1;
      args := args + [valA];
      paramIndex := paramIndex + 1;
      args := args + [valB];
      paramIndex := paramIndex + 1;
    }

    method AndJsonbHasAny(column: string, path: string, values: seq<Value>) returns (ok: bool)
      modifies this
      ensures State() == Appended(old(State()), Call.AndJsonbHasAny(column, path, values))
      ensures ok == !Panics(Call.AndJsonbHasAny(column, path, values))
    {
      if values == [] { return true; }
      if !ValidName(column) || !ValidName(path) { return false; }
      AndAny(Field(column, Split(path)), HasKey, values);
      ok := true;
    }

    /** Unlike its siblings, this one takes the path as one name, dots and all. */
    method AndJsonbTextEq(column: string, path: string, value: Value) returns (ok: bool)
      modifies this
      ensures State() == Appended(old(State()), Call.AndJsonbTextEq(column, path, value))
      ensures ok == !Panics(Call.AndJsonbTextEq(column, path, value))
    {
      if !ValidName(column) || !ValidName(path) { return false; }
      AndTest(Field(column, [path]), Equal, value);
      ok := true;
    }

    method AndJsonbTextIn(column: string, path: string, values: seq<Value>) returns (ok: bool)
      modifies this
      ensures State() == Appended(old(State()), Call.AndJsonbTextIn(column, path, values))
      ensures ok == !Panics(Call.AndJsonbTextIn(column, path, values))
    {
      if values == [] { return true; }
      if !ValidName(column) || !ValidName(path) { return false; }
      AndAny(Field(column, Split(path)), Equal, values);
      ok := true;
    }

    method AndJsonbArrayContains(column: string, path: string, value: Value) returns (ok: bool)
      modifies this
      ensures State() == Appended(old(State()), Call.AndJsonbArrayContains(column, path, value))
      ensures ok == !Panics(Call.AndJsonbArrayContains(column, path, value))
    {
      if !ValidName(column) || !ValidName(path) { return false; }
      AndTest(Field(column, Split(path)), HasKey, value);
      ok := true;
    }

    method AndRaw(clause: Condition)
      modifies this
      ensures State() == Appended(old(State()), Call.AndRaw(clause))
    {
      query := query + [Where(clause)];
      countQuery := countQuery + [Where(clause)];
    }

    method OrderBy(column: string, ascending: bool) returns (ok: bool)
      modifies this
      ensures State() == Appended(old(State()), Call.OrderedBy(column, ascending))
      ensures ok == !Panics(Call.OrderedBy(column, ascending))
    {
      if !ValidName(column) { return false; }
      query := query + [Fragment.OrderBy(Column(column), ascending, [])];
      ok := true;
    }

    method OrderByRaw(field: Field, ascending: bool, tie: seq<Field>)
      modifies this
      ensures State() == Appended(old(State()), Call.OrderedByRaw(field, ascending, tie))
    {
      query := query + [Fragment.OrderBy(field, ascending, tie)];
    }

    method Limit(limit: int)
      modifies this
      ensures State() == Appended(old(State()), Limited(limit))
    {
      query := query + [Fragment.Limit(Param(paramIndex))];
      args := args + [Number(limit as real)];
      paramIndex := paramIndex + 1;
    }

    method Offset(offset: int)
      modifies this
      ensures State() == Appended(old(State()), Skipping(offset))
    {
      query := query + [Fragment.Offset(Param(paramIndex))];
      args := args + [Number(offset as real)];
      paramIndex := paramIndex + 1;
    }
  }

  // ---- Placeholders stay $1..$n in argument order ----

  lemma {:induction false} InQueryAppend(a: Query, b: Query)
    ensures InQuery(a + b) == InQuery(a) + InQuery(b)
  {
    if b == [] {
      assert a + b == a;
    } else {
      var init, last := b[..|b| - 1], b[|b| - 1];
      InQueryAppend(a, init);
      assert (a + b)[..|a + b| - 1] == a + init;
      Regroup(InQuery(a), InQuery(init), InFragment(last));
    }
  }

  lemma InQueryOne(f: Fragment)
    ensures InQuery([f]) == InFragment(f)
  {
    assert [f][..0] == [];
  }

  lemma {:induction false} ParamNumbers(lo: int, n: nat)
    ensures AllNumbers(Params(lo, n)) == UpFrom(lo, n)
  {
    if n > 0 {
      assert Params(lo, n)[..n - 1] == Params(lo, n - 1);
      ParamNumbers(lo, n - 1);
    }
  }

  /** A call writes one placeholder per argument, numbered on from the ones before; a raw clause brings its own. */
  lemma ClauseNumbers(call: Call, n: int)
    ensures InQuery(Clause(call, n)) == if call.AndRaw? then Placeholders(call.clause) else UpFrom(n, |Bound(call)|)
  {
    if call.AndCursorKeyset? {
      KeysetNumbers(call, n);
    } else if call.AndIn? || call.AndJsonbHasAny? || call.AndJsonbTextIn? {
      AnyNumbers(call, n);
    } else {
      OneNumber(call, n);
    }
  }

  lemma OneNumber(call: Call, n: int)
    requires !call.AndCursorKeyset? && !call.AndIn? && !call.AndJsonbHasAny? && !call.AndJsonbTextIn?
    ensures InQuery(Clause(call, n)) == if call.AndRaw? then Placeholders(call.clause) else UpFrom(n, |Bound(call)|)
  {
    InQueryOne(Clause(call, n)[0]);
    if call.OrderedBy? || call.OrderedByRaw? {
      assert UpFrom(n, 0) == [];
    } else if !call.AndRaw? {
      assert UpFrom(n, 1) == [n];
    }
  }

  lemma AnyNumbers(call: Call, n: int)
    requires call.AndIn? || call.AndJsonbHasAny? || call.AndJsonbTextIn?
    ensures InQuery(Clause(call, n)) == UpFrom(n, |call.values|)
  {
    if call.values != [] {
      InQueryOne(Clause(call, n)[0]);
      ParamNumbers(n, |call.values|);
    }
  }

  lemma KeysetNumbers(call: Call, n: int)
    requires call.AndCursorKeyset?
    ensures InQuery(Clause(call, n)) == UpFrom(n, 3)
  {
    var c := Clause(call, n)[0].condition.inner;
    InQueryOne(Clause(call, n)[0]);
    assert Placeholders(Paren(c)) == Placeholders(c);
    assert Placeholders(c.right) == Placeholders(c.right.left) + Placeholders(c.right.right);
    assert Placeholders(c) == Placeholders(c.left) + Placeholders(c.right);
    assert UpFrom(n, 3) == [n] + ([n + 1] + [n + 2]);
  }

  lemma UpFromAppend(lo: int, a: nat, b: nat)
    ensures UpFrom(lo, a) + UpFrom(lo + a, b) == UpFrom(lo, a + b)
  {
  }

  /**
   * What one more call adds: some placeholders to the main query, `grown` of them numbered on unless
   * a raw clause brought them, and the same ones to the count query, save from windowing calls.
   */
  lemma AppendedGrows(b: Build, call: Call) returns (own: seq<int>, grown: nat)
    requires b.paramIndex == |b.args| + 1
    ensures Grows(b, Appended(b, call), call, own, grown)
  {
    assert InQuery(b.query) + [] == InQuery(b.query);
    assert InQuery(b.countQuery) + [] == InQuery(b.countQuery);
    AppendedNumbers(b, call);
    if Panics(call) {
      own, grown := [], 0;
    } else {
      own, grown := InQuery(Clause(call, b.paramIndex)), |Bound(call)|;
      ClauseNumbers(call, b.paramIndex);
      OnlyOrderingIsSilent(call, b.paramIndex);
    }
  }

  ghost predicate Grows(b: Build, c: Build, call: Call, own: seq<int>, grown: nat) {
    && c.paramIndex == |c.args| + 1 && |c.args| == |b.args| + grown
    && InQuery(c.query) == InQuery(b.query) + own
    && InQuery(c.countQuery) == InQuery(b.countQuery) + (if Windows(call) then [] else own)
    && (Windows(call) ==> grown > 0)
    && (if call.AndRaw? then own == Placeholders(call.clause) && grown == 0 else own == UpFrom(|b.args| + 1, grown))
  }

  /** Of the calls kept from the count query, those that do not window bind nothing. */
  lemma OnlyOrderingIsSilent(call: Call, n: int)
    ensures MainOnly(call) && !Windows(call) ==> InQuery(Clause(call, n)) == []
    ensures Windows(call) ==> MainOnly(call) && |Bound(call)| > 0 && !Panics(call)
  {
    ClauseNumbers(call, n);
  }

  ghost predicate RawFree(base: Condition, calls: seq<Call>) {
    Placeholders(base) == [] && forall i :: 0 <= i < |calls| && calls[i].AndRaw? ==> Placeholders(calls[i].clause) == []
  }

  lemma AppendedNumbers(b: Build, call: Call)
    ensures InQuery(Appended(b, call).query)
         == if Panics(call) then InQuery(b.query)
            else InQuery(b.query) + InQuery(Clause(call, b.paramIndex))
    ensures InQuery(Appended(b, call).countQuery) ==
            if Panics(call) || MainOnly(call) then InQuery(b.countQuery)
            else InQuery(b.countQuery) + InQuery(Clause(call, b.paramIndex))
  {
    InQueryAppend(b.query, Clause(call, b.paramIndex));
    InQueryAppend(b.countQuery, Clause(call, b.paramIndex));
    assert b.countQuery + [] == b.countQuery;
  }

  ghost predicate AllWithin(ns: seq<int>, n: nat) {
    forall i :: 0 <= i < |ns| ==> 1 <= ns[i] <= n
  }

  ghost predicate Windowed(calls: seq<Call>) {
    exists i :: 0 <= i < |calls| && Windows(calls[i])
  }

  lemma WindowedOneMore(calls: seq<Call>)
    requires calls != []
    ensures Windowed(calls) <==> Windowed(calls[..|calls| - 1]) || Windows(calls[|calls| - 1])
  {
    var init := calls[..|calls| - 1];
    if Windowed(init) {
      var i :| 0 <= i < |init| && Windows(init[i]);
      assert Windows(calls[i]);
    }
    if Windowed(calls) && !Windows(calls[|calls| - 1]) {
      var i :| 0 <= i < |calls| && Windows(calls[i]);
      assert Windows(init[i]);
    }
  }

  /** How placeholders and arguments of both queries stand after `calls`. */
  ghost predicate Tallied(b: Build, base: Condition, calls: seq<Call>) {
    && b.paramIndex == |b.args| + 1
    && |InQuery(b.query)| >= |b.args|
    && (|InQuery(b.query)| == |b.args| ==> RawFree(base, calls))
    && (RawFree(base, calls) ==> InQuery(b.query) == UpFrom(1, |b.args|) && CountTallied(b, calls))
    && (!Windowed(calls) ==> InQuery(b.countQuery) == InQuery(b.query))
  }

  ghost predicate CountTallied(b: Build, calls: seq<Call>) {
    && AllWithin(InQuery(b.countQuery), |b.args|)
    && |InQuery(b.countQuery)| <= |b.args|
    && (Windowed(calls) ==> |InQuery(b.countQuery)| < |b.args|)
  }

  lemma RawFreeOneMore(base: Condition, calls: seq<Call>)
    requires calls != []
    ensures var call := calls[|calls| - 1];
      RawFree(base, calls) <==>
        RawFree(base, calls[..|calls| - 1]) && (call.AndRaw? ==> Placeholders(call.clause) == [])
  {
    assert calls == calls[..|calls| - 1] + [calls[|calls| - 1]];
  }

  lemma TallyGrows(b: Build, c: Build, base: Condition, calls: seq<Call>, own: seq<int>, grown: nat)
    requires calls != [] && Tallied(b, base, calls[..|calls| - 1]) && Grows(b, c, calls[|calls| - 1], own, grown)
    ensures Tallied(c, base, calls)
  {
    RawFreeOneMore(base, calls);
    WindowedOneMore(calls);
    if RawFree(base, calls) {
      MainGrows(InQuery(b.query), InQuery(c.query), |b.args|, own, grown);
      CountGrows(b, c, calls, own, grown);
    }
  }

  lemma MainGrows(before: seq<int>, after: seq<int>, n: nat, own: seq<int>, grown: nat)
    requires before == UpFrom(1, n) && own == UpFrom(n + 1, grown) && after == before + own
    ensures after == UpFrom(1, n + grown)
  {
    UpFromAppend(1, n, grown);
  }

  lemma CountGrows(b: Build, c: Build, calls: seq<Call>, own: seq<int>, grown: nat)
    requires calls != [] && CountTallied(b, calls[..|calls| - 1])
    requires Grows(b, c, calls[|calls| - 1], own, grown) && own == UpFrom(|b.args| + 1, grown)
    ensures CountTallied(c, calls)
  {
    WindowedOneMore(calls);
    WithinBoth(InQuery(b.countQuery), if Windows(calls[|calls| - 1]) then [] else own, |c.args|);
  }

  lemma WithinBoth(a: seq<int>, b: seq<int>, n: nat)
    requires AllWithin(a, n) && AllWithin(b, n)
    ensures AllWithin(a + b, n)
  {
  }

  lemma {:induction false} BuiltTallied(base: Condition, calls: seq<Call>)
    ensures Tallied(Built(base, calls), base, calls)
  {
    if calls == [] {
      InQueryOne(Where(base));
    } else {
      var init := calls[..|calls| - 1];
      BuiltTallied(base, init);
      var own, grown := AppendedGrows(Built(base, init), calls[|calls| - 1]);
      TallyGrows(Built(base, init), Built(base, calls), base, calls, own, grown);
    }
  }

  /**
   * Through any chain of calls the placeholders are $1..$n in argument order, exactly when neither
   * the base query nor a raw clause brings placeholders of its own.
   */
  lemma PlaceholdersInOrderIff(base: Condition, calls: seq<Call>)
    ensures var b := Built(base, calls); InQuery(b.query) == UpFrom(1, |b.args|) <==> RawFree(base, calls)
  {
    BuiltTallied(base, calls);
  }

  /**
   * The arguments fit the count query, one per placeholder, exactly when no cursor, limit or offset
   * was added: those bind arguments that the count query has no placeholder for.
   */
  lemma CountQueryFitsIff(base: Condition, calls: seq<Call>)
    requires RawFree(base, calls)
    ensures var b := Built(base, calls); InQuery(b.countQuery) == UpFrom(1, |b.args|) <==> !Windowed(calls)
  {
    BuiltTallied(base, calls);
  }

  // ---- The built query means what the calls asked for ----

  lemma {:induction false} NumbersAt(xs: seq<Operand>, n: nat, i: nat)
    requires AllWithin(AllNumbers(xs), n) && i < |xs|
    ensures xs[i].Param? ==> 1 <= xs[i].number <= n
  {
    var init, last := AllNumbers(xs[..|xs| - 1]), Numbers(xs[|xs| - 1]);
    if i < |xs| - 1 {
      assert forall k :: 0 <= k < |init| ==> (init + last)[k] == init[k];
      NumbersAt(xs[..|xs| - 1], n, i);
    } else if last != [] {
      assert (init + last)[|init|] == last[0];
    }
  }

  /** Binding further arguments does not disturb a condition that only uses the earlier ones. */
  lemma {:induction false} LaterArgsDoNotMatter(c: Condition, args: seq<Value>, more: seq<Value>, row: Row)
    requires AllWithin(Placeholders(c), |args|)
    ensures Holds(c, args + more, row) == Holds(c, args, row)
  {
    match c
    case Always =>
    case Test(f, op, x) =>
      if x.Param? { assert Placeholders(c)[0] == x.number; }
    case AnyOf(f, op, xs) =>
      forall i | 0 <= i < |xs| ensures TestHolds(row, f, op, xs[i], args + more) == TestHolds(row, f, op, xs[i], args) {
        NumbersAt(xs, |args|, i);
      }
    case And(l, r) =>
      WithinParts(Placeholders(l), Placeholders(r), |args|);
      LaterArgsDoNotMatter(l, args, more, row);
      LaterArgsDoNotMatter(r, args, more, row);
    case Or(l, r) =>
      WithinParts(Placeholders(l), Placeholders(r), |args|);
      LaterArgsDoNotMatter(l, args, more, row);
      LaterArgsDoNotMatter(r, args, more, row);
    case Paren(inner) => LaterArgsDoNotMatter(inner, args, more, row);
  }

  lemma WithinParts(a: seq<int>, b: seq<int>, n: nat)
    requires AllWithin(a + b, n)
    ensures AllWithin(a, n) && AllWithin(b, n)
  {
    assert forall k :: 0 <= k < |a| ==> (a + b)[k] == a[k];
    assert forall k :: 0 <= k < |b| ==> (a + b)[|a| + k] == b[k];
  }

  lemma {:induction false} SelectsLater(q: Query, args: seq<Value>, more: seq<Value>, row: Row)
    requires AllWithin(InQuery(q), |args|)
    ensures Selects(q, args + more, row) == Selects(q, args, row)
  {
    if q != [] {
      var init, last := q[..|q| - 1], q[|q| - 1];
      WithinParts(InQuery(init), InFragment(last), |args|);
      SelectsLater(init, args, more, row);
      SelectsAppend(init, [last], args + more, row);
      SelectsAppend(init, [last], args, row);
      assert q == init + [last];
      if last.Where? { LaterArgsDoNotMatter(last.condition, args, more, row); }
    }
  }

  lemma SelectsOne(f: Fragment, args: seq<Value>, row: Row)
    ensures Selects([f], args, row) <==> (f.Where? ==> Holds(f.condition, args, row))
  {
    assert Selects([f], args, row) ==> (f.Where? ==> Holds([f][0].condition, args, row));
  }

  lemma SelectsAppend(a: Query, b: Query, args: seq<Value>, row: Row)
    ensures Selects(a + b, args, row) <==> Selects(a, args, row) && Selects(b, args, row)
  {
    if Selects(a + b, args, row) {
      forall i | 0 <= i < |a| && a[i].Where? ensures Holds(a[i].condition, args, row) {
        assert (a + b)[i] == a[i];
      }
      forall i | 0 <= i < |b| && b[i].Where? ensures Holds(b[i].condition, args, row) {
        assert (a + b)[|a| + i] == b[i];
      }
    }
  }

  /** A call's clause, read with its arguments bound, says what the call means. */
  lemma ClauseMeans(call: Call, args: seq<Value>, row: Row)
    requires call.AndRaw? ==> Placeholders(call.clause) == []
    ensures Selects(Clause(call, |args| + 1), args + Bound(call), row) <==> Meaning(call, row)
  {
    var all, n := args + Bound(call), |args| + 1;
    if call.AndRaw? {
      LaterArgsDoNotMatter(call.clause, [], args, row);
      assert [] + args == all;
      SelectsOne(Where(call.clause), all, row);
    } else if call.AndCursorKeyset? {
      var c := Clause(call, n)[0].condition.inner;
      SelectsOne(Clause(call, n)[0], all, row);
      assert Holds(Paren(c), all, row) <==> Holds(c, all, row);
      assert Holds(c.right, all, row) <==> Holds(c.right.left, all, row) && Holds(c.right.right, all, row);
      assert Holds(c, all, row) <==> Holds(c.left, all, row) || Holds(c.right, all, row);
      assert all[n - 1] == call.valA && all[n] == call.valA && all[n + 1] == call.valB;
    } else if call.AndIn? || call.AndJsonbHasAny? || call.AndJsonbTextIn? {
      AnyMeans(call, args, row);
    } else {
      SelectsOne(Clause(call, n)[0], all, row);
      if Clause(call, n)[0].Where? { assert all[n - 1] == call.value; }
    }
  }

  /** A list condition over fresh placeholders holds when one of the values passes. */
  lemma AnyOfMeans(f: Field, op: Operator, vs: seq<Value>, args: seq<Value>, row: Row)
    ensures Holds(AnyOf(f, op, Params(|args| + 1, |vs|)), args + vs, row)
      <==> exists v :: v in vs && Passes(row, f, op, v)
  {
    var xs, all := Params(|args| + 1, |vs|), args + vs;
    forall i | 0 <= i < |vs| ensures TestHolds(row, f, op, xs[i], all) == Passes(row, f, op, vs[i]) {
      assert all[|args| + i] == vs[i];
    }
    if i :| 0 <= i < |xs| && TestHolds(row, f, op, xs[i], all) {
      assert vs[i] in vs && Passes(row, f, op, vs[i]);
    } else {
      forall v | v in vs ensures !Passes(row, f, op, v) {
        var i :| 0 <= i < |vs| && vs[i] == v;
        assert !TestHolds(row, f, op, xs[i], all);
      }
    }
  }

  lemma AnyMeans(call: Call, args: seq<Value>, row: Row)
    requires call.AndIn? || call.AndJsonbHasAny? || call.AndJsonbTextIn?
    ensures Selects(Clause(call, |args| + 1), args + Bound(call), row) <==> Meaning(call, row)
  {
    if call.values != [] {
      SelectsOne(Clause(call, |args| + 1)[0], args + call.values, row);
      var c := Clause(call, |args| + 1)[0].condition;
      AnyOfMeans(c.field, c.op, call.values, args, row);
    }
  }

  predicate AllAsked(calls: seq<Call>, row: Row, counting: bool) {
    forall i :: 0 <= i < |calls| && !Panics(calls[i]) && !(counting && MainOnly(calls[i])) ==> Meaning(calls[i], row)
  }

  ghost predicate AsksMore(b: Build, c: Build, call: Call, row: Row) {
    && (Selects(c.query, c.args, row) <==> Selects(b.query, b.args, row) && (!Panics(call) ==> Meaning(call, row)))
    && (Selects(c.countQuery, c.args, row) <==>
        Selects(b.countQuery, b.args, row) && (!Panics(call) && !MainOnly(call) ==> Meaning(call, row)))
  }

  /** One more call asks one more thing of the rows, and nothing else changes. */
  lemma AppendedMeans(b: Build, call: Call, row: Row)
    requires b.paramIndex == |b.args| + 1 && AllWithin(InQuery(b.query), |b.args|)
    requires AllWithin(InQuery(b.countQuery), |b.args|)
    requires call.AndRaw? ==> Placeholders(call.clause) == []
    ensures AsksMore(b, Appended(b, call), call, row)
  {
    var text, args := Clause(call, b.paramIndex), b.args + Bound(call);
    SelectsLater(b.query, b.args, Bound(call), row);
    SelectsLater(b.countQuery, b.args, Bound(call), row);
    SelectsAppend(b.query, text, args, row);
    SelectsAppend(b.countQuery, text, args, row);
    ClauseMeans(call, b.args, row);
    assert b.countQuery + [] == b.countQuery;
  }

  lemma BuiltWithin(base: Condition, calls: seq<Call>)
    requires RawFree(base, calls)
    ensures Within(Built(base, calls))
  {
    BuiltTallied(base, calls);
    TalliedIsWithin(Built(base, calls), base, calls);
  }

  /** Both queries use only arguments that are bound. */
  ghost predicate Within(b: Build) {
    && b.paramIndex == |b.args| + 1
    && AllWithin(InQuery(b.query), |b.args|) && AllWithin(InQuery(b.countQuery), |b.args|)
  }

  lemma TalliedIsWithin(b: Build, base: Condition, calls: seq<Call>)
    requires RawFree(base, calls) && Tallied(b, base, calls)
    ensures Within(b)
  {
  }

  /** Both queries select the rows that satisfy the base and the calls. */
  ghost predicate Means(b: Build, base: Condition, calls: seq<Call>, row: Row) {
    && (Selects(b.query, b.args, row) <==> Holds(base, [], row) && AllAsked(calls, row, false))
    && (Selects(b.countQuery, b.args, row) <==> Holds(base, [], row) && AllAsked(calls, row, true))
  }

  lemma MeansOneMore(b: Build, c: Build, base: Condition, calls: seq<Call>, row: Row)
    requires calls != [] && Means(b, base, calls[..|calls| - 1], row) && AsksMore(b, c, calls[|calls| - 1], row)
    ensures Means(c, base, calls, row)
  {
    var init, call := calls[..|calls| - 1], calls[|calls| - 1];
    AskedOneMore(init, call, row, false);
    AskedOneMore(init, call, row, true);
    assert calls == init + [call];
  }

  /**
   * The built queries, run with the built arguments, select exactly the rows that satisfy every
   * call; the count query leaves the cursor out.
   */
  lemma {:induction false} BuiltMeansCalls(base: Condition, calls: seq<Call>, row: Row)
    requires RawFree(base, calls)
    ensures Means(Built(base, calls), base, calls, row)
  {
    if calls == [] {
      SelectsOne(Where(base), [], row);
    } else {
      var init := calls[..|calls| - 1];
      RawFreeOneMore(base, calls);
      BuiltMeansCalls(base, init, row);
      BuiltTallied(base, init);
      AppendedMeans(Built(base, init), calls[|calls| - 1], row);
      MeansOneMore(Built(base, init), Built(base, calls), base, calls, row);
    }
  }

  lemma AskedOneMore(init: seq<Call>, call: Call, row: Row, counting: bool)
    ensures AllAsked(init + [call], row, counting) <==>
            AllAsked(init, row, counting) && (!Panics(call) && !(counting && MainOnly(call)) ==> Meaning(call, row))
  {
    var calls := init + [call];
    assert calls[|init|] == call;
    assert forall i :: 0 <= i < |init| ==> calls[i] == init[i];
  }

  // ---- What the text says ----

  type Alternatives = seq<seq<Condition>>

  /** The text of a condition, read by precedence: alternatives between ORs, factors between ANDs. */
  function Groups(c: Condition): (g: Alternatives)
    ensures g != []
  {
    match c
    case Or(l, r) => Groups(l) + Groups(r)
    case And(l, r) => Joined(Groups(l), Groups(r))
    case _ => [[c]]
  }

  /** Two texts with AND between them: it binds the last alternative of one to the first of the other. */
  function Joined(a: Alternatives, b: Alternatives): (g: Alternatives)
    requires a != [] && b != []
    ensures g != [] && |g| == |a| + |b| - 1
  {
    a[..|a| - 1] + [a[|a| - 1] + b[0]] + b[1..]
  }

  /** The clauses of a query, appended one after another without parentheses. */
  function TextGroups(q: Query): (g: Alternatives)
    ensures g != []
  {
    if q == [] then [[]]
    else
      var before, last := TextGroups(q[..|q| - 1]), q[|q| - 1];
      if last.Where? then Joined(before, Groups(last.condition)) else before
  }

  predicate AllHold(factors: seq<Condition>, args: seq<Value>, row: Row) {
    forall i :: 0 <= i < |factors| ==> Holds(factors[i], args, row)
  }

  /** The rows that the text of a query selects. */
  predicate TextSelects(q: Query, args: seq<Value>, row: Row) {
    exists i :: 0 <= i < |TextGroups(q)| && AllHold(TextGroups(q)[i], args, row)
  }

  /** No OR outside parentheses. */
  predicate OneGroup(c: Condition) { |Groups(c)| == 1 }

  ghost predicate OneGroupEach(q: Query) {
    forall i :: 0 <= i < |q| && q[i].Where? ==> OneGroup(q[i].condition)
  }

  lemma AllHoldAppend(a: seq<Condition>, b: seq<Condition>, args: seq<Value>, row: Row)
    ensures AllHold(a + b, args, row) <==> AllHold(a, args, row) && AllHold(b, args, row)
  {
    if AllHold(a + b, args, row) {
      forall i | 0 <= i < |a| ensures Holds(a[i], args, row) { assert (a + b)[i] == a[i]; }
      forall i | 0 <= i < |b| ensures Holds(b[i], args, row) { assert (a + b)[|a| + i] == b[i]; }
    }
  }

  lemma AllHoldOne(c: Condition, args: seq<Value>, row: Row)
    ensures AllHold([c], args, row) <==> Holds(c, args, row)
  {
    assert [c][0] == c;
  }

  lemma {:induction false} OneGroupHolds(c: Condition, args: seq<Value>, row: Row)
    requires OneGroup(c)
    ensures AllHold(Groups(c)[0], args, row) <==> Holds(c, args, row)
  {
    assert c.Or? ==> |Groups(c)| == |Groups(c.left)| + |Groups(c.right)|;
    match c
    case And(l, r) =>
      assert |Groups(c)| == |Groups(l)| + |Groups(r)| - 1;
      OneGroupHolds(l, args, row);
      OneGroupHolds(r, args, row);
      AllHoldAppend(Groups(l)[0], Groups(r)[0], args, row);
      assert Groups(c)[0] == Groups(l)[0] + Groups(r)[0];
    case Or(l, r) =>
    case _ => AllHoldOne(c, args, row);
  }

  /** Without ORs outside parentheses the text has one alternative, and it asks for every clause. */
  lemma {:induction false} TextIsClauses(q: Query, args: seq<Value>, row: Row)
    requires OneGroupEach(q)
    ensures |TextGroups(q)| == 1 && (AllHold(TextGroups(q)[0], args, row) <==> Selects(q, args, row))
  {
    if q != [] {
      var init, last := q[..|q| - 1], q[|q| - 1];
      TextIsClauses(init, args, row);
      SelectsAppend(init, [last], args, row);
      SelectsOne(last, args, row);
      assert q == init + [last];
      if last.Where? {
        OneGroupHolds(last.condition, args, row);
        AllHoldAppend(TextGroups(init)[0], Groups(last.condition)[0], args, row);
        assert TextGroups(q)[0] == TextGroups(init)[0] + Groups(last.condition)[0];
      }
    }
  }

  /** Then the text selects exactly the rows that satisfy every clause. */
  lemma TextSelectsClauses(q: Query, args: seq<Value>, row: Row)
    requires OneGroupEach(q)
    ensures TextSelects(q, args, row) <==> Selects(q, args, row)
  {
    TextIsClauses(q, args, row);
    if AllHold(TextGroups(q)[0], args, row) { assert TextSelects(q, args, row); }
  }

  ghost predicate RawsOneGroup(base: Condition, calls: seq<Call>) {
    OneGroup(base) && forall i :: 0 <= i < |calls| && calls[i].AndRaw? ==> OneGroup(calls[i].clause)
  }

  lemma {:induction false} BuiltOneGroupEach(base: Condition, calls: seq<Call>)
    requires RawsOneGroup(base, calls)
    ensures OneGroupEach(Built(base, calls).query) && OneGroupEach(Built(base, calls).countQuery)
  {
    if calls != [] {
      var init, call := calls[..|calls| - 1], calls[|calls| - 1];
      BuiltOneGroupEach(base, init);
      ClauseOneGroup(call, Built(base, init).paramIndex);
    }
  }

  lemma ClauseOneGroup(call: Call, n: int)
    requires call.AndRaw? ==> OneGroup(call.clause)
    ensures OneGroupEach(Clause(call, n))
  {
  }

  /**
   * The text that any chain of calls builds means what the calls asked for, as long as base and raw
   * clauses put their ORs in parentheses; the builder puts its own there.
   */
  lemma TextMeansCalls(base: Condition, calls: seq<Call>, row: Row)
    requires RawFree(base, calls) && RawsOneGroup(base, calls)
    ensures var b := Built(base, calls);
      TextSelects(b.query, b.args, row) <==> Holds(base, [], row) && AllAsked(calls, row, false)
  {
    BuiltOneGroupEach(base, calls);
    TextSelectsClauses(Built(base, calls).query, Built(base, calls).args, row);
    BuiltMeansCalls(base, calls, row);
  }

  lemma {:induction false} TextGroupsAppend(a: Query, b: Query)
    ensures TextGroups(a + b) == Joined(TextGroups(a), TextGroups(b))
  {
    if b == [] {
      assert a + b == a;
      assert TextGroups(a)[|TextGroups(a)| - 1] + [] == TextGroups(a)[|TextGroups(a)| - 1];
    } else {
      var init, last := b[..|b| - 1], b[|b| - 1];
      TextGroupsAppend(a, init);
      assert (a + b)[..|a + b| - 1] == a + init && (a + b)[|a + b| - 1] == last;
      if last.Where? { JoinedAssociates(TextGroups(a), TextGroups(init), Groups(last.condition)); }
    }
  }

  lemma JoinedAssociates(a: Alternatives, b: Alternatives, c: Alternatives)
    requires a != [] && b != [] && c != []
    ensures Joined(Joined(a, b), c) == Joined(a, Joined(b, c))
  {
    var last, first := a[|a| - 1], c[0];
    if |b| == 1 {
      assert (last + b[0]) + first == last + (b[0] + first);
      assert Joined(Joined(a, b), c) == a[..|a| - 1] + [last + b[0] + first] + c[1..];
      assert Joined(a, Joined(b, c)) == a[..|a| - 1] + [last + b[0] + first] + c[1..];
    } else {
      var middle := b[1..|b| - 1];
      assert Joined(a, b) == a[..|a| - 1] + [last + b[0]] + middle + [b[|b| - 1]];
      assert Joined(b, c) == [b[0]] + middle + [b[|b| - 1] + first] + c[1..];
      assert Joined(Joined(a, b), c) == a[..|a| - 1] + [last + b[0]] + middle + [b[|b| - 1] + first] + c[1..];
      assert Joined(a, Joined(b, c)) == a[..|a| - 1] + [last + b[0]] + middle + [b[|b| - 1] + first] + c[1..];
    }
  }

  /**
   * An OR that a raw clause leaves outside parentheses regroups the whole query: what stands before it
   * is asked of its left side only, and what is appended after it of its right side only.
   */
  lemma RawOrRegroups(a: Query, l: Condition, r: Condition, b: Query, args: seq<Value>, row: Row)
    requires OneGroupEach(a) && OneGroup(l) && OneGroup(r) && OneGroupEach(b)
    ensures TextSelects(a + ([Where(Or(l, r))] + b), args, row)
      <==> (Selects(a, args, row) && Holds(l, args, row)) || (Holds(r, args, row) && Selects(b, args, row))
  {
    var q := a + ([Where(Or(l, r))] + b);
    TextGroupsAppend(a, [Where(Or(l, r))] + b);
    TextGroupsAppend([Where(Or(l, r))], b);
    OrGroups(l, r);
    TextIsClauses(a, args, row);
    TextIsClauses(b, args, row);
    OneGroupHolds(l, args, row);
    OneGroupHolds(r, args, row);
    var before, left, right, after := TextGroups(a)[0], Groups(l)[0], Groups(r)[0], TextGroups(b)[0];
    assert TextGroups(q) == [before + left, right + after];
    AllHoldAppend(before, left, args, row);
    AllHoldAppend(right, after, args, row);
    assert TextGroups(q)[0] == before + left && TextGroups(q)[1] == right + after;
  }

  lemma OrGroups(l: Condition, r: Condition)
    requires OneGroup(l) && OneGroup(r)
    ensures TextGroups([Where(Or(l, r))]) == [Groups(l)[0], Groups(r)[0]]
  {
    assert [Where(Or(l, r))][..0] == [];
    assert Groups(Or(l, r)) == [Groups(l)[0], Groups(r)[0]];
    assert [] + Groups(l)[0] == Groups(l)[0];
  }

  /** So such a text selects a row wrongly exactly when one side holds without what stands on the far side of the OR. */
  lemma RawOrIsWrongIff(a: Query, l: Condition, r: Condition, b: Query, args: seq<Value>, row: Row)
    requires OneGroupEach(a) && OneGroup(l) && OneGroup(r) && OneGroupEach(b)
    ensures var q := a + ([Where(Or(l, r))] + b);
      var before, after := Selects(a, args, row), Selects(b, args, row);
      (TextSelects(q, args, row) != Selects(q, args, row))
        <==> ((before && Holds(l, args, row) && !after) || (Holds(r, args, row) && after && !before))
  {
    RawOrRegroups(a, l, r, b, args, row);
    SelectsAppend(a, [Where(Or(l, r))] + b, args, row);
    SelectsAppend([Where(Or(l, r))], b, args, row);
    SelectsOne(Where(Or(l, r)), args, row);
  }

  // ---- When the text is a query at all ----

  datatype Kind = Filtering | Ordering | Limiting | Offsetting

  function Phase(k: Kind): nat {
    match k
    case Filtering => 0
    case Ordering => 1
    case _ => 2
  }

  function KindOf(f: Fragment): Kind {
    match f
    case Where(_) => Filtering
    case OrderBy(_, _, _) => Ordering
    case Limit(_) => Limiting
    case Offset(_) => Offsetting
  }

  /** `k` may come after `earlier`: conditions, then one order, then one limit and one offset. */
  predicate MayFollow(k: Kind, earlier: Kind) {
    Phase(earlier) <= Phase(k) && (earlier == k ==> k == Filtering)
  }

  ghost predicate IsStatement(q: Query) {
    forall i, j :: 0 <= i < j < |q| ==> MayFollow(KindOf(q[j]), KindOf(q[i]))
  }

  /** The calls that append nothing: refused ones, and lists without values. */
  predicate Silent(call: Call) {
    Panics(call) || ((call.AndIn? || call.AndJsonbHasAny? || call.AndJsonbTextIn?) && call.values == [])
  }

  function KindOfCall(call: Call): Kind {
    if call.OrderedBy? || call.OrderedByRaw? then Ordering
    else if call.Limited? then Limiting
    else if call.Skipping? then Offsetting
    else Filtering
  }

  /** Filters first, then one order, then a limit and an offset. */
  ghost predicate InClauseOrder(calls: seq<Call>) {
    forall i, j :: 0 <= i < j < |calls| && !Silent(calls[i]) && !Silent(calls[j]) ==>
      MayFollow(KindOfCall(calls[j]), KindOfCall(calls[i]))
  }

  ghost predicate HasKind(q: Query, k: Kind) {
    exists i :: 0 <= i < |q| && KindOf(q[i]) == k
  }

  ghost predicate Calls(calls: seq<Call>, k: Kind) {
    exists i :: 0 <= i < |calls| && !Silent(calls[i]) && KindOfCall(calls[i]) == k
  }

  lemma ClauseKind(call: Call, n: int)
    requires !Panics(call)
    ensures if Silent(call) then Clause(call, n) == []
            else |Clause(call, n)| == 1 && KindOf(Clause(call, n)[0]) == KindOfCall(call)
  {
  }

  lemma HasKindOneMore(q: Query, f: Fragment, k: Kind)
    ensures HasKind(q + [f], k) <==> HasKind(q, k) || KindOf(f) == k
  {
    var r := q + [f];
    assert r[|q|] == f;
    if i :| 0 <= i < |q| && KindOf(q[i]) == k { assert KindOf(r[i]) == k; }
    if i :| 0 <= i < |r| && KindOf(r[i]) == k { assert i < |q| ==> KindOf(q[i]) == k; }
  }

  lemma CallsOneMore(calls: seq<Call>, k: Kind)
    requires calls != []
    ensures var call := calls[|calls| - 1];
      Calls(calls, k) <==> Calls(calls[..|calls| - 1], k) || (!Silent(call) && KindOfCall(call) == k)
  {
    var init := calls[..|calls| - 1];
    if i :| 0 <= i < |init| && !Silent(init[i]) && KindOfCall(init[i]) == k { assert calls[i] == init[i]; }
    if i :| 0 <= i < |calls| && !Silent(calls[i]) && KindOfCall(calls[i]) == k {
      assert i < |init| ==> init[i] == calls[i];
    }
  }

  /** Which kinds of fragment there are, and whether they are in order, can be told from the calls. */
  ghost predicate KindsTell(q: Query, calls: seq<Call>) {
    && (forall k :: HasKind(q, k) <==> k == Filtering || Calls(calls, k))
    && (IsStatement(q) <==> InClauseOrder(calls))
  }

  lemma StatementOneMore(q: Query, f: Fragment)
    ensures IsStatement(q + [f]) <==> IsStatement(q) && forall k :: HasKind(q, k) ==> MayFollow(KindOf(f), k)
  {
    var r := q + [f];
    assert forall i :: 0 <= i < |q| ==> r[i] == q[i];
    assert r[|q|] == f;
    if IsStatement(r) {
      forall i, j | 0 <= i < j < |q| ensures MayFollow(KindOf(q[j]), KindOf(q[i])) {
        assert MayFollow(KindOf(r[j]), KindOf(r[i]));
      }
      forall k | HasKind(q, k) ensures MayFollow(KindOf(f), k) {
        var i :| 0 <= i < |q| && KindOf(q[i]) == k;
        assert MayFollow(KindOf(r[|q|]), KindOf(r[i]));
      }
    } else if IsStatement(q) {
      var i, j :| 0 <= i < j < |r| && !MayFollow(KindOf(r[j]), KindOf(r[i]));
      assert j == |q| && HasKind(q, KindOf(q[i]));
    }
  }

  lemma OrderOneMore(calls: seq<Call>)
    requires calls != []
    ensures var init, call := calls[..|calls| - 1], calls[|calls| - 1];
      InClauseOrder(calls) <==>
        InClauseOrder(init) && (Silent(call) || forall k :: Calls(init, k) ==> MayFollow(KindOfCall(call), k))
  {
    var init, call := calls[..|calls| - 1], calls[|calls| - 1];
    assert forall i :: 0 <= i < |init| ==> calls[i] == init[i];
    if InClauseOrder(calls) && !Silent(call) {
      forall k | Calls(init, k) ensures MayFollow(KindOfCall(call), k) {
        var i :| 0 <= i < |init| && !Silent(init[i]) && KindOfCall(init[i]) == k;
        assert MayFollow(KindOfCall(calls[|init|]), KindOfCall(calls[i]));
      }
    }
    if InClauseOrder(init) && !InClauseOrder(calls) {
      var i, j :| 0 <= i < j < |calls| && !Silent(calls[i]) && !Silent(calls[j])
                  && !MayFollow(KindOfCall(calls[j]), KindOfCall(calls[i]));
      assert j == |init| && Calls(init, KindOfCall(init[i]));
    }
  }

  lemma KindsOneMore(b: Build, calls: seq<Call>)
    requires calls != [] && KindsTell(b.query, calls[..|calls| - 1])
    ensures KindsTell(Appended(b, calls[|calls| - 1]).query, calls)
  {
    var call := calls[|calls| - 1];
    OrderOneMore(calls);
    forall k ensures Calls(calls, k) <==> Calls(calls[..|calls| - 1], k) || (!Silent(call) && KindOfCall(call) == k) {
      CallsOneMore(calls, k);
    }
    if !Panics(call) { ClauseKind(call, b.paramIndex); }
    if Silent(call) {
      assert Appended(b, call).query == b.query;
    } else {
      var f := Clause(call, b.paramIndex)[0];
      assert Appended(b, call).query == b.query + [f];
      StatementOneMore(b.query, f);
      forall k ensures HasKind(b.query + [f], k) <==> HasKind(b.query, k) || KindOf(f) == k {
        HasKindOneMore(b.query, f, k);
      }
    }
  }

  lemma {:induction false} BuiltKinds(base: Condition, calls: seq<Call>)
    ensures KindsTell(Built(base, calls).query, calls)
  {
    if calls == [] {
      assert KindOf([Where(base)][0]) == Filtering;
    } else {
      BuiltKinds(base, calls[..|calls| - 1]);
      KindsOneMore(Built(base, calls[..|calls| - 1]), calls);
    }
  }

  /**
   * The text is a query at all exactly when no filter comes after ordering or window, and none of these
   * comes twice.
   */
  lemma StatementIff(base: Condition, calls: seq<Call>)
    ensures IsStatement(Built(base, calls).query) <==> InClauseOrder(calls)
  {
    BuiltKinds(base, calls);
  }

  // ---- Dotted paths ----

  lemma {:induction false} SplitNotEmpty(s: string)
    ensures Split(s) != []
    ensures Split(s) == [s] <==> '.' !in s
  {
    if s != [] {
      var rest := Split(s[1..]);
      SplitNotEmpty(s[1..]);
      assert s == [s[0]] + s[1..];
      assert rest == [rest[0]] + rest[1..];
      if s[0] == '.' {
        assert |Split(s)| > 1;
      } else {
        assert Split(s) == [[s[0]] + rest[0]] + rest[1..];
        if Split(s) == [s] {
          assert Split(s)[0] == [s[0]] + rest[0];
          assert rest[0] == s[1..];
          assert |rest| == 1;
        }
      }
    }
  }

  /**
   * Asking for one text by equality and asking for it in a list of one are the same filter exactly
   * when the path has no dot: the equality form does not follow dotted paths.
   */
  lemma TextEqIsTextInIff(column: string, path: string, value: Value)
    ensures (forall row: Row ::
               Meaning(AndJsonbTextEq(column, path, value), row) == Meaning(AndJsonbTextIn(column, path, [value]), row))
            <==> '.' !in path
  {
    SplitNotEmpty(path);
    var one: Row := map[Field(column, [path]) := value];
    assert Meaning(AndJsonbTextEq(column, path, value), one);
    forall row: Row
      ensures Meaning(AndJsonbTextIn(column, path, [value]), row) ==
        Passes(row, Field(column, Split(path)), Equal, value)
    {
      assert value in [value];
    }
    assert Meaning(AndJsonbTextIn(column, path, [value]), one) <==> Split(path) == [path];
  }

  // ---- What the calls say of the row's own values ----

  /** The parts with a dot between each two. */
  function Join(parts: seq<string>): string
    requires parts != []
  {
    if |parts| == 1 then parts[0] else parts[0] + "." + Join(parts[1..])
  }

  ghost predicate DotFree(parts: seq<string>) {
    forall i :: 0 <= i < |parts| ==> '.' !in parts[i]
  }

  /** Splitting a path loses nothing: its parts have no dots, and joined they are the path again. */
  lemma {:induction false} JoinOfSplit(s: string)
    ensures Split(s) != [] && DotFree(Split(s)) && Join(Split(s)) == s
  {
    if s != [] {
      JoinOfSplit(s[1..]);
      var rest, parts := Split(s[1..]), Split(s);
      if s[0] == '.' {
        assert parts == [[]] + rest && parts[1..] == rest;
        assert forall i :: 1 <= i < |parts| ==> parts[i] == rest[i - 1];
        assert s == "." + s[1..];
      } else {
        assert parts == [[s[0]] + rest[0]] + rest[1..] && parts[1..] == rest[1..];
        assert '.' !in rest[0];
        assert forall i :: 1 <= i < |parts| ==> parts[i] == rest[i];
        assert s == [s[0]] + s[1..];
      }
    }
  }

  /** Any parts without dots are what their path is split into. */
  lemma {:induction false} SplitOfJoin(parts: seq<string>)
    requires parts != [] && DotFree(parts)
    ensures Split(Join(parts)) == parts
  {
    if |parts| == 1 {
      SplitNotEmpty(parts[0]);
      assert parts == [parts[0]];
    } else {
      SplitOfJoin(parts[1..]);
      SplitPrefix(parts[0], "." + Join(parts[1..]));
      assert parts[0] + ("." + Join(parts[1..])) == Join(parts);
      assert ("." + Join(parts[1..]))[1..] == Join(parts[1..]);
      assert Split("." + Join(parts[1..])) == [[]] + parts[1..];
      assert parts[0] + [] == parts[0] && [parts[0]] + parts[1..] == parts;
    }
  }

  lemma {:induction false} SplitPrefix(a: string, b: string)
    requires '.' !in a
    ensures Split(b) != [] && Split(a + b) == [a + Split(b)[0]] + Split(b)[1..]
  {
    SplitNotEmpty(b);
    if a == [] {
      assert a + b == b && a + Split(b)[0] == Split(b)[0];
      assert Split(b) == [Split(b)[0]] + Split(b)[1..];
    } else {
      SplitPrefix(a[1..], b);
      assert (a + b)[1..] == a[1..] + b && (a + b)[0] == a[0];
      assert [a[0]] + (a[1..] + Split(b)[0]) == a + Split(b)[0];
    }
  }

  /** The numeric conditions on a column, said of the row's number. */
  lemma NumbersAsked(row: Row, c: string, x: real, y: real)
    requires Field(c, []) in row && row[Field(c, [])] == Number(x)
    ensures Meaning(AndEq(c, Number(y)), row) <==> x == y
    ensures Meaning(AndGte(c, Number(y)), row) <==> x >= y
    ensures Meaning(AndLte(c, Number(y)), row) <==> x <= y
    ensures Meaning(AndLt(c, Number(y)), row) <==> x < y
  {
  }

  /** The conditions on a text column, said of the row's text. */
  lemma TextsAsked(row: Row, c: string, x: int, y: int, ys: seq<Value>, matches: set<int>)
    requires Field(c, []) in row && row[Field(c, [])] == Text(x)
    ensures Meaning(AndEq(c, Text(y)), row) <==> x == y
    ensures Meaning(AndIn(c, ys), row) <==> ys == [] || Text(x) in ys
    ensures Meaning(AndILike(c, Pattern(matches)), row) <==> x in matches
    ensures Meaning(AndGte(c, Text(y)), row) <==> x >= y
    ensures Meaning(AndLte(c, Text(y)), row) <==> x <= y
    ensures Meaning(AndLt(c, Text(y)), row) <==> x < y
  {
  }

  /** The conditions on what a JSON path leads to: the path is split at its dots, except for equality with one text. */
  lemma PathsAsked(row: Row, c: string, parts: seq<string>, tags: set<int>, x: int, y: int, ys: seq<Value>)
    requires parts != [] && DotFree(parts)
    ensures var at := Field(c, parts); at in row && row[at] == Tags(tags) ==>
      && (Meaning(AndJsonbHasAny(c, Join(parts), ys), row) <==> ys == [] || exists t :: t in tags && Text(t) in ys)
      && (Meaning(AndJsonbArrayContains(c, Join(parts), Text(y)), row) <==> y in tags)
    ensures var at := Field(c, parts); at in row && row[at] == Text(x) ==>
      (Meaning(AndJsonbTextIn(c, Join(parts), ys), row) <==> ys == [] || Text(x) in ys)
    ensures var at := Field(c, [Join(parts)]); at in row && row[at] == Text(x) ==>
      (Meaning(AndJsonbTextEq(c, Join(parts), Text(y)), row) <==> x == y)
  {
    SplitOfJoin(parts);
    var at := Field(c, parts);
    if at in row && row[at] == Tags(tags) && ys != [] {
      if Meaning(AndJsonbHasAny(c, Join(parts), ys), row) {
        var v :| v in ys && Passes(row, at, HasKey, v);
        assert v == Text(v.rank) && v.rank in tags;
      }
      if t :| t in tags && Text(t) in ys {
        assert Passes(row, at, HasKey, Text(t));
      }
    }
  }

  /** The lists of values that a call takes; an empty one asks for nothing. */
  function ValueLists(call: Call): seq<seq<Value>> {
    match call
    case AndIn(_, vs) => [vs]
    case AndJsonbHasAny(_, _, vs) => [vs]
    case AndJsonbTextIn(_, _, vs) => [vs]
    case _ => []
  }

  /** The names that a call puts into the text and checks first. */
  function CheckedNames(call: Call): seq<string> {
    match call
    case AndJsonbHasAny(c, p, _) => [c, p]
    case AndJsonbTextEq(c, p, _) => [c, p]
    case AndJsonbTextIn(c, p, _) => [c, p]
    case AndJsonbArrayContains(c, p, _) => [c, p]
    case OrderedBy(c, _) => [c]
    case _ => []
  }

  predicate BadChar(ch: char) { !ALPHANUMERIC(ch) && ch != '_' && ch != '.' }

  /** A call is refused exactly for a bad character in a checked name, unless its list of values is empty. */
  lemma RefusedIff(call: Call)
    ensures Panics(call)
      <==> ValueLists(call) != [[]] && exists name, ch :: name in CheckedNames(call) && ch in name && BadChar(ch)
  {
    var names := CheckedNames(call);
    forall name ensures ValidName(name) <==> forall ch :: ch in name ==> !BadChar(ch) {
      ValidNameIff(name);
    }
    assert |names| <= 2 && (names != [] ==>
      forall name :: name in names <==> name == names[0] || name == names[|names| - 1]);
    assert ValueLists(call) == [[]] ==> ValueLists(call)[0] == [];
  }

  lemma ValidNameIff(name: string)
    ensures ValidName(name) <==> forall ch :: ch in name ==> !BadChar(ch)
  {
    if ValidName(name) {
      forall ch | ch in name ensures !BadChar(ch) {
        var i :| 0 <= i < |name| && name[i] == ch;
      }
    } else {
      var i :| 0 <= i < |name| && !NameChar(name[i]);
      assert name[i] in name;
    }
  }

  /** Every condition on a field fails where the field is missing. */
  lemma MissingFails(row: Row, c: string, v: Value, vs: seq<Value>)
    requires Field(c, []) !in row && vs != []
    ensures !Meaning(AndEq(c, v), row) && !Meaning(AndIn(c, vs), row) && !Meaning(AndILike(c, v), row)
    ensures !Meaning(AndGte(c, v), row) && !Meaning(AndLte(c, v), row) && !Meaning(AndLt(c, v), row)
  {
  }
}
