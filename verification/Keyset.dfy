/** Listing messages page by page: by offset, or by a cursor that names the last row seen. */
module Keyset {
  import opened Wrappers
  import opened TimeOrder
  import opened Queries

  const MAX_PER_PAGE: nat := 1000
  const U32: nat := 0x1_0000_0000
  const TIME: Field := Field("time", [])
  const ITEM_HASH: Field := Field("item_hash", [])

  // ---- What the database answers ----

  function Amount(row: Row, f: Field): real {
    if f in row && row[f].Number? then row[f].amount else 0.0
  }

  function Rank(row: Row, f: Field): int {
    if f in row && row[f].Text? then row[f].rank else 0
  }

  /** The sort key of `ORDER BY field {ASC|DESC}, tie ASC`. */
  function OrderKey(field: Field, ascending: bool, tie: seq<Field>): Row -> SortKey {
    (row: Row) => SortKey(
      if ascending then Amount(row, field) else -Amount(row, field),
      if tie == [] then 0 else Rank(row, tie[0]))
  }

  function Selected(q: Query, args: seq<Value>): Row -> bool {
    (row: Row) => TextSelects(q, args, row)
  }

  function Ordered(q: Query, rows: seq<Row>): seq<Row> {
    if q == [] then rows
    else
      match q[|q| - 1]
      case OrderBy(f, asc, tie) => Sort(OrderKey(f, asc, tie), rows)
      case _ => Ordered(q[..|q| - 1], rows)
  }

  function Count(x: Operand, args: seq<Value>): nat {
    if x.Param? && 1 <= x.number <= |args| && args[x.number - 1].Number? && args[x.number - 1].amount >= 0.0
    then args[x.number - 1].amount.Floor else 0
  }

  function LimitOf(q: Query, args: seq<Value>): Option<nat> {
    if q == [] then None
    else if q[|q| - 1].Limit? then Some(Count(q[|q| - 1].operand, args))
    else LimitOf(q[..|q| - 1], args)
  }

  function OffsetOf(q: Query, args: seq<Value>): nat {
    if q == [] then 0
    else if q[|q| - 1].Offset? then Count(q[|q| - 1].operand, args)
    else OffsetOf(q[..|q| - 1], args)
  }

  function Take(rows: seq<Row>, n: nat): seq<Row> {
    if |rows| <= n then rows else rows[..n]
  }

  function Drop(rows: seq<Row>, n: nat): seq<Row> {
    if |rows| <= n then [] else rows[n..]
  }

  function Window(rows: seq<Row>, offset: nat, limit: Option<nat>): seq<Row> {
    if limit.None? then Drop(rows, offset) else Take(Drop(rows, offset), limit.value)
  }

  /** Running a query with its arguments on a table, given in any order. */
  function Execute(q: Query, args: seq<Value>, table: seq<Row>): seq<Row> {
    Window(Ordered(q, Filter(Selected(q, args), table)), OffsetOf(q, args), LimitOf(q, args))
  }

  // ---- Tables and what a listing of them should be ----

  ghost predicate Stored(row: Row) {
    TIME in row && row[TIME].Number? && ITEM_HASH in row && row[ITEM_HASH].Text?
  }

  /** Every message has a time and an item hash of its own. */
  ghost predicate MessageTable(table: seq<Row>) {
    && (forall i :: 0 <= i < |table| ==> Stored(table[i]))
    && (forall i, j :: 0 <= i < j < |table| ==> table[i][ITEM_HASH] != table[j][ITEM_HASH])
  }

  /** A raw clause that is one of the handler's fixed texts: no placeholders, and no OR outside parentheses. */
  ghost predicate Plain(call: Call) {
    call.AndRaw? ==> Placeholders(call.clause) == [] && OneGroup(call.clause)
  }

  /** The calls that a request's filters come to. */
  ghost predicate Filters(calls: seq<Call>) {
    forall i :: 0 <= i < |calls| ==> !MainOnly(calls[i]) && !Panics(calls[i]) && Plain(calls[i])
  }

  function KeyBy(ascending: bool): Row -> SortKey {
    OrderKey(TIME, ascending, [ITEM_HASH])
  }

  function Asked(filters: seq<Call>): Row -> bool {
    (row: Row) => AllAsked(filters, row, false)
  }

  /** All messages that pass the filters, in order. */
  function Listed(table: seq<Row>, filters: seq<Call>, ascending: bool): seq<Row> {
    Sort(KeyBy(ascending), Filter(Asked(filters), table))
  }

  datatype Cursor = Cursor(time: real, hash: int)

  function CursorOf(row: Row): Cursor {
    Cursor(Amount(row, TIME), Rank(row, ITEM_HASH))
  }

  function CursorKey(c: Cursor, ascending: bool): SortKey {
    SortKey(if ascending then c.time else -c.time, c.hash)
  }

  function Past(c: Cursor, ascending: bool): Row -> bool {
    (row: Row) => Before(CursorKey(c, ascending), KeyBy(ascending)(row))
  }

  type Positive = n: nat | n > 0 witness 1

  /** What a listing request answers; the cursor is there when more rows follow. */
  datatype Listing = Listing(rows: seq<Row>, hasMore: bool, next: Option<Cursor>)

  /** The next page after a cursor: the first rows past it, and a new cursor if there are more. */
  function CursorPage(all: seq<Row>, c: Cursor, ascending: bool, limit: Option<Positive>): Listing {
    var rest := Filter(Past(c, ascending), all);
    if limit.None? || |rest| <= limit.value then Listing(rest, false, None)
    else Listing(rest[..limit.value], true, Some(CursorOf(rest[limit.value - 1])))
  }

  /** The page size asked for, capped; zero asks for everything. */
  function PerPage(pagination: nat): Option<Positive> {
    if pagination == 0 then None else if pagination <= MAX_PER_PAGE then Some(pagination) else Some(MAX_PER_PAGE)
  }

  /** The offset of a page, in 32-bit arithmetic that wraps around. */
  function PageOffset(page: nat, perPage: nat): nat {
    (((page - 1) % U32) * perPage) % U32
  }

  /** A page by number. */
  function OffsetPage(all: seq<Row>, page: nat, limit: Option<Positive>): Listing {
    Listing(Window(all, if limit.None? then 0 else PageOffset(page, limit.value), limit), false, None)
  }

  /** The total reported beside a page by number: computed from a short page, otherwise counted. */
  function TotalShown(found: nat, shown: nat, page: nat, limit: Option<Positive>): int {
    if limit.Some? && shown < limit.value then (page - 1) * limit.value + shown else found
  }

  function CursorCall(c: Cursor, ascending: bool): Call {
    AndCursorKeyset("time", Number(c.time), "item_hash", Text(c.hash), ascending)
  }

  /** One filter of the request. */
  method Apply(builder: QueryBuilder, call: Call)
    requires !MainOnly(call) && !Panics(call)
    modifies builder
    ensures builder.State() == Appended(old(builder.State()), call)
  {
    match call
    case AndEq(c, v) => builder.AndEq(c, v);
    case AndIn(c, vs) => builder.AndIn(c, vs);
    case AndILike(c, v) => builder.AndILike(c, v);
    case AndGte(c, v) => builder.AndGte(c, v);
    case AndLte(c, v) => builder.AndLte(c, v);
    case AndLt(c, v) => builder.AndLt(c, v);
    case AndJsonbHasAny(c, p, vs) => var _ := builder.AndJsonbHasAny(c, p, vs);
    case AndJsonbTextEq(c, p, v) => var _ := builder.AndJsonbTextEq(c, p, v);
    case AndJsonbTextIn(c, p, vs) => var _ := builder.AndJsonbTextIn(c, p, vs);
    case AndJsonbArrayContains(c, p, v) => var _ := builder.AndJsonbArrayContains(c, p, v);
    case AndRaw(c) => builder.AndRaw(c);
  }

  method ApplyAll(builder: QueryBuilder, filters: seq<Call>)
    requires Filters(filters) && builder.State() == Start(Always)
    modifies builder
    ensures builder.State() == Built(Always, filters)
  {
    for i := 0 to |filters|
      invariant builder.State() == Built(Always, filters[..i])
    {
      assert filters[..i + 1][..i] == filters[..i];
      Apply(builder, filters[i]);
    }
    assert filters[..|filters|] == filters;
  }

  /** Order and window, appended to whatever the builder holds. */
  method AppendTail(builder: QueryBuilder, ascending: bool, limit: Option<nat>, offset: Option<nat>)
    modifies builder
    ensures builder.query == old(builder.query) + Tail(old(builder.paramIndex), ascending, limit, offset)
    ensures builder.args == old(builder.args) + TailArgs(limit, offset)
  {
    ghost var q, n := builder.query, builder.paramIndex;
    builder.OrderByRaw(TIME, ascending, [ITEM_HASH]);
    if limit.Some? {
      builder.Limit(limit.value);
      if offset.Some? {
        builder.Offset(offset.value);
      }
    }
    assert builder.query == q + Tail(n, ascending, limit, offset);
  }

  /** The calls of a listing request that select rows. */
  function Core(filters: seq<Call>, cursor: Option<Cursor>, ascending: bool): seq<Call> {
    if cursor.None? then filters else filters + [CursorCall(cursor.value, ascending)]
  }

  /** The query of a listing request: filters, cursor, order, and the window. */
  method ListingQuery(filters: seq<Call>, cursor: Option<Cursor>, ascending: bool, limit: Option<nat>,
      offset: Option<nat>)
    returns (query: Query, args: seq<Value>)
    requires Filters(filters)
    ensures var b := Built(Always, Core(filters, cursor, ascending));
      query == b.query + Tail(b.paramIndex, ascending, limit, offset) && args == b.args + TailArgs(limit, offset)
    ensures IsStatement(query)
  {
    var builder := new QueryBuilder(Always);
    ApplyAll(builder, filters);
    if cursor.Some? {
      BuiltOneMore(filters, CursorCall(cursor.value, ascending));
      builder.AndCursorKeyset("time", Number(cursor.value.time), "item_hash", Text(cursor.value.hash), ascending);
    }
    SelectingIsWhereOnly(Core(filters, cursor, ascending));
    TailIsInOrder(builder.query, builder.paramIndex, ascending, limit, offset);
    AppendTail(builder, ascending, limit, offset);
    query, args := builder.query, builder.args;
  }

  /** The listing request handler: with a cursor it asks for one row too many, to see whether more follow. */
  method ListMessages(table: seq<Row>, filters: seq<Call>, page: nat, pagination: nat, cursor: Option<Cursor>,
      ascending: bool)
    returns (r: Listing, total: int)
    requires MessageTable(table) && Filters(filters)
    ensures cursor.None? ==>
      total == TotalShown(|Listed(table, filters, ascending)|, |r.rows|, page, PerPage(pagination))
    ensures cursor.Some? ==> total == 0
    ensures cursor.Some? ==>
      r == CursorPage(Listed(table, filters, ascending), cursor.value, ascending, PerPage(pagination))
    ensures cursor.None? ==> r == OffsetPage(Listed(table, filters, ascending), page, PerPage(pagination))
    ensures pagination > 0 ==> |r.rows| <= pagination && |r.rows| <= 1000
    ensures cursor.None? && pagination == 0 ==> r.rows == Listed(table, filters, ascending) && total == |r.rows|
  {
    PageSizes(Listed(table, filters, ascending), page, pagination, cursor, ascending);
    var perPage := PerPage(pagination);
    var offset: Option<nat> := if cursor.Some? || perPage.None? then None else Some(PageOffset(page, perPage.value));
    var limit: Option<nat> :=
      if perPage.None? then None else Some(if cursor.Some? then perPage.value + 1 else perPage.value);
    var query, args := ListingQuery(filters, cursor, ascending, limit, offset);
    var rows := Execute(query, args, table);
    ListingRows(table, filters, query, args, cursor, ascending, limit, offset);
    if cursor.Some? {
      OneRowMore(Listed(table, filters, ascending), cursor.value, ascending, perPage);
      r := CutPage(rows, perPage);
      total := 0;
      return;
    }
    r := Listing(rows, false, None);
    if perPage.Some? && |rows| < perPage.value {
      total := (page - 1) * perPage.value + |rows|;
    } else {
      total := CountMessages(table, filters, ascending);
    }
  }

  /** The counting query: a builder of its own, with the same filters. */
  method CountMessages(table: seq<Row>, filters: seq<Call>, ghost ascending: bool) returns (total: nat)
    requires MessageTable(table) && Filters(filters)
    ensures total == |Listed(table, filters, ascending)|
  {
    var builder := new QueryBuilder(Always);
    ApplyAll(builder, filters);
    total := |Filter(Selected(builder.query, builder.args), table)|;
    CountIsListing(table, filters, ascending);
  }

  lemma CountIsListing(table: seq<Row>, filters: seq<Call>, ascending: bool)
    requires MessageTable(table) && Filters(filters)
    ensures var b := Built(Always, filters);
      |Filter(Selected(b.query, b.args), table)| == |Listed(table, filters, ascending)|
  {
    var b := Built(Always, filters);
    forall row: Row ensures Selected(b.query, b.args)(row) == Asked(filters)(row) {
      TextMeansCalls(Always, filters, row);
    }
    FilterSame(Selected(b.query, b.args), Asked(filters), table);
    ListedSize(table, filters, ascending);
  }

  /** What a listing query returns, in terms of the whole listing. */
  lemma ListingRows(table: seq<Row>, filters: seq<Call>, query: Query, args: seq<Value>, cursor: Option<Cursor>,
      ascending: bool, limit: Option<nat>, offset: Option<nat>)
    requires MessageTable(table) && Filters(filters)
    requires var b := Built(Always, Core(filters, cursor, ascending));
      query == b.query + Tail(b.paramIndex, ascending, limit, offset) && args == b.args + TailArgs(limit, offset)
    ensures var all := Listed(table, filters, ascending);
      Execute(query, args, table) == Window(
        if cursor.None? then all else Filter(Past(cursor.value, ascending), all),
        if limit.None? || offset.None? then 0 else offset.value, limit)
  {
    RunsAsAsked(Core(filters, cursor, ascending), query, args, ascending, limit, offset, table);
    if cursor.Some? { ListedPast(table, filters, cursor.value, ascending); }
  }

  /** A page cut from rows fetched with one too many. */
  function Trimmed(rows: seq<Row>, perPage: Option<Positive>): Listing {
    if perPage.None? || |rows| <= perPage.value then Listing(rows, false, None)
    else Listing(rows[..perPage.value], true, Some(CursorOf(rows[perPage.value - 1])))
  }

  method CutPage(rows: seq<Row>, perPage: Option<Positive>) returns (r: Listing)
    ensures r == Trimmed(rows, perPage)
  {
    r := Listing(rows, false, None);
    if perPage.Some? && |rows| > perPage.value {
      var page := rows[..perPage.value];
      r := Listing(page, true, Some(CursorOf(page[|page| - 1])));
    }
  }

  /** Asking for one row too many tells whether there are more. */
  lemma OneRowMore(all: seq<Row>, c: Cursor, ascending: bool, perPage: Option<Positive>)
    ensures var limit: Option<nat> := if perPage.None? then None else Some(perPage.value + 1);
      var fetched := Window(Filter(Past(c, ascending), all), 0, limit);
      Trimmed(fetched, perPage) == CursorPage(all, c, ascending, perPage)
  {
    var rest := Filter(Past(c, ascending), all);
    assert Drop(rest, 0) == rest;
    if perPage.Some? && |rest| > perPage.value {
      assert rest[..perPage.value + 1][..perPage.value] == rest[..perPage.value];
    }
  }

  // ---- What a page holds ----

  /**
   * After a cursor: everything past it if zero was asked for or if it fits, otherwise as many rows as
   * were asked for but no more than a thousand, and then the next cursor names the last of them.
   */
  lemma CursorPageMeans(all: seq<Row>, c: Cursor, ascending: bool, pagination: nat)
    ensures var page, rest := CursorPage(all, c, ascending, PerPage(pagination)), Filter(Past(c, ascending), all);
      var size := if pagination == 0 || (|rest| <= pagination && |rest| <= 1000) then |rest|
                  else if pagination <= 1000 then pagination else 1000;
      && size <= |rest| && page.rows == rest[..size]
      && (page.hasMore <==> size < |rest|)
      && (if page.hasMore then size > 0 && page.next == Some(CursorOf(rest[size - 1])) else page.next == None)
  {
  }

  /**
   * By number: everything if zero was asked for, otherwise the page of the size asked for, a thousand at
   * most, that begins after all the pages before it, as long as 32 bits hold its beginning.
   */
  lemma OffsetPageMeans(all: seq<Row>, page: nat, pagination: nat)
    ensures pagination == 0 ==> OffsetPage(all, page, PerPage(pagination)).rows == all
    ensures var size := if pagination <= 1000 then pagination else 1000;
      var from := (page - 1) * size;
      pagination > 0 && page > 0 && 0 <= from < 0x1_0000_0000 ==>
        OffsetPage(all, page, PerPage(pagination)).rows ==
          if |all| <= from then [] else if |all| <= from + size then all[from..] else all[from..from + size]
  {
    var size: nat := if pagination <= 1000 then pagination else 1000;
    if pagination > 0 && page > 0 && 0 <= (page - 1) * size < U32 {
      ExactOffset(page, size);
      WindowSlice(all, (page - 1) * size, size);
    }
  }

  lemma ExactOffset(page: nat, size: Positive)
    requires page > 0 && 0 <= (page - 1) * size < U32
    ensures PageOffset(page, size) == (page - 1) * size
  {
    ProductGrows(page - 1, size);
    assert (page - 1) % U32 == page - 1;
    var from := (page - 1) * size;
    assert from % U32 == from;
  }

  lemma ProductGrows(a: nat, b: Positive)
    ensures a <= a * b
  {
    assert a * b == a + a * (b - 1);
  }

  lemma WindowSlice(all: seq<Row>, from: nat, size: Positive)
    ensures Window(all, from, Some(size))
      == if |all| <= from then [] else if |all| <= from + size then all[from..] else all[from..from + size]
  {
  }

  lemma PageSizes(all: seq<Row>, page: nat, pagination: nat, cursor: Option<Cursor>, ascending: bool)
    ensures cursor.Some? && pagination > 0 ==>
      |CursorPage(all, cursor.value, ascending, PerPage(pagination)).rows| <= Capped(pagination)
    ensures pagination > 0 ==> |OffsetPage(all, page, PerPage(pagination)).rows| <= Capped(pagination)
    ensures pagination == 0 ==> OffsetPage(all, page, PerPage(pagination)).rows == all
  {
  }

  function Capped(pagination: nat): (n: nat)
    ensures n <= pagination && n <= 1000
  {
    if pagination <= MAX_PER_PAGE then pagination else MAX_PER_PAGE
  }

  /** Listings go by time in the direction asked for, and among equal times by ascending hash. */
  lemma ListedInOrder(table: seq<Row>, filters: seq<Call>, ascending: bool, i: nat, j: nat)
    requires MessageTable(table) && i < j < |Listed(table, filters, ascending)|
    ensures var a, b := Listed(table, filters, ascending)[i], Listed(table, filters, ascending)[j];
      && Stored(a) && Stored(b)
      && (if a[TIME].amount == b[TIME].amount then a[ITEM_HASH].rank < b[ITEM_HASH].rank
          else ascending <==> a[TIME].amount < b[TIME].amount)
  {
    var all := Listed(table, filters, ascending);
    ListedIsSorted(table, filters, ascending);
    assert all[i] in all && all[j] in all;
    assert Before(KeyBy(ascending)(all[i]), KeyBy(ascending)(all[j]));
  }

  /** Past the cursor that names a row are the rows that a listing puts after that row. */
  lemma PastMeans(last: Row, ascending: bool, row: Row)
    requires Stored(last) && Stored(row)
    ensures Past(CursorOf(last), ascending)(row)
      <==> if row[TIME].amount == last[TIME].amount then row[ITEM_HASH].rank > last[ITEM_HASH].rank
           else ascending <==> row[TIME].amount > last[TIME].amount
  {
    assert CursorKey(CursorOf(last), ascending) == KeyBy(ascending)(last);
    assert KeyBy(ascending)(row).hash == row[ITEM_HASH].rank && KeyBy(ascending)(last).hash == last[ITEM_HASH].rank;
  }

  // ---- The built query runs as the request asked ----

  lemma BuiltOneMore(calls: seq<Call>, call: Call)
    ensures Built(Always, calls + [call]) == Appended(Built(Always, calls), call)
  {
    assert (calls + [call])[..|calls|] == calls;
  }

  ghost predicate WhereOnly(q: Query) {
    forall i :: 0 <= i < |q| ==> q[i].Where?
  }

  /** Calls that only select rows: filters, perhaps with a cursor. */
  ghost predicate Selecting(calls: seq<Call>) {
    forall i :: 0 <= i < |calls| ==>
      && (MainOnly(calls[i]) ==> calls[i].AndCursorKeyset?)
      && !Panics(calls[i])
      && Plain(calls[i])
  }

  lemma {:induction false} SelectingIsWhereOnly(calls: seq<Call>)
    requires Selecting(calls)
    ensures WhereOnly(Built(Always, calls).query)
  {
    if calls != [] {
      SelectingIsWhereOnly(calls[..|calls| - 1]);
      ClauseWhereOnly(calls[|calls| - 1], Built(Always, calls[..|calls| - 1]).paramIndex);
    }
  }

  lemma ClauseWhereOnly(call: Call, n: int)
    requires MainOnly(call) ==> call.AndCursorKeyset?
    ensures WhereOnly(Clause(call, n))
  {
  }

  lemma {:induction false} NoWindowIn(q: Query, args: seq<Value>)
    requires WhereOnly(q)
    ensures LimitOf(q, args) == None && OffsetOf(q, args) == 0
  {
    if q != [] { NoWindowIn(q[..|q| - 1], args); }
  }

  function Tail(n: int, ascending: bool, limit: Option<nat>, offset: Option<nat>): Query {
    [OrderBy(TIME, ascending, [ITEM_HASH])]
    + (if limit.None? then [] else [Limit(Param(n))] + (if offset.None? then [] else [Offset(Param(n + 1))]))
  }

  lemma TailIsInOrder(q: Query, n: int, ascending: bool, limit: Option<nat>, offset: Option<nat>)
    requires WhereOnly(q)
    ensures IsStatement(q + Tail(n, ascending, limit, offset))
  {
    var t := Tail(n, ascending, limit, offset);
    forall i, j | 0 <= i < j < |q + t| ensures MayFollow(KindOf((q + t)[j]), KindOf((q + t)[i])) {
      if i < |q| { assert (q + t)[i] == q[i]; }
    }
  }

  function TailArgs(limit: Option<nat>, offset: Option<nat>): seq<Value> {
    if limit.None? then []
    else [Number(limit.value as real)] + (if offset.None? then [] else [Number(offset.value as real)])
  }

  /** What the database reads off a query besides its conditions. */
  ghost predicate Reads(q: Query, args: seq<Value>, ascending: bool, limit: Option<nat>, offset: nat, rows: seq<Row>) {
    Ordered(q, rows) == Sort(KeyBy(ascending), rows) && LimitOf(q, args) == limit && OffsetOf(q, args) == offset
  }

  lemma WindowRead(q: Query, args: seq<Value>, ascending: bool, limit: Option<nat>, offset: Option<nat>, rows: seq<Row>)
    requires WhereOnly(q)
    ensures Reads(q + Tail(|args| + 1, ascending, limit, offset), args + TailArgs(limit, offset), ascending, limit,
                  if limit.None? || offset.None? then 0 else offset.value, rows)
  {
    var n, bound := |args| + 1, args + TailArgs(limit, offset);
    var q1 := q + [OrderBy(TIME, ascending, [ITEM_HASH])];
    NoWindowIn(q, bound);
    ReadLast(q, OrderBy(TIME, ascending, [ITEM_HASH]), bound, rows);
    TailSplits(q, n, ascending, limit, offset);
    if limit.Some? {
      ReadLimit(q1, bound, n, limit.value, ascending, rows);
      if offset.Some? {
        ReadOffset(q1 + [Limit(Param(n))], bound, n + 1, offset.value, ascending, limit, rows);
      }
    }
  }

  lemma TailSplits(q: Query, n: int, ascending: bool, limit: Option<nat>, offset: Option<nat>)
    ensures var q1 := q + [OrderBy(TIME, ascending, [ITEM_HASH])];
      q + Tail(n, ascending, limit, offset)
        == if limit.None? then q1
           else if offset.None? then q1 + [Limit(Param(n))]
           else q1 + [Limit(Param(n))] + [Offset(Param(n + 1))]
  {
  }

  lemma ReadLimit(q: Query, args: seq<Value>, n: nat, k: nat, ascending: bool, rows: seq<Row>)
    requires Reads(q, args, ascending, None, 0, rows) && 1 <= n <= |args| && args[n - 1] == Number(k as real)
    ensures Reads(q + [Limit(Param(n))], args, ascending, Some(k), 0, rows)
  {
    ReadLast(q, Limit(Param(n)), args, rows);
    CountOfNat(n, args, k);
  }

  lemma ReadOffset(q: Query, args: seq<Value>, n: nat, k: nat, ascending: bool, limit: Option<nat>, rows: seq<Row>)
    requires Reads(q, args, ascending, limit, 0, rows) && 1 <= n <= |args| && args[n - 1] == Number(k as real)
    ensures Reads(q + [Offset(Param(n))], args, ascending, limit, k, rows)
  {
    ReadLast(q, Offset(Param(n)), args, rows);
    CountOfNat(n, args, k);
  }

  lemma CountOfNat(n: nat, args: seq<Value>, k: nat)
    requires 1 <= n <= |args| && args[n - 1] == Number(k as real)
    ensures Count(Param(n), args) == k
  {
  }

  lemma ReadLast(q: Query, f: Fragment, args: seq<Value>, rows: seq<Row>)
    ensures Ordered(q + [f], rows)
      == if f.OrderBy? then Sort(OrderKey(f.field, f.ascending, f.tie), rows) else Ordered(q, rows)
    ensures LimitOf(q + [f], args) == if f.Limit? then Some(Count(f.operand, args)) else LimitOf(q, args)
    ensures OffsetOf(q + [f], args) == if f.Offset? then Count(f.operand, args) else OffsetOf(q, args)
  {
    assert (q + [f])[..|q|] == q;
  }

  lemma {:induction false} FilterSame(p: Row -> bool, q: Row -> bool, s: seq<Row>)
    requires forall x :: x in s ==> p(x) == q(x)
    ensures Filter(p, s) == Filter(q, s)
  {
    if s != [] {
      assert s[|s| - 1] in s;
      FilterSame(p, q, s[..|s| - 1]);
    }
  }

  lemma SelectedIsAsked(core: seq<Call>, args: seq<Value>, ascending: bool, limit: Option<nat>, offset: Option<nat>,
      row: Row)
    requires Selecting(core) && args == Built(Always, core).args + TailArgs(limit, offset)
    ensures var c := Built(Always, core);
      TextSelects(c.query + Tail(c.paramIndex, ascending, limit, offset), args, row) == AllAsked(core, row, false)
  {
    var c := Built(Always, core);
    BuiltOneGroupEach(Always, core);
    TextSelectsClauses(c.query + Tail(c.paramIndex, ascending, limit, offset), args, row);
    ClausesAreAsked(core, args, ascending, limit, offset, row);
  }

  lemma ClausesAreAsked(core: seq<Call>, args: seq<Value>, ascending: bool, limit: Option<nat>, offset: Option<nat>,
      row: Row)
    requires Selecting(core) && args == Built(Always, core).args + TailArgs(limit, offset)
    ensures var c := Built(Always, core);
      Selects(c.query + Tail(c.paramIndex, ascending, limit, offset), args, row) == AllAsked(core, row, false)
  {
    var c := Built(Always, core);
    BuiltWithin(Always, core);
    SelectsLater(c.query, c.args, TailArgs(limit, offset), row);
    BuiltMeansCalls(Always, core, row);
    TailSelectsAll(c.query, args, c.paramIndex, ascending, limit, offset, row);
  }

  lemma TailSelectsAll(q: Query, args: seq<Value>, n: int, ascending: bool, limit: Option<nat>, offset: Option<nat>,
      row: Row)
    ensures Selects(q + Tail(n, ascending, limit, offset), args, row) == Selects(q, args, row)
  {
    SelectsAppend(q, Tail(n, ascending, limit, offset), args, row);
  }

  /** Running what the builder built lists the rows that pass every call, in order, cut to the window. */
  lemma RunsAsAsked(core: seq<Call>, query: Query, args: seq<Value>, ascending: bool, limit: Option<nat>,
      offset: Option<nat>, table: seq<Row>)
    requires Selecting(core)
    requires var c := Built(Always, core);
      query == c.query + Tail(c.paramIndex, ascending, limit, offset) && args == c.args + TailArgs(limit, offset)
    ensures Execute(query, args, table)
      == Window(Listed(table, core, ascending), if limit.None? || offset.None? then 0 else offset.value, limit)
  {
    BuiltWithin(Always, core);
    SelectingIsWhereOnly(core);
    RunsOn(Built(Always, core), query, args, ascending, limit, offset, table);
    SelectedIsFilter(core, query, args, ascending, limit, offset, table);
  }

  lemma RunsOn(c: Build, query: Query, args: seq<Value>, ascending: bool, limit: Option<nat>, offset: Option<nat>,
      table: seq<Row>)
    requires WhereOnly(c.query) && c.paramIndex == |c.args| + 1
    requires query == c.query + Tail(c.paramIndex, ascending, limit, offset) && args == c.args + TailArgs(limit, offset)
    ensures Execute(query, args, table) == Window(Sort(KeyBy(ascending), Filter(Selected(query, args), table)),
                                                  if limit.None? || offset.None? then 0 else offset.value, limit)
  {
    WindowRead(c.query, c.args, ascending, limit, offset, Filter(Selected(query, args), table));
  }

  lemma SelectedIsFilter(core: seq<Call>, query: Query, args: seq<Value>, ascending: bool, limit: Option<nat>,
      offset: Option<nat>, table: seq<Row>)
    requires Selecting(core)
    requires var c := Built(Always, core);
      query == c.query + Tail(c.paramIndex, ascending, limit, offset) && args == c.args + TailArgs(limit, offset)
    ensures Filter(Selected(query, args), table) == Filter(Asked(core), table)
  {
    forall row: Row ensures Selected(query, args)(row) == Asked(core)(row) {
      SelectedIsAsked(core, args, ascending, limit, offset, row);
    }
    FilterSame(Selected(query, args), Asked(core), table);
  }

  lemma {:induction false} FilterKeepsAscending(key: Row -> SortKey, p: Row -> bool, s: seq<Row>)
    requires Ascending(key, s)
    ensures Ascending(key, Filter(p, s))
  {
    if s != [] {
      var init, last := s[..|s| - 1], s[|s| - 1];
      FilterKeepsAscending(key, p, init);
      FilterMembers(p, init);
      forall i | 0 <= i < |Filter(p, init)| ensures Before(key(Filter(p, init)[i]), key(last)) {
        assert Filter(p, init)[i] in Filter(p, init);
        var j :| 0 <= j < |init| && init[j] == Filter(p, init)[i];
        assert Before(key(s[j]), key(s[|s| - 1]));
      }
    }
  }

  /** A listing holds exactly the rows asked for, in order. */
  lemma ListedIsSorted(table: seq<Row>, filters: seq<Call>, ascending: bool)
    requires MessageTable(table)
    ensures Ascending(KeyBy(ascending), Listed(table, filters, ascending))
    ensures forall row :: row in Listed(table, filters, ascending) <==> row in table && AllAsked(filters, row, false)
  {
    assert DistinctKeys(KeyBy(ascending), table);
    FilterKeepsDistinct(KeyBy(ascending), Asked(filters), table);
    SortSorts(KeyBy(ascending), Filter(Asked(filters), table));
    FilterMembers(Asked(filters), table);
  }

  lemma CursorCallMeans(row: Row, c: Cursor, ascending: bool)
    requires Stored(row)
    ensures Meaning(CursorCall(c, ascending), row) <==> Past(c, ascending)(row)
  {
    assert Column("time") == TIME && Column("item_hash") == ITEM_HASH;
    var time := row[TIME].amount;
    assert KeyBy(ascending)(row) == SortKey(if ascending then time else -time, row[ITEM_HASH].rank);
  }

  /** Adding the cursor to the filters keeps exactly the part of the listing past it. */
  lemma ListedPast(table: seq<Row>, filters: seq<Call>, c: Cursor, ascending: bool)
    requires MessageTable(table)
    ensures Listed(table, filters + [CursorCall(c, ascending)], ascending)
      == Filter(Past(c, ascending), Listed(table, filters, ascending))
  {
    var all := Listed(table, filters, ascending);
    var more := filters + [CursorCall(c, ascending)];
    ListedIsSorted(table, filters, ascending);
    ListedIsSorted(table, more, ascending);
    FilterKeepsAscending(KeyBy(ascending), Past(c, ascending), all);
    FilterMembers(Past(c, ascending), all);
    forall row ensures row in Listed(table, more, ascending) <==> row in Filter(Past(c, ascending), all) {
      AskedOneMore(filters, CursorCall(c, ascending), row, false);
      if row in table { CursorCallMeans(row, c, ascending); }
    }
    AscendingIsUnique(KeyBy(ascending), Listed(table, more, ascending), Filter(Past(c, ascending), all));
  }

  // ---- Walking by cursor ----

  /**
   * A client that follows cursors, page after page; the listing may change between requests, and
   * `alls` gives it as each request finds it.
   */
  function Walk(alls: seq<seq<Row>>, c: Cursor, ascending: bool, limit: Positive): seq<Row> {
    if alls == [] then []
    else
      var page := CursorPage(alls[0], c, ascending, Some(limit));
      page.rows + (if page.hasMore then Walk(alls[1..], page.next.value, ascending, limit) else [])
  }

  /** The walk gets to a page without a cursor before the requests run out. */
  predicate Ends(alls: seq<seq<Row>>, c: Cursor, ascending: bool, limit: Positive) {
    alls != [] &&
    var page := CursorPage(alls[0], c, ascending, Some(limit));
    page.hasMore ==> Ends(alls[1..], page.next.value, ascending, limit)
  }

  lemma PageRows(all: seq<Row>, c: Cursor, ascending: bool, limit: Positive)
    requires Ascending(KeyBy(ascending), all)
    ensures var page, rest := CursorPage(all, c, ascending, Some(limit)), Filter(Past(c, ascending), all);
      && Ascending(KeyBy(ascending), page.rows)
      && (forall row :: row in page.rows ==> row in all && Past(c, ascending)(row))
      && (page.hasMore ==> forall row :: row in page.rows ==> !Past(page.next.value, ascending)(row))
      && (forall row :: row in all && Past(c, ascending)(row) ==>
            row in page.rows || (page.hasMore && Past(page.next.value, ascending)(row)))
      && (page.hasMore ==> forall row :: Past(page.next.value, ascending)(row) ==> Past(c, ascending)(row))
  {
    var page, rest := CursorPage(all, c, ascending, Some(limit)), Filter(Past(c, ascending), all);
    FilterKeepsAscending(KeyBy(ascending), Past(c, ascending), all);
    FilterMembers(Past(c, ascending), all);
    if page.hasMore {
      var last := rest[limit - 1];
      assert last in rest && Past(c, ascending)(last);
      assert CursorKey(page.next.value, ascending) == KeyBy(ascending)(last);
      forall row: Row | Past(page.next.value, ascending)(row) ensures Past(c, ascending)(row) {
        assert Before(KeyBy(ascending)(last), KeyBy(ascending)(row));
      }
    }
  }

  lemma {:induction false} WalkIsPast(alls: seq<seq<Row>>, c: Cursor, ascending: bool, limit: Positive)
    requires forall k :: 0 <= k < |alls| ==> Ascending(KeyBy(ascending), alls[k])
    ensures Ascending(KeyBy(ascending), Walk(alls, c, ascending, limit))
    ensures forall row :: row in Walk(alls, c, ascending, limit) ==> Past(c, ascending)(row)
    ensures forall row :: row in Walk(alls, c, ascending, limit) ==> exists k :: 0 <= k < |alls| && row in alls[k]
  {
    if alls != [] {
      var page := CursorPage(alls[0], c, ascending, Some(limit));
      PageRows(alls[0], c, ascending, limit);
      if page.hasMore {
        var more := Walk(alls[1..], page.next.value, ascending, limit);
        WalkIsPast(alls[1..], page.next.value, ascending, limit);
        AscendingJoin(page.rows, more, page.next.value, ascending);
        forall row | row in more ensures exists k :: 0 <= k < |alls| && row in alls[k] {
          var k :| 0 <= k < |alls[1..]| && row in alls[1..][k];
          assert row in alls[k + 1];
        }
      }
    }
  }

  lemma AscendingJoin(a: seq<Row>, b: seq<Row>, c: Cursor, ascending: bool)
    requires Ascending(KeyBy(ascending), a) && Ascending(KeyBy(ascending), b)
    requires forall row :: row in a ==> !Past(c, ascending)(row)
    requires forall row :: row in b ==> Past(c, ascending)(row)
    ensures Ascending(KeyBy(ascending), a + b)
  {
    var key, r := KeyBy(ascending), a + b;
    forall i, j | 0 <= i < j < |r| ensures Before(key(r[i]), key(r[j])) {
      if i < |a| <= j {
        assert r[i] in a && r[j] in b;
        assert !Before(CursorKey(c, ascending), key(r[i])) && Before(CursorKey(c, ascending), key(r[j]));
        BeforeIsTotal(CursorKey(c, ascending), key(r[i]));
      } else if j < |a| {
        assert r[i] == a[i] && r[j] == a[j];
      } else {
        assert r[i] == b[i - |a|] && r[j] == b[j - |a|];
      }
    }
  }

  /**
   * However the table changes between requests, a walk that ends lists no row twice, and misses no
   * row past its cursor that was there all along.
   */
  lemma {:induction false} WalkMissesNothing(alls: seq<seq<Row>>, c: Cursor, ascending: bool, limit: Positive, row: Row)
    requires forall k :: 0 <= k < |alls| ==> Ascending(KeyBy(ascending), alls[k]) && row in alls[k]
    requires Ends(alls, c, ascending, limit) && Past(c, ascending)(row)
    ensures row in Walk(alls, c, ascending, limit)
  {
    var page := CursorPage(alls[0], c, ascending, Some(limit));
    PageRows(alls[0], c, ascending, limit);
    if row !in page.rows {
      WalkMissesNothing(alls[1..], page.next.value, ascending, limit, row);
    }
  }

  /** Rows left for the walk shrink by a page with each request, so on a fixed table it ends. */
  lemma {:induction false} FixedWalkEnds(all: seq<Row>, n: nat, c: Cursor, ascending: bool, limit: Positive)
    requires Ascending(KeyBy(ascending), all)
    requires |Filter(Past(c, ascending), all)| <= n * limit && n > 0
    ensures Ends(seq(n, _ => all), c, ascending, limit)
    decreases n
  {
    var alls, page := seq(n, _ => all), CursorPage(all, c, ascending, Some(limit));
    if page.hasMore {
      assert n > 1;
      RestShrinks(all, c, ascending, limit);
      assert alls[1..] == seq(n - 1, _ => all);
      FixedWalkEnds(all, n - 1, page.next.value, ascending, limit);
    }
  }

  /** The rows past one of a sorted list are the ones after it. */
  lemma BeyondRow(s: seq<Row>, ascending: bool, k: nat)
    requires Ascending(KeyBy(ascending), s) && k < |s|
    ensures Ascending(KeyBy(ascending), s[k + 1..]) && Ascending(KeyBy(ascending), s[..k + 1])
    ensures forall row :: row in s[k + 1..] <==> row in s && Before(KeyBy(ascending)(s[k]), KeyBy(ascending)(row))
    ensures forall row :: row in s[..k + 1] <==> row in s && !Before(KeyBy(ascending)(s[k]), KeyBy(ascending)(row))
  {
    var key := KeyBy(ascending);
    forall row ensures row in s[k + 1..] <==> row in s && Before(key(s[k]), key(row)) {
      if row in s[k + 1..] {
        var i :| 0 <= i < |s[k + 1..]| && s[k + 1..][i] == row;
        assert s[k + 1 + i] == row;
      }
      if row in s && Before(key(s[k]), key(row)) {
        var i :| 0 <= i < |s| && s[i] == row;
        assert i > k;
        assert s[k + 1..][i - k - 1] == row;
      }
    }
    forall row ensures row in s[..k + 1] <==> row in s && !Before(key(s[k]), key(row)) {
      if row in s && !Before(key(s[k]), key(row)) {
        var i :| 0 <= i < |s| && s[i] == row;
        assert i <= k;
        assert s[..k + 1][i] == row;
      }
    }
  }

  lemma RestShrinks(all: seq<Row>, c: Cursor, ascending: bool, limit: Positive)
    requires Ascending(KeyBy(ascending), all)
    requires CursorPage(all, c, ascending, Some(limit)).hasMore
    ensures var next := CursorPage(all, c, ascending, Some(limit)).next.value;
      Filter(Past(next, ascending), all) == Filter(Past(c, ascending), all)[limit..]
  {
    var page, rest := CursorPage(all, c, ascending, Some(limit)), Filter(Past(c, ascending), all);
    var next := page.next.value;
    FilterKeepsAscending(KeyBy(ascending), Past(c, ascending), all);
    FilterKeepsAscending(KeyBy(ascending), Past(next, ascending), all);
    FilterMembers(Past(c, ascending), all);
    FilterMembers(Past(next, ascending), all);
    PageRows(all, c, ascending, limit);
    assert CursorKey(next, ascending) == KeyBy(ascending)(rest[limit - 1]);
    BeyondRow(rest, ascending, limit - 1);
    AscendingIsUnique(KeyBy(ascending), rest[limit..], Filter(Past(next, ascending), all));
  }

  /** A first page without a cursor, then cursors from its last row on. */
  function WholeWalk(all: seq<Row>, n: nat, ascending: bool, limit: Positive): seq<Row> {
    var first := Window(all, 0, Some(limit));
    if first == [] then [] else first + Walk(seq(n, _ => all), CursorOf(first[|first| - 1]), ascending, limit)
  }

  /** On a fixed table the walk lists every row asked for exactly once, in order: it is the full sorted listing. */
  lemma WalkIsListing(table: seq<Row>, filters: seq<Call>, n: nat, ascending: bool, limit: Positive)
    requires MessageTable(table) && n > 0 && |table| <= n * limit
    ensures WholeWalk(Listed(table, filters, ascending), n, ascending, limit) == Listed(table, filters, ascending)
  {
    var all := Listed(table, filters, ascending);
    ListedIsSorted(table, filters, ascending);
    ListedSize(table, filters, ascending);
    WholeWalkIsAll(all, n, ascending, limit);
  }

  /** From the cursor of one row, a walk lists exactly the rows after it. */
  lemma WalkFromRow(all: seq<Row>, n: nat, k: nat, ascending: bool, limit: Positive)
    requires Ascending(KeyBy(ascending), all) && k < |all| && n > 0 && |all| <= n * limit
    ensures Walk(seq(n, _ => all), CursorOf(all[k]), ascending, limit) == all[k + 1..]
  {
    var c, alls := CursorOf(all[k]), seq(n, _ => all);
    assert CursorKey(c, ascending) == KeyBy(ascending)(all[k]);
    BeyondRow(all, ascending, k);
    FilterMembers(Past(c, ascending), all);
    FixedWalkEnds(all, n, c, ascending, limit);
    WalkIsPast(alls, c, ascending, limit);
    forall row | row in all[k + 1..] ensures row in Walk(alls, c, ascending, limit) {
      WalkMissesNothing(alls, c, ascending, limit, row);
    }
    AscendingIsUnique(KeyBy(ascending), Walk(alls, c, ascending, limit), all[k + 1..]);
  }

  lemma WholeWalkIsAll(all: seq<Row>, n: nat, ascending: bool, limit: Positive)
    requires Ascending(KeyBy(ascending), all) && n > 0 && |all| <= n * limit
    ensures WholeWalk(all, n, ascending, limit) == all
  {
    var first := Window(all, 0, Some(limit));
    if first != [] {
      var k := |first| - 1;
      assert first == all[..k + 1];
      WalkFromRow(all, n, k, ascending, limit);
    }
  }

  lemma ListedSize(table: seq<Row>, filters: seq<Call>, ascending: bool)
    requires MessageTable(table)
    ensures |Listed(table, filters, ascending)| == |Filter(Asked(filters), table)| <= |table|
  {
    assert DistinctKeys(KeyBy(ascending), table);
    FilterKeepsDistinct(KeyBy(ascending), Asked(filters), table);
    SortSorts(KeyBy(ascending), Filter(Asked(filters), table));
    FilterMembers(Asked(filters), table);
  }

  // ---- Walking by offset ----

  /** Pages by offset start where they should exactly for page numbers from one up to where 32 bits run out. */
  lemma OffsetIsExactIff(page: nat, perPage: Positive)
    requires page < U32 && perPage <= MAX_PER_PAGE
    ensures PageOffset(page, perPage) == (page - 1) * perPage <==> page >= 1 && (page - 1) * perPage < U32
  {
    if page >= 1 {
      assert (page - 1) % U32 == page - 1;
    } else {
      assert (page - 1) * perPage < 0;
    }
  }

  /** The first pages by offset, the table as each request finds it. */
  function Paged(alls: seq<seq<Row>>, perPage: Positive): seq<Row> {
    if alls == [] then []
    else Paged(alls[..|alls| - 1], perPage) + OffsetPage(alls[|alls| - 1], |alls|, Some(perPage)).rows
  }

  /** On a fixed table, pages by offset join up to the same listing as long as the offsets fit. */
  lemma {:induction false} OffsetPagesJoin(all: seq<Row>, n: nat, perPage: Positive)
    requires n * perPage < U32
    ensures Paged(seq(n, _ => all), perPage) == Take(all, n * perPage)
  {
    if n > 0 {
      var alls := seq(n, _ => all);
      assert alls[..n - 1] == seq(n - 1, _ => all);
      OffsetFits(n, perPage);
      OffsetPagesJoin(all, n - 1, perPage);
      PageJoins(all, (n - 1) * perPage, perPage);
    }
  }

  lemma OffsetFits(n: nat, perPage: Positive)
    requires n > 0 && n * perPage < U32
    ensures 0 <= (n - 1) * perPage && (n - 1) * perPage + perPage == n * perPage
    ensures PageOffset(n, perPage) == (n - 1) * perPage
  {
    assert (n - 1) * perPage + perPage == n * perPage;
    assert n <= n * perPage;
    assert (n - 1) % U32 == n - 1;
  }

  lemma PageJoins(all: seq<Row>, offset: nat, perPage: Positive)
    ensures Take(all, offset) + Window(all, offset, Some(perPage)) == Take(all, offset + perPage)
  {
  }

  ghost predicate DistinctRows(rows: seq<Row>) {
    forall i, j :: 0 <= i < j < |rows| ==> rows[i] != rows[j]
  }

  ghost predicate Share(a: seq<Row>, b: seq<Row>) {
    exists row :: row in a && row in b
  }

  lemma InWindow(s: seq<Row>, a: nat, p: Positive, row: Row)
    ensures row in Window(s, a, Some(p)) <==> exists i :: a <= i < a + p && i < |s| && s[i] == row
  {
    var w := Window(s, a, Some(p));
    assert |w| == if |s| <= a then 0 else if |s| - a <= p then |s| - a else p;
    assert forall x :: 0 <= x < |w| ==> w[x] == s[a + x];
    if i :| a <= i < a + p && i < |s| && s[i] == row {
      assert w[i - a] == row;
    }
  }

  /** A row in both windows has one place among the old rows, and that place is in both ranges. */
  lemma SharedPlace(all: seq<Row>, arrived: seq<Row>, a: nat, p: Positive, row: Row)
    requires DistinctRows(arrived + all)
    requires row in Window(all, a, Some(p)) && row in Window(arrived + all, a + p, Some(p))
    ensures 0 < |arrived| < 2 * p && a < |all| && a + p - |arrived| < |all|
  {
    var later := arrived + all;
    var i := PlaceIn(all, a, p, row);
    var k := PlaceIn(later, a + p, p, row);
    assert later[i + |arrived|] == all[i];
    SamePlace(later, i + |arrived|, k);
  }

  lemma PlaceIn(s: seq<Row>, a: nat, p: Positive, row: Row) returns (i: nat)
    requires row in Window(s, a, Some(p))
    ensures a <= i < a + p && i < |s| && s[i] == row
  {
    InWindow(s, a, p, row);
    i :| a <= i < a + p && i < |s| && s[i] == row;
  }

  lemma SamePlace(rows: seq<Row>, i: nat, k: nat)
    requires DistinctRows(rows) && i < |rows| && k < |rows| && rows[i] == rows[k]
    ensures i == k
  {
  }

  lemma PlaceShared(all: seq<Row>, arrived: seq<Row>, a: nat, p: Positive)
    requires 0 < |arrived| < 2 * p && a < |all| && a + p - |arrived| < |all|
    ensures Share(Window(all, a, Some(p)), Window(arrived + all, a + p, Some(p)))
  {
    var later := arrived + all;
    var i := if a <= a + p - |arrived| then a + p - |arrived| else a;
    InWindow(all, a, p, all[i]);
    InWindow(later, a + p, p, all[i]);
    assert later[i + |arrived|] == all[i];
  }

  /**
   * Offsets do not survive rows arriving in front: page `n + 1` then repeats a row of page `n` exactly
   * when some arrived, fewer than fill two pages, and both pages reach into the old rows.
   */
  lemma OffsetPagesRepeatIff(all: seq<Row>, arrived: seq<Row>, n: nat, p: Positive)
    requires DistinctRows(arrived + all) && n > 0 && (n + 1) * p < U32
    ensures Share(OffsetPage(all, n, Some(p)).rows, OffsetPage(arrived + all, n + 1, Some(p)).rows)
      <==> 0 < |arrived| < 2 * p && (n - 1) * p < |all| && n * p - |arrived| < |all|
  {
    NextOffset(n, p);
    WindowsShareIff(all, arrived, PageOffset(n, p), p);
  }

  lemma WindowsShareIff(all: seq<Row>, arrived: seq<Row>, a: nat, p: Positive)
    requires DistinctRows(arrived + all)
    ensures Share(Window(all, a, Some(p)), Window(arrived + all, a + p, Some(p)))
      <==> 0 < |arrived| < 2 * p && a < |all| && a + p - |arrived| < |all|
  {
    var w, v := Window(all, a, Some(p)), Window(arrived + all, a + p, Some(p));
    if Share(w, v) {
      var row :| row in w && row in v;
      SharedPlace(all, arrived, a, p, row);
    } else if 0 < |arrived| < 2 * p && a < |all| && a + p - |arrived| < |all| {
      PlaceShared(all, arrived, a, p);
    }
  }

  lemma NextOffset(n: nat, p: Positive)
    requires n > 0 && (n + 1) * p < U32
    ensures PageOffset(n, p) == (n - 1) * p && PageOffset(n + 1, p) == PageOffset(n, p) + p == n * p
  {
    assert n * p + p == (n + 1) * p;
    OffsetFits(n, p);
    OffsetFits(n + 1, p);
  }

  // ---- The total of a page by number ----

  /**
   * The total is right exactly when the page is full, or when its offset is the intended one and does
   * not lie beyond the last row: a short page is taken for the last, even an empty one far behind it.
   */
  lemma TotalIsRightIff(all: seq<Row>, page: nat, limit: Positive)
    requires page < U32
    ensures (TotalShown(|all|, |OffsetPage(all, page, Some(limit)).rows|, page, Some(limit)) == |all|)
      <==> (PageOffset(page, limit) + limit <= |all| || PageOffset(page, limit) == (page - 1) * limit <= |all|)
  {
    WrapsDown(page, limit);
  }

  lemma WrapsDown(page: nat, limit: Positive)
    requires page < U32
    ensures page > 0 ==> PageOffset(page, limit) <= (page - 1) * limit
    ensures page == 0 ==> (page - 1) * limit < 0
  {
    if page > 0 {
      assert (page - 1) % U32 == page - 1;
      var due := (page - 1) * limit;
      assert due >= 0;
      assert due % U32 <= due;
    }
  }
}
