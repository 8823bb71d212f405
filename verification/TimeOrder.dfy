/** The order `ORDER BY time, item_hash`, and sorting a table by it. */
module TimeOrder {
  import opened Wrappers

  /** An item hash. Only its place in the database's collation order matters, so an integer stands for it. */
  type Hash = int

  datatype SortKey = SortKey(time: real, hash: Hash)

  predicate Before(a: SortKey, b: SortKey) {
    a.time < b.time || (a.time == b.time && a.hash < b.hash)
  }

  lemma BeforeIsTotal(a: SortKey, b: SortKey)
    ensures a == b || Before(a, b) || Before(b, a)
  {
    assert a == SortKey(a.time, a.hash) && b == SortKey(b.time, b.hash);
  }

  /** `x` put in front of the first row of `s` that it comes before. */
  function Insert<T>(key: T -> SortKey, x: T, s: seq<T>): seq<T> {
    if s == [] then [x]
    else if Before(key(x), key(s[0])) then [x] + s
    else [s[0]] + Insert(key, x, s[1..])
  }

  /** The rows of a table, given in the order they were inserted, sorted by `key`. */
  function Sort<T>(key: T -> SortKey, s: seq<T>): seq<T> {
    if s == [] then [] else Insert(key, s[|s| - 1], Sort(key, s[..|s| - 1]))
  }

  function Filter<T>(p: T -> bool, s: seq<T>): seq<T> {
    if s == [] then []
    else Filter(p, s[..|s| - 1]) + (if p(s[|s| - 1]) then [s[|s| - 1]] else [])
  }

  ghost predicate Ascending<T>(key: T -> SortKey, s: seq<T>) {
    forall i, j :: 0 <= i < j < |s| ==> Before(key(s[i]), key(s[j]))
  }

  ghost predicate DistinctKeys<T>(key: T -> SortKey, s: seq<T>) {
    forall i, j :: 0 <= i < j < |s| ==> key(s[i]) != key(s[j])
  }

  lemma {:induction false} InsertMembers<T(!new)>(key: T -> SortKey, x: T, s: seq<T>)
    ensures |Insert(key, x, s)| == |s| + 1
    ensures forall y :: y in Insert(key, x, s) <==> y == x || y in s
  {
    if s != [] && !Before(key(x), key(s[0])) {
      InsertMembers(key, x, s[1..]);
      assert s == [s[0]] + s[1..];
    }
  }

  lemma AscendingCons<T(!new)>(key: T -> SortKey, x: T, s: seq<T>)
    requires Ascending(key, s)
    requires forall y :: y in s ==> Before(key(x), key(y))
    ensures Ascending(key, [x] + s)
  {
    var r := [x] + s;
    forall i, j | 0 <= i < j < |r| ensures Before(key(r[i]), key(r[j])) {
      assert r[j] == s[j - 1];
      if i > 0 {
        assert r[i] == s[i - 1];
      } else {
        assert s[j - 1] in s;
      }
    }
  }

  lemma {:induction false} InsertKeepsAscending<T(!new)>(key: T -> SortKey, x: T, s: seq<T>)
    requires Ascending(key, s)
    requires forall y :: y in s ==> key(y) != key(x)
    ensures Ascending(key, Insert(key, x, s))
  {
    if s == [] {
    } else if Before(key(x), key(s[0])) {
      forall y | y in s ensures Before(key(x), key(y)) {
        var i :| 0 <= i < |s| && s[i] == y;
        assert i == 0 || Before(key(s[0]), key(s[i]));
      }
      AscendingCons(key, x, s);
    } else {
      var t := Insert(key, x, s[1..]);
      InsertKeepsAscending(key, x, s[1..]);
      InsertMembers(key, x, s[1..]);
      assert s[0] in s;
      BeforeIsTotal(key(x), key(s[0]));
      forall y | y in t ensures Before(key(s[0]), key(y)) {
        if y in s[1..] {
          var i :| 0 <= i < |s[1..]| && s[1..][i] == y;
          assert s[i + 1] == y && Before(key(s[0]), key(s[i + 1]));
        }
      }
      AscendingCons(key, s[0], t);
    }
  }

  lemma NotTheLast<T(!new)>(key: T -> SortKey, s: seq<T>, y: T)
    requires s != [] && DistinctKeys(key, s) && y in s[..|s| - 1]
    ensures key(y) != key(s[|s| - 1])
  {
    var i :| 0 <= i < |s| - 1 && s[i] == y;
  }

  /** Sorting yields the same rows in ascending order. */
  lemma {:induction false} SortSorts<T(!new)>(key: T -> SortKey, s: seq<T>)
    requires DistinctKeys(key, s)
    ensures Ascending(key, Sort(key, s))
    ensures forall y :: y in Sort(key, s) <==> y in s
    ensures |Sort(key, s)| == |s|
  {
    if s != [] {
      var init, last := s[..|s| - 1], s[|s| - 1];
      assert s == init + [last];
      SortSorts(key, init);
      forall y | y in Sort(key, init) ensures key(y) != key(last) {
        assert y in init;
        NotTheLast(key, s, y);
      }
      InsertKeepsAscending(key, last, Sort(key, init));
      InsertMembers(key, last, Sort(key, init));
    }
  }

  /** A row later than all others goes to the end. */
  lemma {:induction false} InsertLast<T(!new)>(key: T -> SortKey, x: T, s: seq<T>)
    requires forall i :: 0 <= i < |s| ==> !Before(key(x), key(s[i]))
    ensures Insert(key, x, s) == s + [x]
  {
    if s != [] {
      InsertLast(key, x, s[1..]);
    }
  }

  lemma TailMembers<T(!new)>(key: T -> SortKey, s: seq<T>)
    requires Ascending(key, s) && s != []
    ensures Ascending(key, s[1..])
    ensures forall y :: y in s[1..] <==> y in s && y != s[0]
  {
    forall y ensures y in s[1..] <==> y in s && y != s[0] {
      if y in s[1..] {
        var i :| 0 <= i < |s[1..]| && s[1..][i] == y;
        assert s[i + 1] == y && Before(key(s[0]), key(s[i + 1]));
      }
    }
  }

  lemma FirstIsLeast<T(!new)>(key: T -> SortKey, s: seq<T>, y: T)
    requires Ascending(key, s) && y in s
    ensures y == s[0] || Before(key(s[0]), key(y))
  {
    var i :| 0 <= i < |s| && s[i] == y;
  }

  /** Two ascending listings of the same rows are the same listing. */
  lemma {:induction false} AscendingIsUnique<T(!new)>(key: T -> SortKey, a: seq<T>, b: seq<T>)
    requires Ascending(key, a) && Ascending(key, b)
    requires forall y :: y in a <==> y in b
    ensures a == b
  {
    assert a != [] ==> a[0] in b;
    assert b != [] ==> b[0] in a;
    if a != [] && b != [] {
      FirstIsLeast(key, a, b[0]);
      FirstIsLeast(key, b, a[0]);
      TailMembers(key, a);
      TailMembers(key, b);
      AscendingIsUnique(key, a[1..], b[1..]);
    }
  }

  lemma {:induction false} FilterMembers<T(!new)>(p: T -> bool, s: seq<T>)
    ensures forall y :: y in Filter(p, s) <==> y in s && p(y)
    ensures |Filter(p, s)| <= |s|
  {
    if s != [] {
      FilterMembers(p, s[..|s| - 1]);
      assert s == s[..|s| - 1] + [s[|s| - 1]];
    }
  }

  lemma {:induction false} FilterKeepsOrder<T(!new)>(p: T -> bool, s: seq<T>)
    ensures KeepsOrder(s, Filter(p, s))
  {
    if s != [] {
      var init, last := s[..|s| - 1], s[|s| - 1];
      FilterKeepsOrder(p, init);
      FilterMembers(p, init);
      forall k, l | 0 <= k < l < |Filter(p, s)| ensures Earlier(s, Filter(p, s)[k], Filter(p, s)[l]) {
        var x, y := Filter(p, s)[k], Filter(p, s)[l];
        assert x == Filter(p, init)[k] && x in init;
        if l < |Filter(p, init)| {
          assert Earlier(init, x, y);
          var i, j :| 0 <= i < j < |init| && init[i] == x && init[j] == y;
          assert s[i] == x && s[j] == y;
        } else {
          var i :| 0 <= i < |init| && init[i] == x;
          assert s[i] == x && s[|s| - 1] == y;
        }
      }
    }
  }

  lemma {:induction false} FilterKeepsDistinct<T(!new)>(key: T -> SortKey, p: T -> bool, s: seq<T>)
    requires DistinctKeys(key, s)
    ensures DistinctKeys(key, Filter(p, s))
  {
    if s != [] {
      var init, last := s[..|s| - 1], s[|s| - 1];
      FilterKeepsDistinct(key, p, init);
      FilterMembers(p, init);
      forall i | 0 <= i < |Filter(p, init)| ensures key(Filter(p, init)[i]) != key(last) {
        assert Filter(p, init)[i] in Filter(p, init);
        assert Filter(p, init)[i] in init;
        NotTheLast(key, s, Filter(p, init)[i]);
      }
    }
  }

  lemma {:induction false} FilterAppend<T(!new)>(p: T -> bool, a: seq<T>, b: seq<T>)
    ensures Filter(p, a + b) == Filter(p, a) + Filter(p, b)
  {
    if b == [] {
      assert a + b == a;
    } else {
      assert (a + b)[..|a + b| - 1] == a + b[..|b| - 1];
      FilterAppend(p, a, b[..|b| - 1]);
    }
  }
}
