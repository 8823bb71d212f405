/** A value that may be absent, the order within a list, and what a partial function keeps of one. */
module Wrappers {
  datatype Option<T> = None | Some(value: T)

  lemma Regroup<T>(x: seq<T>, y: seq<T>, z: seq<T>)
    ensures (x + y) + z == x + (y + z)
  {
  }

  /** `x` stands before `y` in `s`. */
  ghost predicate Earlier<T(!new)>(s: seq<T>, x: T, y: T) {
    exists i, j :: 0 <= i < j < |s| && s[i] == x && s[j] == y
  }

  /** `part` lists some of `s`, in the order of `s`. */
  ghost predicate KeepsOrder<T(!new)>(s: seq<T>, part: seq<T>) {
    forall k, l :: 0 <= k < l < |part| ==> Earlier(s, part[k], part[l])
  }

  lemma OrderUnderFirst<T(!new)>(x: T, s: seq<T>, part: seq<T>)
    requires KeepsOrder(s, part)
    ensures KeepsOrder([x] + s, part)
    ensures (forall y :: y in part ==> y in s) ==> KeepsOrder([x] + s, [x] + part)
  {
    var t := [x] + s;
    forall k, l | 0 <= k < l < |part| ensures Earlier(t, part[k], part[l]) {
      assert Earlier(s, part[k], part[l]);
      var i, j :| 0 <= i < j < |s| && s[i] == part[k] && s[j] == part[l];
      assert t[i + 1] == part[k] && t[j + 1] == part[l];
    }
    if forall y :: y in part ==> y in s {
      forall k, l | 0 <= k < l < |[x] + part| ensures Earlier(t, ([x] + part)[k], ([x] + part)[l]) {
        assert ([x] + part)[l] == part[l - 1] && part[l - 1] in s;
        if k == 0 {
          var j :| 0 <= j < |s| && s[j] == part[l - 1];
          assert t[0] == x && t[j + 1] == part[l - 1];
        } else {
          assert ([x] + part)[k] == part[k - 1];
        }
      }
    }
  }

  /** The values that `f` has for the elements of `s`, in order; elements without a value are skipped. */
  function Kept<T, U>(f: T -> Option<U>, s: seq<T>): seq<U> {
    if s == [] then []
    else Kept(f, s[..|s| - 1]) + match f(s[|s| - 1]) { case Some(v) => [v] case None => [] }
  }

  /**
   * `r` is what `f` keeps of `s`, element by element: the k-th value comes from place `at[k]`, the places
   * increase, and every place with a value is among them. So each such element counts exactly once.
   */
  ghost predicate PicksOut<T, U>(f: T -> Option<U>, s: seq<T>, at: seq<nat>, r: seq<U>) {
    && |at| == |r|
    && (forall k :: 0 <= k < |at| ==> at[k] < |s| && f(s[at[k]]) == Some(r[k]))
    && (forall j, k :: 0 <= j < k < |at| ==> at[j] < at[k])
    && (forall i :: 0 <= i < |s| && f(s[i]).Some? ==> i in at)
  }

  lemma {:induction false} KeptPicksOut<T, U(!new)>(f: T -> Option<U>, s: seq<T>) returns (at: seq<nat>)
    ensures PicksOut(f, s, at, Kept(f, s))
  {
    if s == [] {
      at := [];
    } else {
      var init, last := s[..|s| - 1], s[|s| - 1];
      at := KeptPicksOut(f, init);
      assert s == init + [last];
      if f(last).Some? {
        PicksOutTake(f, init, last, at, Kept(f, init));
        at := at + [|init|];
      } else {
        PicksOutSkip(f, init, last, at, Kept(f, init));
        assert Kept(f, s) == Kept(f, init);
      }
    }
  }

  lemma PicksOutSkip<T, U(!new)>(f: T -> Option<U>, s: seq<T>, x: T, at: seq<nat>, r: seq<U>)
    requires PicksOut(f, s, at, r) && f(x).None?
    ensures PicksOut(f, s + [x], at, r)
  {
    forall i | 0 <= i < |s + [x]| && f((s + [x])[i]).Some? ensures i in at { assert f(s[i]).Some?; }
  }

  lemma PicksOutTake<T, U(!new)>(f: T -> Option<U>, s: seq<T>, x: T, at: seq<nat>, r: seq<U>)
    requires PicksOut(f, s, at, r) && f(x).Some?
    ensures PicksOut(f, s + [x], at + [|s|], r + [f(x).value])
  {
    var t, more := s + [x], at + [|s|];
    forall i | 0 <= i < |t| && f(t[i]).Some? ensures i in more {
      if i < |s| { assert f(s[i]).Some? && i in at; } else { assert more[|at|] == i; }
    }
    forall k | 0 <= k < |more| ensures more[k] < |t| && f(t[more[k]]) == Some((r + [f(x).value])[k]) {
      if k < |at| { assert t[at[k]] == s[at[k]]; }
    }
  }

  lemma {:induction false} KeptAppend<T, U>(f: T -> Option<U>, a: seq<T>, b: seq<T>)
    ensures Kept(f, a + b) == Kept(f, a) + Kept(f, b)
  {
    if b == [] {
      assert a + b == a;
    } else {
      assert (a + b)[..|a + b| - 1] == a + b[..|b| - 1];
      KeptAppend(f, a, b[..|b| - 1]);
    }
  }
}
