/**
 * Python's `list.sort` and `sorted` as a value: a stable sort with respect to a
 * "may stand before" relation `le`.  Both are library code in the source; the
 * model gives them as a stable insertion sort and proves what Python promises
 * of them: the result is ordered, is a permutation of the input, and keeps the
 * input order of elements that compare equal.
 */
module StableSort {

  /** `le` is total and transitive, as a key comparison is. */
  ghost predicate TotalPreorder<T(!new)>(le: (T, T) -> bool)
  {
    && (forall a, b :: le(a, b) || le(b, a))
    && (forall a, b, c :: le(a, b) && le(b, c) ==> le(a, c))
  }

  ghost predicate Sorted<T>(s: seq<T>, le: (T, T) -> bool)
  {
    forall i, j :: 0 <= i < j < |s| ==> le(s[i], s[j])
  }

  predicate Equivalent<T>(a: T, b: T, le: (T, T) -> bool)
  {
    le(a, b) && le(b, a)
  }

  /** Inserts `x` after every element that may stand before it. */
  function Insert<T>(s: seq<T>, x: T, le: (T, T) -> bool): (r: seq<T>)
    ensures |r| == |s| + 1
  {
    if s == [] then [x]
    else if le(s[0], x) then [s[0]] + Insert(s[1..], x, le)
    else [x] + s
  }

  function SortBy<T>(s: seq<T>, le: (T, T) -> bool): (r: seq<T>)
    ensures |r| == |s|
  {
    if s == [] then [] else Insert(SortBy(s[..|s| - 1], le), s[|s| - 1], le)
  }

  /** The elements of `s` that compare equal to `x`, in their order in `s`. */
  function Ties<T>(s: seq<T>, x: T, le: (T, T) -> bool): seq<T>
  {
    if s == [] then []
    else (if Equivalent(s[0], x, le) then [s[0]] else []) + Ties(s[1..], x, le)
  }

  lemma {:induction false} InsertPermutes<T>(s: seq<T>, x: T, le: (T, T) -> bool)
    ensures multiset(Insert(s, x, le)) == multiset(s) + multiset{x}
  {
    if s != [] && le(s[0], x) {
      InsertPermutes(s[1..], x, le);
      assert s == [s[0]] + s[1..];
    }
  }

  /** Sorting only rearranges its input. */
  lemma {:induction false} SortPermutes<T>(s: seq<T>, le: (T, T) -> bool)
    ensures multiset(SortBy(s, le)) == multiset(s)
  {
    if s != [] {
      SortPermutes(s[..|s| - 1], le);
      InsertPermutes(SortBy(s[..|s| - 1], le), s[|s| - 1], le);
      assert s == s[..|s| - 1] + [s[|s| - 1]];
    }
  }

  lemma {:induction false} InsertSorted<T(!new)>(s: seq<T>, x: T, le: (T, T) -> bool)
    requires TotalPreorder(le) && Sorted(s, le)
    ensures Sorted(Insert(s, x, le), le)
  {
    if s != [] {
      if le(s[0], x) {
        InsertSorted(s[1..], x, le);
        InsertPermutes(s[1..], x, le);
        var r := Insert(s[1..], x, le);
        forall k | 0 <= k < |r| ensures le(s[0], r[k]) {
          assert r[k] in multiset(r);
          assert r[k] == x || r[k] in s[1..];
        }
      } else {
        assert le(x, s[0]);
      }
    }
  }

  /** Sorting orders its input. */
  lemma {:induction false} SortSorted<T(!new)>(s: seq<T>, le: (T, T) -> bool)
    requires TotalPreorder(le)
    ensures Sorted(SortBy(s, le), le)
  {
    if s != [] {
      SortSorted(s[..|s| - 1], le);
      InsertSorted(SortBy(s[..|s| - 1], le), s[|s| - 1], le);
    }
  }

  lemma {:induction false} TiesAppend<T>(a: seq<T>, b: seq<T>, x: T, le: (T, T) -> bool)
    ensures Ties(a + b, x, le) == Ties(a, x, le) + Ties(b, x, le)
  {
    if a == [] {
      assert a + b == b;
    } else {
      TiesAppend(a[1..], b, x, le);
      assert (a + b)[1..] == a[1..] + b;
    }
  }

  lemma {:induction false} TiesNone<T>(s: seq<T>, x: T, le: (T, T) -> bool)
    requires forall k :: 0 <= k < |s| ==> !Equivalent(s[k], x, le)
    ensures Ties(s, x, le) == []
  {
    if s != [] {
      TiesNone(s[1..], x, le);
    }
  }

  lemma {:induction false} InsertTies<T(!new)>(s: seq<T>, y: T, x: T, le: (T, T) -> bool)
    requires TotalPreorder(le) && Sorted(s, le)
    ensures Ties(Insert(s, y, le), x, le) == Ties(s, x, le) + Ties([y], x, le)
  {
    if s == [] {
    } else if le(s[0], y) {
      InsertTies(s[1..], y, x, le);
      assert ([s[0]] + Insert(s[1..], y, le))[1..] == Insert(s[1..], y, le);
    } else {
      if Equivalent(y, x, le) {
        forall k | 0 <= k < |s| ensures !Equivalent(s[k], x, le) {
          if k > 0 { assert le(s[0], s[k]); }
        }
        TiesNone(s, x, le);
      }
      assert ([y] + s)[1..] == s;
    }
  }

  /** Sorting is stable: elements that compare equal keep their input order. */
  lemma {:induction false} SortStable<T(!new)>(s: seq<T>, x: T, le: (T, T) -> bool)
    requires TotalPreorder(le)
    ensures Ties(SortBy(s, le), x, le) == Ties(s, x, le)
  {
    if s != [] {
      var init, last := s[..|s| - 1], s[|s| - 1];
      SortStable(init, x, le);
      SortSorted(init, le);
      InsertTies(SortBy(init, le), last, x, le);
      TiesAppend(init, [last], x, le);
      assert s == init + [last];
    }
  }

  lemma {:induction false} FirstTie<T>(s: seq<T>, x: T, le: (T, T) -> bool)
    requires Ties(s, x, le) != []
    ensures exists k :: 0 <= k < |s| && s[k] == Ties(s, x, le)[0]
                        && forall j :: 0 <= j < k ==> !Equivalent(s[j], x, le)
  {
    if !Equivalent(s[0], x, le) {
      FirstTie(s[1..], x, le);
      var k :| 0 <= k < |s[1..]| && s[1..][k] == Ties(s[1..], x, le)[0]
               && forall j :: 0 <= j < k ==> !Equivalent(s[1..][j], x, le);
      assert s[k + 1] == Ties(s, x, le)[0];
      forall j | 0 <= j < k + 1 ensures !Equivalent(s[j], x, le) {
        if j > 0 { assert s[j] == s[1..][j - 1]; }
      }
    } else {
      assert s[0] == Ties(s, x, le)[0];
    }
  }

  /**
   * The first element of the sorted sequence may stand before every element
   * of the input, and it is the earliest input element to do so.
   */
  lemma SortHead<T(!new)>(s: seq<T>, le: (T, T) -> bool)
    requires TotalPreorder(le) && |s| > 0
    ensures SortBy(s, le)[0] in s
    ensures forall k :: 0 <= k < |s| ==> le(SortBy(s, le)[0], s[k])
    ensures exists k :: 0 <= k < |s| && s[k] == SortBy(s, le)[0]
                        && forall j :: 0 <= j < k ==> !le(s[j], SortBy(s, le)[0])
  {
    var r := SortBy(s, le);
    var h := r[0];
    SortPermutes(s, le);
    SortSorted(s, le);
    assert h in multiset(s);
    forall k | 0 <= k < |s| ensures le(h, s[k]) {
      assert s[k] in multiset(r);
      var i :| 0 <= i < |r| && r[i] == s[k];
      if i == 0 { assert le(h, h) || le(h, h); }
    }
    SortStable(s, h, le);
    assert le(h, h) || le(h, h);
    assert Ties(r, h, le) == [h] + Ties(r[1..], h, le);
    FirstTie(s, h, le);
  }
}
