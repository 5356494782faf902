/**
 The stable sort of Rust's `slice::sort_by`, as a functional insertion sort
 over a "may go before" relation `le`. The three sorts of the scanner (open
 ports by number, detected vulnerabilities by id, vulnerabilities by score)
 are instances.

 Stability is stated through `Ties`: the elements tied with any `z` come out
 in the order they went in. Together with sortedness and the permutation
 property this determines the output.
 */
module Sorting {

  /** Every two elements are comparable, and the relation is transitive. */
  ghost predicate TotalPreorder<T(!new)>(le: (T, T) -> bool) {
    (forall a, b :: le(a, b) || le(b, a)) &&
    (forall a, b, c :: le(a, b) && le(b, c) ==> le(a, c))
  }

  predicate Sorted<T>(s: seq<T>, le: (T, T) -> bool) {
    forall i, j :: 0 <= i < j < |s| ==> le(s[i], s[j])
  }

  /** The elements of `s` that compare equal to `z`, in their order in `s`. */
  function Ties<T>(s: seq<T>, z: T, le: (T, T) -> bool): (r: seq<T>)
    ensures |r| <= |s|
  {
    if |s| == 0 then []
    else if le(s[0], z) && le(z, s[0]) then [s[0]] + Ties(s[1..], z, le)
    else Ties(s[1..], z, le)
  }

  lemma {:induction false} TiesConcat<T>(a: seq<T>, b: seq<T>, z: T, le: (T, T) -> bool)
    ensures Ties(a + b, z, le) == Ties(a, z, le) + Ties(b, z, le)
  {
    if |a| == 0 {
      assert a + b == b;
    } else {
      assert (a + b)[1..] == a[1..] + b;
      TiesConcat(a[1..], b, z, le);
    }
  }

  /** Put `x` after every element of `s` that may go before it. */
  function Insert<T>(s: seq<T>, x: T, le: (T, T) -> bool): (r: seq<T>)
    ensures |r| == |s| + 1
    ensures multiset(r) == multiset(s) + multiset{x}
  {
    if |s| == 0 then [x]
    else if le(s[0], x) then
      assert s == [s[0]] + s[1..];
      [s[0]] + Insert(s[1..], x, le)
    else [x] + s
  }

  /** A lower bound of `x` and of every element of `s` bounds the whole insertion. */
  lemma InsertKeepsLower<T>(s: seq<T>, x: T, le: (T, T) -> bool, a: T)
    requires le(a, x) && forall k :: 0 <= k < |s| ==> le(a, s[k])
    ensures forall y :: y in Insert(s, x, le) ==> le(a, y)
  {
    forall y | y in Insert(s, x, le)
      ensures le(a, y)
    {
      assert y in multiset(Insert(s, x, le));
      if y != x {
        assert y in multiset(s);
        var k :| 0 <= k < |s| && s[k] == y;
      }
    }
  }

  lemma {:induction false} InsertSorted<T(!new)>(s: seq<T>, x: T, le: (T, T) -> bool)
    requires TotalPreorder(le) && Sorted(s, le)
    ensures Sorted(Insert(s, x, le), le)
  {
    if |s| > 0 && le(s[0], x) {
      InsertSorted(s[1..], x, le);
      var rest := Insert(s[1..], x, le);
      assert forall k :: 0 <= k < |s[1..]| ==> le(s[0], s[1..][k]) by {
        forall k | 0 <= k < |s[1..]| ensures le(s[0], s[1..][k]) {
          assert s[1..][k] == s[k + 1];
        }
      }
      InsertKeepsLower(s[1..], x, le, s[0]);
      var r := [s[0]] + rest;
      forall i, j | 0 <= i < j < |r|
        ensures le(r[i], r[j])
      {
        if i == 0 {
          assert r[j] == rest[j - 1];
          assert rest[j - 1] in rest;
        } else {
          assert r[i] == rest[i - 1] && r[j] == rest[j - 1];
        }
      }
    }
  }

  /** No element of a sorted list ties with an element that must go before its head. */
  lemma NoTiesBefore<T(!new)>(s: seq<T>, x: T, le: (T, T) -> bool)
    requires TotalPreorder(le) && Sorted(s, le)
    requires |s| > 0 && !le(s[0], x)
    ensures Ties(s, x, le) == []
  {
    forall k | 0 <= k < |s|
      ensures !(le(s[k], x) && le(x, s[k]))
    {
      if k > 0 {
        assert le(s[0], s[k]);
      }
    }
    TiesAllOut(s, x, le);
  }

  lemma {:induction false} TiesAllOut<T>(s: seq<T>, x: T, le: (T, T) -> bool)
    requires forall k :: 0 <= k < |s| ==> !(le(s[k], x) && le(x, s[k]))
    ensures Ties(s, x, le) == []
  {
    if |s| > 0 {
      assert forall k :: 0 <= k < |s[1..]| ==> s[1..][k] == s[k + 1];
      TiesAllOut(s[1..], x, le);
    }
  }

  /** Inserting `x` adds it at the end of its own tie group and nowhere else. */
  lemma {:induction false} InsertTies<T(!new)>(s: seq<T>, x: T, z: T, le: (T, T) -> bool)
    requires TotalPreorder(le) && Sorted(s, le)
    ensures Ties(Insert(s, x, le), z, le) == Ties(s, z, le) + Ties([x], z, le)
  {
    if |s| == 0 {
    } else if le(s[0], x) {
      assert Sorted(s[1..], le);
      InsertTies(s[1..], x, z, le);
    } else {
      assert Insert(s, x, le) == [x] + s;
      TiesConcat([x], s, z, le);
      if le(x, z) && le(z, x) {
        NoTiesBefore(s, z, le);
      }
    }
  }

  /** Insertion sort, inserting the elements in order from the first. */
  function Sort<T>(s: seq<T>, le: (T, T) -> bool): (r: seq<T>)
    ensures |r| == |s|
    ensures multiset(r) == multiset(s)
  {
    if |s| == 0 then []
    else
      assert s == s[..|s| - 1] + [s[|s| - 1]];
      Insert(Sort(s[..|s| - 1], le), s[|s| - 1], le)
  }

  /** The sort's output is ordered. */
  lemma {:induction false} SortSorted<T(!new)>(s: seq<T>, le: (T, T) -> bool)
    requires TotalPreorder(le)
    ensures Sorted(Sort(s, le), le)
  {
    if |s| > 0 {
      SortSorted(s[..|s| - 1], le);
      InsertSorted(Sort(s[..|s| - 1], le), s[|s| - 1], le);
    }
  }

  /** The sort is stable: elements that tie keep their input order. */
  lemma {:induction false} SortStable<T(!new)>(s: seq<T>, z: T, le: (T, T) -> bool)
    requires TotalPreorder(le)
    ensures Ties(Sort(s, le), z, le) == Ties(s, z, le)
  {
    if |s| > 0 {
      var init := s[..|s| - 1];
      var last := s[|s| - 1];
      SortStable(init, z, le);
      SortSorted(init, le);
      InsertTies(Sort(init, le), last, z, le);
      assert s == init + [last];
      TiesConcat(init, [last], z, le);
    }
  }

  /** A list that is already ordered comes out unchanged. */
  lemma {:induction false} SortOfSorted<T>(s: seq<T>, le: (T, T) -> bool)
    requires Sorted(s, le)
    ensures Sort(s, le) == s
  {
    if |s| > 0 {
      var init := s[..|s| - 1];
      assert Sorted(init, le);
      SortOfSorted(init, le);
      InsertAtEnd(init, s[|s| - 1], le);
      assert init + [s[|s| - 1]] == s;
    }
  }

  lemma {:induction false} InsertAtEnd<T>(s: seq<T>, x: T, le: (T, T) -> bool)
    requires forall k :: 0 <= k < |s| ==> le(s[k], x)
    ensures Insert(s, x, le) == s + [x]
  {
    if |s| > 0 {
      assert forall k :: 0 <= k < |s[1..]| ==> s[1..][k] == s[k + 1];
      InsertAtEnd(s[1..], x, le);
      assert [s[0]] + (s[1..] + [x]) == s + [x];
    }
  }

  /**
   Two ordered lists with the same elements are equal, provided elements
   that tie are identical: the sorted result does not depend on the order
   the elements arrived in.
   */
  lemma {:induction false} SortedUnique<T>(a: seq<T>, b: seq<T>, le: (T, T) -> bool)
    requires Sorted(a, le) && Sorted(b, le) && multiset(a) == multiset(b)
    requires forall x, y :: x in a && y in a && le(x, y) && le(y, x) ==> x == y
    ensures a == b
  {
    if |a| == 0 {
      assert |multiset(b)| == 0;
    } else {
      assert |b| > 0 by {
        assert |multiset(b)| == |multiset(a)|;
      }
      SameHead(a, b, le);
      DropHead(a);
      DropHead(b);
      SortedUnique(a[1..], b[1..], le);
    }
  }

  /** Two ordered lists with the same elements start with the same element, when ties are identical. */
  lemma SameHead<T>(a: seq<T>, b: seq<T>, le: (T, T) -> bool)
    requires |a| > 0 && |b| > 0
    requires Sorted(a, le) && Sorted(b, le) && multiset(a) == multiset(b)
    requires forall x, y :: x in a && y in a && le(x, y) && le(y, x) ==> x == y
    ensures a[0] == b[0]
  {
    assert a[0] in multiset(b) && b[0] in multiset(a);
    var j :| 0 <= j < |b| && b[j] == a[0];
    var i :| 0 <= i < |a| && a[i] == b[0];
    if i > 0 && j > 0 {
      assert le(a[0], a[i]) && le(b[0], b[j]);
    }
  }

  /** Removing the head removes one copy of it from the multiset. */
  lemma DropHead<T>(s: seq<T>)
    requires |s| > 0
    ensures multiset(s[1..]) == multiset(s) - multiset{s[0]}
  {
    assert s == [s[0]] + s[1..];
  }
}
