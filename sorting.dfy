/**
 * `Array.prototype.sort` with a comparator, which is stable: the model is an
 * insertion sort by a "sorts no later than" relation `le`, where
 * `le(a, b)` stands for `compare(a, b) <= 0`.
 */
module Sorting {
  import opened Items

  /** A comparator that is consistent: total and transitive. */
  ghost predicate TotalPreorder(le: (Item, Item) -> bool) {
    && (forall x, y :: le(x, y) || le(y, x))
    && (forall x, y, z :: le(x, y) && le(y, z) ==> le(x, z))
  }

  predicate SortedBy(s: seq<Item>, le: (Item, Item) -> bool) {
    forall i, j :: 0 <= i < j < |s| ==> le(s[i], s[j])
  }

  /**
   * Inserts `x` after every trailing element that does not sort no later than it:
   * scanning from the right, `x` stops behind the first element `e` with `le(e, x)`,
   * so it lands after the elements it ties with.
   */
  function Insert(t: seq<Item>, x: Item, le: (Item, Item) -> bool): (r: seq<Item>)
    ensures |r| == |t| + 1
  {
    if t == [] then [x]
    else if le(t[|t| - 1], x) then t + [x]
    else Insert(t[..|t| - 1], x, le) + [t[|t| - 1]]
  }

  /** Insertion adds exactly `x`. */
  lemma {:induction false} InsertPermutes(t: seq<Item>, x: Item, le: (Item, Item) -> bool)
    ensures multiset(Insert(t, x, le)) == multiset(t) + multiset{x}
  {
    if t != [] && !le(t[|t| - 1], x) {
      InsertPermutes(t[..|t| - 1], x, le);
      assert t == t[..|t| - 1] + [t[|t| - 1]];
    }
  }

  /** The stable sort of `s` by `le`: each element is inserted in turn, left to right. */
  function Sort(s: seq<Item>, le: (Item, Item) -> bool): (r: seq<Item>)
    ensures |r| == |s|
  {
    if s == [] then []
    else Insert(Sort(s[..|s| - 1], le), s[|s| - 1], le)
  }

  /** The sort is a permutation of its input. */
  lemma {:induction false} SortPermutes(s: seq<Item>, le: (Item, Item) -> bool)
    ensures multiset(Sort(s, le)) == multiset(s)
  {
    if s != [] {
      SortPermutes(s[..|s| - 1], le);
      InsertPermutes(Sort(s[..|s| - 1], le), s[|s| - 1], le);
      assert s == s[..|s| - 1] + [s[|s| - 1]];
    }
  }

  lemma {:induction false} InsertSorted(t: seq<Item>, x: Item, le: (Item, Item) -> bool)
    requires TotalPreorder(le)
    requires SortedBy(t, le)
    ensures SortedBy(Insert(t, x, le), le)
  {
    if t != [] {
      var last := t[|t| - 1];
      if !le(last, x) {
        var init := t[..|t| - 1];
        InsertSorted(init, x, le);
        var r' := Insert(init, x, le);
        InsertPermutes(init, x, le);
        assert le(x, last);
        forall e | e in r' ensures le(e, last) {
          assert e in multiset(r');
          if e != x {
            assert e in multiset(init);
            assert e in init;
          }
        }
        assert Insert(t, x, le) == r' + [last];
      }
    }
  }

  /** The sort orders its result. */
  lemma {:induction false} SortSorted(s: seq<Item>, le: (Item, Item) -> bool)
    requires TotalPreorder(le)
    ensures SortedBy(Sort(s, le), le)
  {
    if s != [] {
      SortSorted(s[..|s| - 1], le);
      InsertSorted(Sort(s[..|s| - 1], le), s[|s| - 1], le);
    }
  }

  /** An input that is already in order is left exactly as it is (no tie is reordered). */
  lemma {:induction false} SortOfSorted(s: seq<Item>, le: (Item, Item) -> bool)
    requires SortedBy(s, le)
    ensures Sort(s, le) == s
  {
    if s != [] {
      var init := s[..|s| - 1];
      assert SortedBy(init, le);
      SortOfSorted(init, le);
      assert s == init + [s[|s| - 1]];
    }
  }

  /** Sorting twice gives the same order as sorting once. */
  lemma SortIdempotent(s: seq<Item>, le: (Item, Item) -> bool)
    requires TotalPreorder(le)
    ensures Sort(Sort(s, le), le) == Sort(s, le)
  {
    SortSorted(s, le);
    SortOfSorted(Sort(s, le), le);
  }

  /** One insertion step: shifts `a[i]` left into the sorted prefix `a[..i]`. */
  method InsertAt(a: array<Item>, i: nat, le: (Item, Item) -> bool)
    requires i < a.Length
    modifies a
    ensures a[..i + 1] == Insert(old(a[..i]), old(a[i]), le)
    ensures a[i + 1..] == old(a[i + 1..])
  {
    ghost var done := a[..i];
    var x := a[i];
    var j := i;
    while j > 0 && !le(a[j - 1], x)
      invariant 0 <= j <= i
      invariant a[..j] == done[..j]
      invariant a[j + 1..i + 1] == done[j..]
      invariant a[i + 1..] == old(a[i + 1..])
      invariant Insert(done, x, le) == Insert(done[..j], x, le) + done[j..]
    {
      assert done[..j][..j - 1] == done[..j - 1];
      assert [done[j - 1]] + done[j..] == done[j - 1..];
      a[j] := a[j - 1];
      j := j - 1;
    }
    assert Insert(done[..j], x, le) == done[..j] + [x];
    a[j] := x;
    assert a[..i + 1] == a[..j] + [a[j]] + a[j + 1..i + 1];
  }

  /** `a.sort(compare)` in place: an insertion sort whose result is `Sort(old(a[..]))`. */
  method SortInPlace(a: array<Item>, le: (Item, Item) -> bool)
    modifies a
    ensures a[..] == Sort(old(a[..]), le)
  {
    ghost var input := a[..];
    var i := 0;
    while i < a.Length
      invariant 0 <= i <= a.Length
      invariant a[..i] == Sort(input[..i], le)
      invariant a[i..] == input[i..]
    {
      ghost var pre := a[..];
      assert pre[..i] == Sort(input[..i], le);
      assert pre[i] == input[i] by { assert pre[i..][0] == input[i..][0]; }
      InsertAt(a, i, le);
      assert input[..i + 1][..i] == input[..i];
      assert Sort(input[..i + 1], le) == Insert(Sort(input[..i], le), input[i], le);
      assert a[i + 1..] == input[i + 1..] by {
        assert pre[i + 1..] == pre[i..][1..] && input[i + 1..] == input[i..][1..];
      }
      i := i + 1;
    }
    assert a[..] == a[..a.Length];
    assert input[..a.Length] == input;
  }
}
