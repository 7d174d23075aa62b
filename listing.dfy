/**
 * The listing projections of the web part: the Recent view
 * (`renderRecentDocuments`) and the client-side filter and sort applied to each
 * delta page of the "All Documents" view (`renderAllDocuments`).
 */
module Listing {
  import opened Wrappers
  import opened Items
  import opened Sorting

  /** The Recent view shows at most this many items. */
  const RecentLimit: nat := 10

  /** Seven days in milliseconds, `7 * 24 * 60 * 60 * 1000`. */
  const WeekMillis: int := 7 * 24 * 60 * 60 * 1000

  /** The values of the sort drop-down. */
  datatype SortOption = ModifiedDesc | ModifiedAsc | NameAsc | NameDesc

  /**
   * `localeCompare` is locale-dependent, so the name order is a parameter:
   * `collate(a, b)` stands for `a.localeCompare(b) <= 0`, which any locale makes
   * a total preorder.
   */
  ghost predicate CollationOrder(collate: (string, string) -> bool) {
    && (forall x, y :: collate(x, y) || collate(y, x))
    && (forall x, y, z :: collate(x, y) && collate(y, z) ==> collate(x, z))
  }

  /** `new Date(b) - new Date(a)` is not positive: newest first. */
  function NewestFirst(a: Item, b: Item): bool {
    Stamp(a) >= Stamp(b)
  }

  /** `new Date(a) - new Date(b)` is not positive: oldest first. */
  function OldestFirst(a: Item, b: Item): bool {
    Stamp(a) <= Stamp(b)
  }

  /** The comparator each sort option hands to `items.sort`. */
  function Comparator(opt: SortOption, collate: (string, string) -> bool): (Item, Item) -> bool {
    match opt
    case ModifiedDesc => NewestFirst
    case ModifiedAsc => OldestFirst
    case NameAsc => (a: Item, b: Item) => collate(SortName(a), SortName(b))
    case NameDesc => (a: Item, b: Item) => collate(SortName(b), SortName(a))
  }

  /** Every option sorts by a consistent comparator. */
  lemma ComparatorIsTotalPreorder(opt: SortOption, collate: (string, string) -> bool)
    requires opt == ModifiedDesc || opt == ModifiedAsc || CollationOrder(collate)
    ensures TotalPreorder(Comparator(opt, collate))
  {
    var le := Comparator(opt, collate);
    match opt
    case ModifiedDesc =>
      assert forall x, y :: le(x, y) == (Stamp(x) >= Stamp(y));
    case ModifiedAsc =>
      assert forall x, y :: le(x, y) == (Stamp(x) <= Stamp(y));
    case NameAsc =>
      forall x, y ensures le(x, y) || le(y, x) {
        assert collate(SortName(x), SortName(y)) || collate(SortName(y), SortName(x));
      }
      forall x, y, z | le(x, y) && le(y, z) ensures le(x, z) {
        assert collate(SortName(x), SortName(y)) && collate(SortName(y), SortName(z));
      }
    case NameDesc =>
      forall x, y ensures le(x, y) || le(y, x) {
        assert collate(SortName(x), SortName(y)) || collate(SortName(y), SortName(x));
      }
      forall x, y, z | le(x, y) && le(y, z) ensures le(x, z) {
        assert collate(SortName(z), SortName(y)) && collate(SortName(y), SortName(x));
      }
  }

  /** `s.filter(keep)`. */
  function Filter(s: seq<Item>, keep: Item -> bool): (r: seq<Item>)
    ensures |r| <= |s|
  {
    if s == [] then []
    else (if keep(s[0]) then [s[0]] else []) + Filter(s[1..], keep)
  }

  /** The filter keeps every copy of the items it accepts and nothing else. */
  lemma {:induction false} FilterCount(s: seq<Item>, keep: Item -> bool, x: Item)
    ensures multiset(Filter(s, keep))[x] == if keep(x) then multiset(s)[x] else 0
  {
    if s != [] {
      FilterCount(s[1..], keep, x);
      assert s == [s[0]] + s[1..];
    }
  }

  lemma FilterKeeps(s: seq<Item>, keep: Item -> bool)
    ensures forall k :: 0 <= k < |Filter(s, keep)| ==> keep(Filter(s, keep)[k])
  {
  }

  function NotFolder(i: Item): bool {
    !i.isFolder
  }

  /** The 7-day filter: the item's timestamp (0 when missing) is at least `now` minus a week. */
  function WithinLastWeek(now: int): Item -> bool {
    (i: Item) => Stamp(i) >= now - WeekMillis
  }

  function Min(a: nat, b: nat): nat {
    if a <= b then a else b
  }

  // ---------------------------------------------------------------------------
  // Recent view

  /** Folders dropped, newest first, the first ten. */
  function Recent(items: seq<Item>): seq<Item> {
    var sorted := Sort(Filter(items, NotFolder), NewestFirst);
    sorted[..Min(RecentLimit, |sorted|)]
  }

  /** Sorting newest first orders by timestamp and permutes. */
  lemma NewestSort(files: seq<Item>)
    ensures var t := Sort(files, NewestFirst);
      && (forall i, j :: 0 <= i < j < |t| ==> Stamp(t[i]) >= Stamp(t[j]))
      && multiset(t) == multiset(files)
  {
    ComparatorIsTotalPreorder(ModifiedDesc, (a: string, b: string) => true);
    SortSorted(files, NewestFirst);
    SortPermutes(files, NewestFirst);
  }

  /** A prefix of a newest-first permutation of `files` holds the newest elements of `files`. */
  lemma PrefixHoldsNewest(files: seq<Item>, t: seq<Item>, n: nat)
    requires n <= |t|
    requires multiset(t) == multiset(files)
    requires forall i, j :: 0 <= i < j < |t| ==> Stamp(t[i]) >= Stamp(t[j])
    ensures multiset(t[..n]) <= multiset(files)
    ensures forall x, y :: x in t[..n] && y in multiset(files) - multiset(t[..n]) ==> Stamp(y) <= Stamp(x)
  {
    var r := t[..n];
    assert t == r + t[n..];
    assert multiset(files) - multiset(r) == multiset(t[n..]);
    forall x, y | x in r && y in multiset(files) - multiset(r) ensures Stamp(y) <= Stamp(x) {
      assert y in t[n..];
      var i :| 0 <= i < n && r[i] == x;
      var j :| n <= j < |t| && t[j] == y;
      assert t[i] == x;
    }
  }

  /** No item of a filtered sequence, or of any permutation of it, fails the filter. */
  lemma PermutationOfFilterKeeps(s: seq<Item>, keep: Item -> bool, t: seq<Item>)
    requires multiset(t) == multiset(Filter(s, keep))
    ensures forall k :: 0 <= k < |t| ==> keep(t[k])
  {
    forall k | 0 <= k < |t| ensures keep(t[k]) {
      assert t[k] in multiset(t);
      FilterCount(s, keep, t[k]);
    }
  }

  /**
   * The Recent view holds no folder, as many items as the limit allows,
   * newest first, taken from the non-folder items, and no left-out non-folder
   * item is newer than one it shows.
   */
  lemma RecentIsTopTen(items: seq<Item>)
    ensures var r, files := Recent(items), Filter(items, NotFolder);
      && (forall k :: 0 <= k < |r| ==> !r[k].isFolder)
      && |r| == Min(RecentLimit, |files|)
      && (forall i, j :: 0 <= i < j < |r| ==> Stamp(r[i]) >= Stamp(r[j]))
      && multiset(r) <= multiset(files)
      && (forall x, y :: x in r && y in multiset(files) - multiset(r) ==> Stamp(y) <= Stamp(x))
  {
    var files := Filter(items, NotFolder);
    var t := Sort(files, NewestFirst);
    NewestSort(files);
    NewestPrefix(items, t, Min(RecentLimit, |t|));
  }

  /** The facts of `RecentIsTopTen` for any newest-first permutation `t` of the non-folder items. */
  lemma NewestPrefix(items: seq<Item>, t: seq<Item>, n: nat)
    requires n <= |t|
    requires multiset(t) == multiset(Filter(items, NotFolder))
    requires forall i, j :: 0 <= i < j < |t| ==> Stamp(t[i]) >= Stamp(t[j])
    ensures var r, files := t[..n], Filter(items, NotFolder);
      && (forall k :: 0 <= k < |r| ==> !r[k].isFolder)
      && |t| == |files|
      && (forall i, j :: 0 <= i < j < |r| ==> Stamp(r[i]) >= Stamp(r[j]))
      && multiset(r) <= multiset(files)
      && (forall x, y :: x in r && y in multiset(files) - multiset(r) ==> Stamp(y) <= Stamp(x))
  {
    var files := Filter(items, NotFolder);
    var r := t[..n];
    assert |t| == |multiset(t)| == |multiset(files)| == |files|;
    PermutationOfFilterKeeps(items, NotFolder, t);
    assert forall k :: 0 <= k < |r| ==> r[k] == t[k];
    PrefixHoldsNewest(files, t, n);
  }

  /** `renderRecentDocuments`' projection: filter, `items.sort` in place, `slice(0, 10)`. */
  method RecentProjection(items: seq<Item>) returns (r: seq<Item>)
    ensures r == Recent(items)
    ensures forall k :: 0 <= k < |r| ==> !r[k].isFolder
    ensures |r| == Min(RecentLimit, |Filter(items, NotFolder)|)
    ensures forall i, j :: 0 <= i < j < |r| ==> Stamp(r[i]) >= Stamp(r[j])
  {
    var files := Filter(items, NotFolder);
    var a := new Item[|files|](k requires 0 <= k < |files| => files[k]);
    assert a[..] == files;
    SortInPlace(a, NewestFirst);
    r := a[..Min(RecentLimit, a.Length)];
    RecentIsTopTen(items);
  }

  // ---------------------------------------------------------------------------
  // "All Documents" page

  /** The optional 7-day filter. */
  function Filtered(items: seq<Item>, last7Days: bool, now: int): seq<Item> {
    if last7Days then Filter(items, WithinLastWeek(now)) else items
  }

  /** One page of the "All Documents" view after the client-side filter and sort. */
  function Transformed(items: seq<Item>, opt: SortOption, last7Days: bool, now: int,
                       collate: (string, string) -> bool): seq<Item> {
    Sort(Filtered(items, last7Days, now), Comparator(opt, collate))
  }

  /** With the filter on, an item stays iff its timestamp (0 when missing) is within the week. */
  lemma FilteredKeeps(items: seq<Item>, last7Days: bool, now: int, x: Item)
    ensures multiset(Filtered(items, last7Days, now))[x]
         == if !last7Days || Stamp(x) >= now - WeekMillis then multiset(items)[x] else 0
  {
    if last7Days {
      FilterCount(items, WithinLastWeek(now), x);
    }
  }

  /** A filter that accepts every item returns its input. */
  lemma {:induction false} FilterAllKept(s: seq<Item>, keep: Item -> bool)
    requires forall k :: 0 <= k < |s| ==> keep(s[k])
    ensures Filter(s, keep) == s
  {
    if s != [] {
      FilterAllKept(s[1..], keep);
      assert s == [s[0]] + s[1..];
    }
  }

  /** Transforming an already transformed page again, with the same settings, changes nothing. */
  lemma TransformIdempotent(items: seq<Item>, opt: SortOption, last7Days: bool, now: int,
                            collate: (string, string) -> bool)
    requires CollationOrder(collate)
    ensures var t := Transformed(items, opt, last7Days, now, collate);
      Transformed(t, opt, last7Days, now, collate) == t
  {
    var le := Comparator(opt, collate);
    var kept := Filtered(items, last7Days, now);
    var t := Sort(kept, le);
    if last7Days {
      SortPermutes(kept, le);
      PermutationOfFilterKeeps(items, WithinLastWeek(now), t);
      FilterAllKept(t, WithinLastWeek(now));
    }
    assert Filtered(t, last7Days, now) == t;
    ComparatorIsTotalPreorder(opt, collate);
    SortIdempotent(kept, le);
  }

  /**
   * `renderAllDocuments`' client-side step: filter (a new array), then the
   * selected `items.sort` in place. The result is a permutation of the filtered
   * page in the order the option names.
   */
  method TransformPage(items: seq<Item>, opt: SortOption, last7Days: bool, now: int,
                       collate: (string, string) -> bool) returns (r: seq<Item>)
    ensures r == Transformed(items, opt, last7Days, now, collate)
    ensures multiset(r) == multiset(Filtered(items, last7Days, now))
    ensures !last7Days ==> multiset(r) == multiset(items)
    ensures opt == ModifiedDesc ==> forall i, j :: 0 <= i < j < |r| ==> Stamp(r[i]) >= Stamp(r[j])
    ensures opt == ModifiedAsc ==> forall i, j :: 0 <= i < j < |r| ==> Stamp(r[i]) <= Stamp(r[j])
    ensures opt == NameAsc && CollationOrder(collate) ==>
      forall i, j :: 0 <= i < j < |r| ==> collate(SortName(r[i]), SortName(r[j]))
    ensures opt == NameDesc && CollationOrder(collate) ==>
      forall i, j :: 0 <= i < j < |r| ==> collate(SortName(r[j]), SortName(r[i]))
  {
    var kept := Filtered(items, last7Days, now);
    var a := new Item[|kept|](k requires 0 <= k < |kept| => kept[k]);
    assert a[..] == kept;
    var le := Comparator(opt, collate);
    SortInPlace(a, le);
    r := a[..];
    SortPermutes(kept, le);
    if opt == ModifiedDesc || opt == ModifiedAsc || CollationOrder(collate) {
      ComparatorIsTotalPreorder(opt, collate);
      SortSorted(kept, le);
      forall i, j | 0 <= i < j < |r| ensures le(r[i], r[j]) {
      }
    }
  }
}
