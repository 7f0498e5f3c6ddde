/** Paging and sorting of list resources: the slices that `get_resource_list` and
    `Adapter.fetch_all` answer, and the stable sort they are taken from. */
module Paging {

  /* Slices */

  /** Where Python's slicing puts an index into a sequence of length n. */
  function Clamp(i: int, n: nat): (k: nat)
    ensures k <= n
  {
    if i < 0 then (if n + i < 0 then 0 else n + i) else if i > n then n else i
  }

  /** `s[lo:hi]` */
  function Slice<T>(s: seq<T>, lo: int, hi: int): seq<T> {
    var a, b := Clamp(lo, |s|), Clamp(hi, |s|);
    if a < b then s[a..b] else []
  }

  datatype Page<T> = Page(all: nat, results: nat, items: seq<T>)

  /** The page of `get_resource_list`: everything when no argument is given. */
  function ResourcePage<T>(items: seq<T>, start: int, after: int, limit: int): Page<T> {
    var shown := if start == after == limit == 0 then items
                 else Slice(items, start + after, start + after + limit);
    Page(|items|, |shown|, shown)
  }

  /** The page of `Adapter.fetch_all`, which ignores `after`. */
  function FetchAllPage<T>(items: seq<T>, start: int, limit: int): Page<T> {
    var shown := if start > |items| then []
                 else if limit == 0 then Slice(items, start, |items|)
                 else Slice(items, start, start + limit);
    Page(|items|, |shown|, shown)
  }

  /** The pages a client reads at start = from, from + limit, ... until the list is exhausted. */
  function PagesFrom<T>(items: seq<T>, from: nat, limit: nat): seq<Page<T>>
    requires limit > 0
    decreases |items| - from
  {
    if from >= |items| then []
    else [ResourcePage(items, from, 0, limit)] + PagesFrom(items, from + limit, limit)
  }

  function Concatenated<T>(pages: seq<Page<T>>): seq<T> {
    if pages == [] then [] else pages[0].items + Concatenated(pages[1..])
  }

  function TotalResults<T>(pages: seq<Page<T>>): nat {
    if pages == [] then 0 else pages[0].results + TotalResults(pages[1..])
  }

  lemma PageFrom<T>(items: seq<T>, from: nat, limit: nat)
    requires limit > 0 && from < |items|
    ensures var end := if from + limit < |items| then from + limit else |items|;
            ResourcePage(items, from, 0, limit) == Page(|items|, end - from, items[from..end])
  {
  }

  /** Reading page after page returns every item once, in order. */
  lemma {:induction false} PagesTile<T>(items: seq<T>, from: nat, limit: nat)
    requires limit > 0 && from <= |items|
    ensures Concatenated(PagesFrom(items, from, limit)) == items[from..]
    ensures TotalResults(PagesFrom(items, from, limit)) == |items| - from
    ensures forall k :: 0 <= k < |PagesFrom(items, from, limit)| ==> PagesFrom(items, from, limit)[k].all == |items|
    decreases |items| - from
  {
    if from < |items| {
      PageFrom(items, from, limit);
      hide ResourcePage;
      var page, rest := ResourcePage(items, from, 0, limit), PagesFrom(items, from + limit, limit);
      assert PagesFrom(items, from, limit) == [page] + rest;
      PagesCons(page, rest);
      if from + limit < |items| {
        PagesTile(items, from + limit, limit);
        hide PagesFrom;
        hide Concatenated;
        hide TotalResults;
        SuffixSplits(items, from, from + limit);
      } else {
        assert rest == [];
        SuffixSplits(items, from, |items|);
      }
    }
  }

  lemma SuffixSplits<T>(items: seq<T>, from: nat, end: nat)
    requires from <= end <= |items|
    ensures items[from..] == items[from..end] + items[end..]
  {
  }

  lemma PagesCons<T>(page: Page<T>, rest: seq<Page<T>>)
    ensures Concatenated([page] + rest) == page.items + Concatenated(rest)
    ensures TotalResults([page] + rest) == page.results + TotalResults(rest)
  {
    assert ([page] + rest)[1..] == rest;
  }

  /** A page depends only on the sum of its two offsets. */
  lemma OffsetsAdd<T>(items: seq<T>, start: int, after: int, start': int, after': int, limit: int)
    requires limit != 0 && start + after == start' + after'
    ensures ResourcePage(items, start, after, limit) == ResourcePage(items, start', after', limit)
  {
  }

  /** The two paging functions agree exactly when a limit is given, or nothing is asked for, or
      nothing is left: a zero limit means "all the rest" to one of them and "none" to the other. */
  lemma PagersAgree<T>(items: seq<T>, start: int, limit: int)
    ensures FetchAllPage(items, start, limit) == ResourcePage(items, start, 0, limit)
       <==> limit != 0 || start == 0 || start >= |items| || items == []
  {
    if limit == 0 && start == 0 {
      assert Slice(items, 0, |items|) == items;
    }
    if limit == 0 && start != 0 && start < |items| && items != [] {
      assert |Slice(items, start, |items|)| > 0;
    }
  }

  /* Sorting */

  /** `x` must stand before `y` in the sorted order. */
  predicate Before<T>(key: T -> int, reverse: bool, x: T, y: T) {
    if reverse then key(x) > key(y) else key(x) < key(y)
  }

  function Insert<T>(key: T -> int, reverse: bool, x: T, ys: seq<T>): seq<T> {
    if ys == [] || !Before(key, reverse, ys[0], x) then [x] + ys
    else [ys[0]] + Insert(key, reverse, x, ys[1..])
  }

  /** `sorted(xs, key=key, reverse=reverse)` */
  function Sorted<T>(key: T -> int, reverse: bool, xs: seq<T>): seq<T> {
    if xs == [] then [] else Insert(key, reverse, xs[0], Sorted(key, reverse, xs[1..]))
  }

  ghost predicate Ordered<T>(key: T -> int, reverse: bool, ys: seq<T>) {
    forall i, j :: 0 <= i < j < |ys| ==> !Before(key, reverse, ys[j], ys[i])
  }

  /** The items of one key, in the order in which they stand. */
  function WithKey<T>(key: T -> int, xs: seq<T>, k: int): seq<T> {
    if xs == [] then []
    else (if key(xs[0]) == k then [xs[0]] else []) + WithKey(key, xs[1..], k)
  }

  lemma {:induction false} InsertOrdered<T>(key: T -> int, reverse: bool, x: T, ys: seq<T>)
    requires Ordered(key, reverse, ys)
    ensures Ordered(key, reverse, Insert(key, reverse, x, ys))
    ensures multiset(Insert(key, reverse, x, ys)) == multiset(ys) + multiset{x}
  {
    if ys != [] && Before(key, reverse, ys[0], x) {
      var rest := Insert(key, reverse, x, ys[1..]);
      InsertOrdered(key, reverse, x, ys[1..]);
      assert ys == [ys[0]] + ys[1..];
      forall y | y in rest ensures !Before(key, reverse, y, ys[0]) {
        assert y in multiset(rest);
        assert y == x || y in ys[1..];
      }
      OrderedCons(key, reverse, ys[0], rest);
    } else {
      forall y | y in ys ensures !Before(key, reverse, y, x) {
        assert !Before(key, reverse, y, ys[0]);
      }
      OrderedCons(key, reverse, x, ys);
    }
  }

  lemma OrderedCons<T>(key: T -> int, reverse: bool, x: T, ys: seq<T>)
    requires Ordered(key, reverse, ys) && forall y :: y in ys ==> !Before(key, reverse, y, x)
    ensures Ordered(key, reverse, [x] + ys)
  {
    hide Before;
    var zs := [x] + ys;
    forall i, j | 0 <= i < j < |zs| ensures !Before(key, reverse, zs[j], zs[i]) {
      assert zs[j] == ys[j - 1];
    }
  }

  lemma {:induction false} SortedOrdered<T>(key: T -> int, reverse: bool, xs: seq<T>)
    ensures Ordered(key, reverse, Sorted(key, reverse, xs))
    ensures multiset(Sorted(key, reverse, xs)) == multiset(xs)
  {
    if xs != [] {
      SortedOrdered(key, reverse, xs[1..]);
      InsertOrdered(key, reverse, xs[0], Sorted(key, reverse, xs[1..]));
      assert xs == [xs[0]] + xs[1..];
    }
  }

  lemma {:induction false} InsertStable<T>(key: T -> int, reverse: bool, x: T, ys: seq<T>, k: int)
    ensures WithKey(key, Insert(key, reverse, x, ys), k) == WithKey(key, [x] + ys, k)
  {
    if ys != [] && Before(key, reverse, ys[0], x) {
      InsertStable(key, reverse, x, ys[1..], k);
      assert ([x] + ys[1..])[1..] == ys[1..] && ([x] + ys)[1..] == ys;
      assert Insert(key, reverse, x, ys)[1..] == Insert(key, reverse, x, ys[1..]);
    }
  }

  /** Items with equal keys keep the order they came in, in either direction. */
  lemma {:induction false} SortedStable<T>(key: T -> int, reverse: bool, xs: seq<T>, k: int)
    ensures WithKey(key, Sorted(key, reverse, xs), k) == WithKey(key, xs, k)
  {
    if xs != [] {
      SortedStable(key, reverse, xs[1..], k);
      var ys := Sorted(key, reverse, xs[1..]);
      InsertStable(key, reverse, xs[0], ys, k);
      assert ([xs[0]] + ys)[1..] == ys;
    }
  }

  lemma {:induction false} KeyPresent<T>(key: T -> int, xs: seq<T>, k: int)
    ensures WithKey(key, xs, k) != [] <==> exists i :: 0 <= i < |xs| && key(xs[i]) == k
  {
    if xs != [] {
      KeyPresent(key, xs[1..], k);
      assert forall i :: 1 <= i < |xs| ==> xs[i] == xs[1..][i - 1];
    }
  }

  /** An ordered, stable arrangement is unique: any correct `sorted` gives this one. */
  lemma {:induction false} StableOrderUnique<T>(key: T -> int, reverse: bool, a: seq<T>, b: seq<T>)
    requires Ordered(key, reverse, a) && Ordered(key, reverse, b)
    requires forall k :: WithKey(key, a, k) == WithKey(key, b, k)
    ensures a == b
  {
    if a == [] {
      if b != [] {
        FirstKeysAgree(key, reverse, b, a);
      }
    } else {
      FirstKeysAgree(key, reverse, a, b);
      var k := key(a[0]);
      assert WithKey(key, a, k)[0] == a[0] && WithKey(key, b, k)[0] == b[0];
      forall j ensures WithKey(key, a[1..], j) == WithKey(key, b[1..], j) {
        assert WithKey(key, a, j) == WithKey(key, b, j);
        var head := if k == j then [a[0]] else [];
        assert WithKey(key, a, j) == head + WithKey(key, a[1..], j);
        assert WithKey(key, b, j) == head + WithKey(key, b[1..], j);
        assert (head + WithKey(key, a[1..], j))[|head|..] == WithKey(key, a[1..], j);
        assert (head + WithKey(key, b[1..], j))[|head|..] == WithKey(key, b[1..], j);
      }
      StableOrderUnique(key, reverse, a[1..], b[1..]);
      assert a == [a[0]] + a[1..] && b == [b[0]] + b[1..];
    }
  }

  lemma FirstKeysAgree<T>(key: T -> int, reverse: bool, a: seq<T>, b: seq<T>)
    requires Ordered(key, reverse, a) && Ordered(key, reverse, b) && a != []
    requires forall k :: WithKey(key, a, k) == WithKey(key, b, k)
    ensures b != [] && key(a[0]) == key(b[0])
  {
    KeyPresent(key, a, key(a[0]));
    KeyPresent(key, b, key(a[0]));
    assert WithKey(key, b, key(a[0])) != [];
    var i :| 0 <= i < |b| && key(b[i]) == key(a[0]);
    KeyPresent(key, b, key(b[0]));
    KeyPresent(key, a, key(b[0]));
    assert WithKey(key, a, key(b[0])) != [];
    var j :| 0 <= j < |a| && key(a[j]) == key(b[0]);
    assert i > 0 ==> !Before(key, reverse, b[i], b[0]);
    assert j > 0 ==> !Before(key, reverse, a[j], a[0]);
  }

  /** The arrangement ys of xs, position by position: order[i] is where item i of ys stands in xs. */
  ghost predicate Arrangement<T>(xs: seq<T>, ys: seq<T>, order: seq<nat>) {
    && |ys| == |xs| == |order|
    && (forall i :: 0 <= i < |order| ==> order[i] < |xs| && ys[i] == xs[order[i]])
    && forall i, j :: 0 <= i < j < |order| ==> order[i] != order[j]
  }

  /** Of any two items the first has the smaller key, or the greater in reverse, or the same key and stood
      first before. */
  ghost predicate StableOrder<T>(key: T -> int, reverse: bool, ys: seq<T>, order: seq<nat>)
    requires |ys| == |order|
  {
    forall i, j :: 0 <= i < j < |ys| ==>
                     || Before(key, reverse, ys[i], ys[j])
                     || (key(ys[i]) == key(ys[j]) && order[i] < order[j])
  }

  /** Where an item is inserted: behind all those that must stand before it. */
  lemma {:induction false} InsertedAt<T>(key: T -> int, reverse: bool, x: T, ys: seq<T>) returns (p: nat)
    ensures p <= |ys| && Insert(key, reverse, x, ys) == ys[..p] + [x] + ys[p..]
    ensures forall i :: 0 <= i < p ==> Before(key, reverse, ys[i], x)
    ensures p < |ys| ==> !Before(key, reverse, ys[p], x)
  {
    p := 0;
    if ys != [] && Before(key, reverse, ys[0], x) {
      var q := InsertedAt(key, reverse, x, ys[1..]);
      p := q + 1;
      assert ys[..p] == [ys[0]] + ys[1..][..q] && ys[p..] == ys[1..][q..];
      assert forall i :: 1 <= i < p ==> ys[i] == ys[1..][i - 1];
    }
  }

  /** The same positions, counted with one more item ahead. */
  function Shifted(order: seq<nat>): (r: seq<nat>)
    ensures |r| == |order| && forall i :: 0 <= i < |order| ==> r[i] == order[i] + 1
  {
    seq(|order|, i requires 0 <= i < |order| => order[i] + 1)
  }

  /** The sort is an arrangement of its input in stable order. */
  lemma {:induction false} SortedArranges<T>(key: T -> int, reverse: bool, xs: seq<T>) returns (order: seq<nat>)
    ensures Arrangement(xs, Sorted(key, reverse, xs), order)
    ensures StableOrder(key, reverse, Sorted(key, reverse, xs), order)
  {
    order := [];
    if xs != [] {
      var rest := SortedArranges(key, reverse, xs[1..]);
      var ys := Sorted(key, reverse, xs[1..]);
      var p := InsertedAt(key, reverse, xs[0], ys);
      order := Shifted(rest[..p]) + [0] + Shifted(rest[p..]);
      InsertArranges(key, reverse, xs, ys, rest, p);
    }
  }

  /** Item x and the positions after it has gone in at p, ahead of all others in the input. */
  ghost predicate InsertedIn<T>(x: T, ys: seq<T>, rest: seq<nat>, zs: seq<T>, order: seq<nat>, p: nat) {
    && p <= |ys| == |rest| && |zs| == |order| == |ys| + 1 && zs[p] == x && order[p] == 0
    && (forall i :: 0 <= i < p ==> zs[i] == ys[i] && order[i] == rest[i] + 1)
    && forall i :: p < i < |zs| ==> zs[i] == ys[i - 1] && order[i] == rest[i - 1] + 1
  }

  lemma InsertArranges<T>(key: T -> int, reverse: bool, xs: seq<T>, ys: seq<T>, rest: seq<nat>, p: nat)
    requires xs != [] && p <= |ys| && Arrangement(xs[1..], ys, rest) && StableOrder(key, reverse, ys, rest)
    requires forall i :: 0 <= i < p ==> Before(key, reverse, ys[i], xs[0])
    requires p < |ys| ==> !Before(key, reverse, ys[p], xs[0])
    ensures var zs, order := ys[..p] + [xs[0]] + ys[p..], Shifted(rest[..p]) + [0] + Shifted(rest[p..]);
            Arrangement(xs, zs, order) && StableOrder(key, reverse, zs, order)
  {
    hide Before;
    hide StableOrder;
    var zs, order := ys[..p] + [xs[0]] + ys[p..], Shifted(rest[..p]) + [0] + Shifted(rest[p..]);
    assert InsertedIn(xs[0], ys, rest, zs, order, p);
    InsertedArrangement(xs, ys, rest, zs, order, p);
    InsertedOrder(key, reverse, xs[0], ys, rest, zs, order, p);
  }

  lemma InsertedArrangement<T>(xs: seq<T>, ys: seq<T>, rest: seq<nat>, zs: seq<T>, order: seq<nat>, p: nat)
    requires xs != [] && Arrangement(xs[1..], ys, rest) && InsertedIn(xs[0], ys, rest, zs, order, p)
    ensures Arrangement(xs, zs, order)
  {
    forall i | 0 <= i < |order| ensures order[i] < |xs| && zs[i] == xs[order[i]] {
      if i != p {
        var k := if i < p then i else i - 1;
        assert ys[k] == xs[1..][rest[k]];
      }
    }
  }

  lemma InsertedOrder<T>(key: T -> int, reverse: bool, x: T, ys: seq<T>, rest: seq<nat>, zs: seq<T>,
                         order: seq<nat>, p: nat)
    requires InsertedIn(x, ys, rest, zs, order, p) && StableOrder(key, reverse, ys, rest)
    requires forall i :: 0 <= i < p ==> Before(key, reverse, ys[i], x)
    requires p < |ys| ==> !Before(key, reverse, ys[p], x)
    ensures StableOrder(key, reverse, zs, order)
  {
    forall i, j | 0 <= i < j < |zs|
      ensures Before(key, reverse, zs[i], zs[j]) || (key(zs[i]) == key(zs[j]) && order[i] < order[j])
    {
      if i == p {
        assert j - 1 > p ==> Before(key, reverse, ys[p], ys[j - 1]) || key(ys[p]) == key(ys[j - 1]);
      } else if j != p {
        var k, l := if i < p then i else i - 1, if j < p then j else j - 1;
        assert Before(key, reverse, ys[k], ys[l]) || (key(ys[k]) == key(ys[l]) && rest[k] < rest[l]);
      }
    }
  }

  /* A page, by the positions of its items */

  /** The position a slice bound stands for in a sequence of length n: a negative one counts from the end. */
  function BoundAt(x: int, n: nat): int {
    if x < 0 then n + x else x
  }

  /** The items at the positions from lo to hi, hi not included. */
  ghost predicate Stretch<T>(all: seq<T>, lo: int, hi: int, items: seq<T>) {
    exists a: nat, b: nat :: CutAt(all, lo, hi, items, a, b)
  }

  ghost predicate CutAt<T>(all: seq<T>, lo: int, hi: int, items: seq<T>, a: nat, b: nat) {
    && a <= b <= |all| && items == all[a..b]
    && forall i: nat :: i < |all| ==> (Within(i, a, b) <==> Within(i, BoundAt(lo, |all|), BoundAt(hi, |all|)))
  }

  predicate Within(i: nat, lo: int, hi: int) {
    lo <= i < hi
  }

  /** Everything when nothing is asked for; else the `limit` items from position start + after on. */
  ghost predicate PageOf<T>(all: seq<T>, start: int, after: int, limit: int, page: Page<T>) {
    && page.all == |all| && page.results == |page.items|
    && if start == 0 && after == 0 && limit == 0 then page.items == all
       else Stretch(all, start + after, start + after + limit, page.items)
  }

  lemma ResourcePageIs<T>(all: seq<T>, start: int, after: int, limit: int)
    ensures PageOf(all, start, after, limit, ResourcePage(all, start, after, limit))
  {
    var lo, hi := start + after, start + after + limit;
    var a, b := Clamp(lo, |all|), Clamp(hi, |all|);
    if a < b {
      assert CutAt(all, lo, hi, all[a..b], a, b);
    } else {
      assert all[0..0] == [];
      assert CutAt(all, lo, hi, [], 0, 0);
    }
  }
}
