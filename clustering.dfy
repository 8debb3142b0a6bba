/**
 * The axis-clustering scheme shared by every copy of `sort_xy` and by the stext pinout script:
 * items go into buckets keyed by an integer, kept in a dict whose keys stay in first-seen order,
 * then every bucket is sorted stably on a second integer.
 */
module Clustering {

  /** The items whose key is `k`, in input order. */
  function Group<T>(items: seq<T>, key: T -> int, k: int): (g: seq<T>)
    ensures |g| <= |items|
    ensures forall i :: 0 <= i < |g| ==> key(g[i]) == k
  {
    if items == [] then []
    else (if key(items[0]) == k then [items[0]] else []) + Group(items[1..], key, k)
  }

  lemma {:induction false} GroupAppend<T>(a: seq<T>, b: seq<T>, key: T -> int, k: int)
    ensures Group(a + b, key, k) == Group(a, key, k) + Group(b, key, k)
  {
    if a == [] {
      assert a + b == b;
    } else {
      var head := if key(a[0]) == k then [a[0]] else [];
      assert (a + b)[0] == a[0];
      assert (a + b)[1..] == a[1..] + b;
      GroupAppend(a[1..], b, key, k);
      calc {
        Group(a + b, key, k);
        head + Group(a[1..] + b, key, k);
        head + (Group(a[1..], key, k) + Group(b, key, k));
        (head + Group(a[1..], key, k)) + Group(b, key, k);
      }
    }
  }

  lemma GroupHas<T>(items: seq<T>, key: T -> int, i: nat)
    requires i < |items|
    ensures items[i] in Group(items, key, key(items[i]))
  {
    var g := Group(items, key, key(items[i]));
    if i == 0 {
      assert g == [items[0]] + Group(items[1..], key, key(items[0]));
      assert g[0] == items[0];
    } else {
      GroupHas(items[1..], key, i - 1);
      assert items[1..][i - 1] == items[i];
      var h := if key(items[0]) == key(items[i]) then [items[0]] else [];
      assert g == h + Group(items[1..], key, key(items[i]));
    }
  }

  /** `[x for x in items if keep(x)]`. */
  function Select<T>(items: seq<T>, keep: T -> bool): (r: seq<T>)
    ensures |r| <= |items|
    ensures forall i :: 0 <= i < |r| ==> r[i] in items && keep(r[i])
    ensures forall i :: 0 <= i < |items| && keep(items[i]) ==> items[i] in r
  {
    if items == [] then []
    else
      var rest := Select(items[1..], keep);
      assert forall i :: 1 <= i < |items| ==> items[i] == items[1..][i - 1];
      (if keep(items[0]) then [items[0]] else []) + rest
  }

  /** Selection keeps the input order: it distributes over concatenation. */
  lemma {:induction false} SelectAppend<T>(a: seq<T>, b: seq<T>, keep: T -> bool)
    ensures Select(a + b, keep) == Select(a, keep) + Select(b, keep)
  {
    if a == [] {
      assert a + b == b;
    } else {
      assert (a + b)[0] == a[0];
      assert (a + b)[1..] == a[1..] + b;
      SelectAppend(a[1..], b, keep);
    }
  }

  /** Selecting from one more item of `items`: the item is appended exactly when it passes. */
  lemma SelectSnoc<T>(items: seq<T>, i: nat, keep: T -> bool)
    requires i < |items|
    ensures Select(items[..i + 1], keep) == Select(items[..i], keep) + (if keep(items[i]) then [items[i]] else [])
  {
    assert items[..i + 1] == items[..i] + [items[i]];
    SelectAppend(items[..i], [items[i]], keep);
    SelectSingle(items[i], keep);
  }

  /** Selecting with a test every item passes gives the input back. */
  lemma {:induction false} SelectAll<T>(items: seq<T>, keep: T -> bool)
    requires forall i :: 0 <= i < |items| ==> keep(items[i])
    ensures Select(items, keep) == items
  {
    if items != [] {
      SelectAll(items[1..], keep);
      assert items == [items[0]] + items[1..];
    }
  }

  /** A single item is kept exactly when it passes the test. */
  lemma SelectSingle<T>(x: T, keep: T -> bool)
    ensures Select([x], keep) == if keep(x) then [x] else []
  {
    assert [x][1..] == [];
  }

  /** The distinct keys of `items`, in the order they first occur (a dict's key order). */
  function FirstSeenKeys<T>(items: seq<T>, key: T -> int): (ks: seq<int>)
    ensures Distinct(ks)
    ensures forall i :: 0 <= i < |items| ==> key(items[i]) in ks
  {
    if items == [] then []
    else
      var init := items[..|items| - 1];
      var p := FirstSeenKeys(init, key);
      var k := key(items[|items| - 1]);
      assert forall i :: 0 <= i < |init| ==> init[i] == items[i];
      if k in p then p else p + [k]
  }

  /** Every key listed is the key of some item. */
  lemma {:induction false} FirstSeenKeysOccur<T>(items: seq<T>, key: T -> int, k: int)
    requires k in FirstSeenKeys(items, key)
    ensures exists i :: 0 <= i < |items| && key(items[i]) == k
  {
    var init := items[..|items| - 1];
    if k in FirstSeenKeys(init, key) {
      FirstSeenKeysOccur(init, key, k);
      var i :| 0 <= i < |init| && key(init[i]) == k;
      assert items[i] == init[i];
    } else {
      assert key(items[|items| - 1]) == k;
    }
  }

  predicate SortedBy<T>(s: seq<T>, order: T -> int) {
    forall i, j :: 0 <= i < j < |s| ==> order(s[i]) <= order(s[j])
  }

  /**
   * `r` holds the items of `s` with, for every value of `order`, the items of that value in the
   * same relative order: what a stable sort on `order` keeps of its input.
   */
  ghost predicate StableReorder<T>(r: seq<T>, s: seq<T>, order: T -> int) {
    forall v :: Group(r, order, v) == Group(s, order, v)
  }

  /** A stable sort has one possible result: its output is fixed by being sorted and stable. */
  lemma {:induction false} StableSortUnique<T>(a: seq<T>, b: seq<T>, order: T -> int)
    requires SortedBy(a, order) && SortedBy(b, order)
    requires StableReorder(a, b, order)
    ensures a == b
    decreases |a| + |b|
  {
    StableEmpty(a, b, order);
    if a != [] {
      SameHead(a, b, order);
      SameTailGroups(a, b, order);
      StableSortUnique(a[1..], b[1..], order);
      assert a == [a[0]] + a[1..] && b == [b[0]] + b[1..];
    }
  }

  /** Two sorted, stable reorderings of each other start with the same item. */
  lemma SameHead<T>(a: seq<T>, b: seq<T>, order: T -> int)
    requires a != [] && b != []
    requires SortedBy(a, order) && SortedBy(b, order)
    requires StableReorder(a, b, order)
    ensures a[0] == b[0]
  {
    var va, vb := order(a[0]), order(b[0]);
    OrderNotBelow(a, b, order);
    OrderNotBelow(b, a, order);
    assert va == vb;
    HeadOfGroup(a, order);
    HeadOfGroup(b, order);
    assert Group(a, order, va)[0] == a[0];
    assert Group(b, order, va)[0] == b[0];
    assert Group(a, order, va) == Group(b, order, va);
  }

  /** A stable reordering of the empty sequence is empty, and only it. */
  lemma StableEmpty<T>(a: seq<T>, b: seq<T>, order: T -> int)
    requires StableReorder(a, b, order)
    ensures a == [] <==> b == []
  {
    if a != [] {
      GroupHas(a, order, 0);
      assert Group(b, order, order(a[0])) != [];
    }
    if b != [] {
      GroupHas(b, order, 0);
      assert Group(a, order, order(b[0])) != [];
    }
  }

  /** The first item of a sequence is the first item of its group. */
  lemma HeadOfGroup<T>(a: seq<T>, order: T -> int)
    requires a != []
    ensures Group(a, order, order(a[0])) == [a[0]] + Group(a[1..], order, order(a[0]))
  {
  }

  /** In a sorted `a`, nothing of `b` (a stable reordering of it) comes below `a`'s first order. */
  lemma OrderNotBelow<T>(a: seq<T>, b: seq<T>, order: T -> int)
    requires a != [] && b != []
    requires SortedBy(a, order)
    requires StableReorder(a, b, order)
    ensures order(a[0]) <= order(b[0])
  {
    var vb := order(b[0]);
    GroupHas(b, order, 0);
    var ga := Group(a, order, vb);
    assert Group(b, order, vb) == ga;
    var j :| 0 <= j < |ga| && ga[j] == b[0];
    GroupMember(a, order, vb, j);
  }

  /** Removing the common first item leaves stable reorderings of each other. */
  lemma SameTailGroups<T>(a: seq<T>, b: seq<T>, order: T -> int)
    requires a != [] && b != [] && a[0] == b[0]
    requires StableReorder(a, b, order)
    ensures StableReorder(a[1..], b[1..], order)
  {
    forall v
      ensures Group(a[1..], order, v) == Group(b[1..], order, v)
    {
      assert a == [a[0]] + a[1..] && b == [b[0]] + b[1..];
      GroupAppend([a[0]], a[1..], order, v);
      GroupAppend([b[0]], b[1..], order, v);
      var h := Group([a[0]], order, v);
      assert Group(a, order, v) == Group(b, order, v);
      assert Group(a[1..], order, v) == Group(a, order, v)[|h|..];
      assert Group(b[1..], order, v) == Group(b, order, v)[|h|..];
    }
  }

  /** An item of a group is an item of the input, at some index, with that key. */
  lemma GroupMember<T>(items: seq<T>, key: T -> int, k: int, j: nat)
    requires j < |Group(items, key, k)|
    ensures exists i :: 0 <= i < |items| && items[i] == Group(items, key, k)[j] && key(items[i]) == k
  {
    if key(items[0]) == k {
      if j > 0 {
        GroupMember(items[1..], key, k, j - 1);
      }
    } else {
      GroupMember(items[1..], key, k, j);
    }
  }

  /** A stable reordering is a permutation. */
  lemma {:induction false} StableReorderPermutes<T>(r: seq<T>, s: seq<T>, order: T -> int)
    requires StableReorder(r, s, order)
    ensures multiset(r) == multiset(s)
    decreases |s|
  {
    StableEmpty(r, s, order);
    if s != [] {
      var x, v := s[0], order(s[0]);
      assert s == [x] + s[1..];
      GroupAppend([x], s[1..], order, v);
      var gr := Group(r, order, v);
      assert gr[0] == x;
      var j := FirstWith(r, order, v);
      var r' := r[..j] + r[j + 1..];
      assert r == r[..j] + [r[j]] + r[j + 1..];
      assert r[j] == x;
      forall w
        ensures Group(r', order, w) == Group(s[1..], order, w)
      {
        RemoveFirstOfGroup(r, s, j, order, w);
      }
      StableReorderPermutes(r', s[1..], order);
      assert multiset(r) == multiset(r') + multiset{x};
    }
  }

  /** Taking the first item of its group out of both sides keeps every group equal. */
  lemma RemoveFirstOfGroup<T>(r: seq<T>, s: seq<T>, j: nat, order: T -> int, w: int)
    requires s != [] && j < |r| && r[j] == s[0]
    requires Group(r[..j], order, order(s[0])) == []
    requires Group(r, order, w) == Group(s, order, w)
    ensures Group(r[..j] + r[j + 1..], order, w) == Group(s[1..], order, w)
  {
    var x := s[0];
    var pre, post := r[..j], r[j + 1..];
    assert s == [x] + s[1..];
    assert r == pre + ([x] + post);
    GroupSingle(x, order, w);
    GroupAppend([x], s[1..], order, w);
    GroupAppend([x], post, order, w);
    GroupAppend(pre, [x] + post, order, w);
    GroupAppend(pre, post, order, w);
    var h, a, b := Group([x], order, w), Group(pre, order, w), Group(post, order, w);
    var t := Group(s[1..], order, w);
    assert Group(r, order, w) == a + (h + b);
    assert Group(s, order, w) == h + t;
    if w == order(x) {
      assert a == [];
      assert h + b == h + t;
      assert b == (h + b)[|h|..] == (h + t)[|h|..] == t;
    } else {
      assert h == [];
      assert h + b == b && h + t == t;
      assert a + b == Group(r, order, w) == Group(s, order, w) == t;
    }
  }

  lemma GroupSingle<T>(x: T, key: T -> int, k: int)
    ensures Group([x], key, k) == if key(x) == k then [x] else []
  {
    assert [x][1..] == [];
  }

  /**
   * The index of the first item of `r` whose order is `v`, when that group of `r` starts with
   * `x`: the item found is `x` itself.
   */
  lemma FirstWith<T>(r: seq<T>, order: T -> int, v: int) returns (j: nat)
    requires |Group(r, order, v)| > 0
    ensures j < |r| && r[j] == Group(r, order, v)[0] && order(r[j]) == v
    ensures Group(r[..j], order, v) == []
  {
    if order(r[0]) == v {
      j := 0;
    } else {
      var j' := FirstWith(r[1..], order, v);
      j := j' + 1;
      assert r[..j] == [r[0]] + r[1..][..j'];
      GroupAppend([r[0]], r[1..][..j'], order, v);
    }
  }

  /**
   * `lst.sort(key=order)` on a bucket: Python's sort is stable. Insertion sort builds the same
   * (unique) result.
   */
  method StableSort<T>(s: seq<T>, order: T -> int) returns (r: seq<T>)
    ensures SortedBy(r, order)
    ensures StableReorder(r, s, order)
    ensures r == SortOn(s, order)
  {
    r := [];
    for i := 0 to |s|
      invariant SortedBy(r, order)
      invariant StableReorder(r, s[..i], order)
    {
      var x := s[i];
      var p := InsertAt(r, x, order);
      assert s[..i + 1] == s[..i] + [x];
      InsertStable(r, p, x, s[..i], order);
      r := r[..p] + [x] + r[p..];
    }
    assert s[..|s|] == s;
    SortOnUnique(r, s, order);
  }

  /** Whatever is sorted and a stable reordering of `s` is `SortOn(s, order)`. */
  lemma SortOnUnique<T>(r: seq<T>, s: seq<T>, order: T -> int)
    requires SortedStable(r, s, order)
    ensures r == SortOn(s, order)
  {
    var t := SortOn(s, order);
    SortOnSortedStable(s, order);
    forall v
      ensures Group(r, order, v) == Group(t, order, v)
    {
      assert Group(r, order, v) == Group(s, order, v);
    }
    StableSortUnique(r, t, order);
  }

  /** Scan for the insertion point: past every leading item of order at most `x`'s. */
  method InsertAt<T>(r: seq<T>, x: T, order: T -> int) returns (p: nat)
    ensures p <= |r|
    ensures forall j :: 0 <= j < p ==> order(r[j]) <= order(x)
    ensures p < |r| ==> order(r[p]) > order(x)
  {
    p := 0;
    while p < |r| && order(r[p]) <= order(x)
      invariant 0 <= p <= |r|
      invariant forall j :: 0 <= j < p ==> order(r[j]) <= order(x)
    {
      p := p + 1;
    }
  }

  /** Where `x` goes in `r`: after the leading items of order at most its own. */
  function InsertionPoint<T>(r: seq<T>, x: T, order: T -> int): (p: nat)
    ensures p <= |r|
    ensures forall j :: 0 <= j < p ==> order(r[j]) <= order(x)
    ensures p < |r| ==> order(r[p]) > order(x)
  {
    if r == [] || order(r[0]) > order(x) then 0 else 1 + InsertionPoint(r[1..], x, order)
  }

  /** Stable sort as a function (insertion from the left), the reference for `StableSort`. */
  function SortOn<T>(s: seq<T>, order: T -> int): seq<T> {
    if s == [] then []
    else
      var r := SortOn(s[..|s| - 1], order);
      var x := s[|s| - 1];
      var p := InsertionPoint(r, x, order);
      r[..p] + [x] + r[p..]
  }

  lemma {:induction false} SortOnSortedStable<T>(s: seq<T>, order: T -> int)
    ensures SortedStable(SortOn(s, order), s, order)
  {
    if s != [] {
      var init, x := s[..|s| - 1], s[|s| - 1];
      SortOnSortedStable(init, order);
      var r := SortOn(init, order);
      InsertStable(r, InsertionPoint(r, x, order), x, init, order);
      assert s == init + [x];
    }
  }

  /** In the sorted tail after the insertion point every order exceeds `v`: no item of order `v`. */
  lemma {:induction false} GroupAbove<T>(t: seq<T>, order: T -> int, v: int)
    requires forall j :: 0 <= j < |t| ==> order(t[j]) > v
    ensures Group(t, order, v) == []
  {
    if t != [] {
      GroupAbove(t[1..], order, v);
    }
  }

  /** One insertion step: `x` goes after every item of order at most its own. */
  lemma InsertStable<T>(r: seq<T>, p: nat, x: T, done: seq<T>, order: T -> int)
    requires p <= |r| && SortedBy(r, order) && StableReorder(r, done, order)
    requires forall j :: 0 <= j < p ==> order(r[j]) <= order(x)
    requires p < |r| ==> order(r[p]) > order(x)
    ensures SortedBy(r[..p] + [x] + r[p..], order)
    ensures StableReorder(r[..p] + [x] + r[p..], done + [x], order)
  {
    InsertSorted(r, p, x, order);
    InsertGroups(r, p, x, done, order);
  }

  lemma InsertSorted<T>(r: seq<T>, p: nat, x: T, order: T -> int)
    requires p <= |r| && SortedBy(r, order)
    requires forall j :: 0 <= j < p ==> order(r[j]) <= order(x)
    requires p < |r| ==> order(r[p]) > order(x)
    ensures SortedBy(r[..p] + [x] + r[p..], order)
  {
    var r' := r[..p] + [x] + r[p..];
    assert forall k :: 0 <= k < |r'| ==> r'[k] == if k < p then r[k] else if k == p then x else r[k - 1];
    forall i, j | 0 <= i < j < |r'|
      ensures order(r'[i]) <= order(r'[j])
    {
      if j > p && i <= p {
        assert order(r[p]) <= order(r[j - 1]);
      }
    }
  }

  lemma InsertGroups<T>(r: seq<T>, p: nat, x: T, done: seq<T>, order: T -> int)
    requires p <= |r| && SortedBy(r, order) && StableReorder(r, done, order)
    requires p < |r| ==> order(r[p]) > order(x)
    ensures StableReorder(r[..p] + [x] + r[p..], done + [x], order)
  {
    var r' := r[..p] + [x] + r[p..];
    forall j | 0 <= j < |r[p..]|
      ensures order(r[p..][j]) > order(x)
    {
      assert r[p..][j] == r[p + j];
    }
    forall v
      ensures Group(r', order, v) == Group(done + [x], order, v)
    {
      InsertGroup(r, p, x, done, order, v);
    }
  }

  lemma InsertGroup<T>(r: seq<T>, p: nat, x: T, done: seq<T>, order: T -> int, v: int)
    requires p <= |r| && Group(r, order, v) == Group(done, order, v)
    requires forall j :: 0 <= j < |r[p..]| ==> order(r[p..][j]) > order(x)
    ensures Group(r[..p] + [x] + r[p..], order, v) == Group(done + [x], order, v)
  {
    var a, b := r[..p], r[p..];
    assert r == a + b;
    GroupAppend(a, b, order, v);
    GroupAppend(a + [x], b, order, v);
    GroupAppend(a, [x], order, v);
    GroupAppend(done, [x], order, v);
    GroupSingle(x, order, v);
    var ga, gb, h := Group(a, order, v), Group(b, order, v), Group([x], order, v);
    assert Group(a + [x] + b, order, v) == ga + h + gb;
    assert Group(done + [x], order, v) == ga + gb + h;
    if order(x) == v {
      GroupAbove(b, order, v);
      assert gb == [];
      assert ga + h + gb == ga + h == ga + gb + h;
    } else {
      assert h == [];
      assert ga + h + gb == ga + gb == ga + gb + h;
    }
  }

  /** `r` is `s` sorted stably on `order`. */
  ghost predicate SortedStable<T>(r: seq<T>, s: seq<T>, order: T -> int) {
    SortedBy(r, order) && StableReorder(r, s, order)
  }

  /** A dict of lists keyed by `key`, as `setdefault(k, []).append(item)` fills it. */
  datatype AxeMap<T> = AxeMap(keys: seq<int>, buckets: map<int, seq<T>>)

  /**
   * `m` is what bucketing `items` on `key` and sorting every bucket stably on `order` gives:
   * buckets in first-seen key order, each holding exactly the items of its key.
   */
  ghost predicate IsClustering<T>(m: AxeMap<T>, items: seq<T>, key: T -> int, order: T -> int) {
    && m.keys == FirstSeenKeys(items, key)
    && (forall k :: k in m.buckets <==> k in m.keys)
    && (forall k :: k in m.buckets ==> SortedStable(m.buckets[k], Group(items, key, k), order))
  }

  /** The dict-filling loop: one pass, `setdefault` then `append`. */
  method GroupBy<T>(items: seq<T>, key: T -> int) returns (keys: seq<int>, groups: map<int, seq<T>>)
    ensures keys == FirstSeenKeys(items, key)
    ensures forall k :: k in groups <==> k in keys
    ensures forall k :: k in groups ==> groups[k] == Group(items, key, k)
  {
    keys, groups := [], map[];
    for i := 0 to |items|
      invariant Grouped(keys, groups, items[..i], key)
    {
      var x := items[i];
      var k := key(x);
      assert items[..i + 1] == items[..i] + [x];
      GroupedSnoc(keys, groups, items[..i], x, key);
      var bucket := if k in groups then groups[k] else [];
      if k !in groups {
        keys := keys + [k];
      }
      groups := groups[k := bucket + [x]];
    }
    assert items[..|items|] == items;
  }

  /** `keys` and `groups` are the dict of lists built from `done`. */
  ghost predicate Grouped<T>(keys: seq<int>, groups: map<int, seq<T>>, done: seq<T>, key: T -> int) {
    && keys == FirstSeenKeys(done, key)
    && (forall k :: k in groups <==> k in keys)
    && (forall k :: k in groups ==> groups[k] == Group(done, key, k))
  }

  /** One `setdefault(k, []).append(x)` step keeps the dict in step with the items seen. */
  lemma GroupedSnoc<T>(keys: seq<int>, groups: map<int, seq<T>>, done: seq<T>, x: T, key: T -> int)
    requires Grouped(keys, groups, done, key)
    ensures var k := key(x);
      var keys' := if k in groups then keys else keys + [k];
      var groups' := groups[k := (if k in groups then groups[k] else []) + [x]];
      Grouped(keys', groups', done + [x], key)
  {
    var k := key(x);
    assert (done + [x])[..|done|] == done;
    forall k' | k' in groups || k' == k
      ensures Group(done + [x], key, k') == Group(done, key, k') + (if k' == k then [x] else [])
    {
      GroupAppend(done, [x], key, k');
      GroupSingle(x, key, k');
    }
    if k !in groups {
      GroupNone(done, key, k);
    }
  }

  lemma GroupNone<T>(items: seq<T>, key: T -> int, k: int)
    requires k !in FirstSeenKeys(items, key)
    ensures Group(items, key, k) == []
  {
    if Group(items, key, k) != [] {
      GroupMember(items, key, k, 0);
    }
  }

  /** The result of bucketing `items` on `key` and sorting every bucket stably on `order`. */
  function Clustered<T>(items: seq<T>, key: T -> int, order: T -> int): AxeMap<T> {
    var keys := FirstSeenKeys(items, key);
    AxeMap(keys, map k | k in keys :: SortOn(Group(items, key, k), order))
  }

  /** What `Clustered` means: first-seen keys, each bucket exactly its group, sorted stably. */
  lemma ClusteredIsClustering<T>(items: seq<T>, key: T -> int, order: T -> int)
    ensures IsClustering(Clustered(items, key, order), items, key, order)
  {
    forall k | k in FirstSeenKeys(items, key)
      ensures SortedStable(SortOn(Group(items, key, k), order), Group(items, key, k), order)
    {
      SortOnSortedStable(Group(items, key, k), order);
    }
  }

  /** `Clustered` is the only clustering: `IsClustering` fixes every key and bucket. */
  lemma ClusteringUnique<T>(m: AxeMap<T>, items: seq<T>, key: T -> int, order: T -> int)
    requires IsClustering(m, items, key, order)
    ensures m == Clustered(items, key, order)
  {
    var c := Clustered(items, key, order);
    ClusteredIsClustering(items, key, order);
    forall k | k in m.buckets
      ensures m.buckets[k] == c.buckets[k]
    {
      StableSortUnique(m.buckets[k], c.buckets[k], order);
    }
    assert m.buckets == c.buckets;
  }

  /** Bucket `items` on `key`, then sort every bucket in place (stably) on `order`. */
  method Cluster<T>(items: seq<T>, key: T -> int, order: T -> int) returns (m: AxeMap<T>)
    ensures m == Clustered(items, key, order)
  {
    var keys, groups := GroupBy(items, key);
    var sorted := SortBuckets(keys, groups, order);
    m := AxeMap(keys, sorted);
    ClusteredBuckets(items, key, order, sorted);
  }

  lemma ClusteredBuckets<T>(items: seq<T>, key: T -> int, order: T -> int, sorted: map<int, seq<T>>)
    requires forall k :: k in sorted <==> k in FirstSeenKeys(items, key)
    requires forall k :: k in sorted ==> sorted[k] == SortOn(Group(items, key, k), order)
    ensures sorted == Clustered(items, key, order).buckets
  {
    var c := Clustered(items, key, order).buckets;
    assert sorted.Keys == c.Keys;
    forall k | k in sorted
      ensures sorted[k] == c[k]
    {
    }
  }

  /** The second loop of `sort_xy`: every bucket, visited in key order, sorted in place. */
  method SortBuckets<T>(keys: seq<int>, groups: map<int, seq<T>>, order: T -> int) returns (sorted: map<int, seq<T>>)
    requires Distinct(keys)
    requires forall k :: k in groups <==> k in keys
    ensures sorted.Keys == groups.Keys
    ensures forall k :: k in sorted ==> sorted[k] == SortOn(groups[k], order)
  {
    sorted := groups;
    assert forall i :: 0 <= i < |keys| ==> keys[i] in keys;
    for j := 0 to |keys|
      invariant sorted.Keys == groups.Keys
      invariant forall i :: 0 <= i < |keys| ==> keys[i] in sorted
      invariant forall i :: j <= i < |keys| ==> sorted[keys[i]] == groups[keys[i]]
      invariant forall i :: 0 <= i < j ==> sorted[keys[i]] == SortOn(groups[keys[i]], order)
    {
      var k := keys[j];
      var b := StableSort(sorted[k], order);
      sorted := sorted[k := b];
    }
    forall k | k in sorted
      ensures sorted[k] == SortOn(groups[k], order)
    {
      var i :| 0 <= i < |keys| && keys[i] == k;
    }
  }

  /** The buckets in key order, concatenated (iterating `axe_map.values()`). */
  function Concat<T>(keys: seq<int>, buckets: map<int, seq<T>>): seq<T>
    requires forall i :: 0 <= i < |keys| ==> keys[i] in buckets
  {
    if keys == [] then [] else buckets[keys[0]] + Concat(keys[1..], buckets)
  }

  /** The groups of `items` over `keys`, concatenated. */
  function ConcatGroups<T>(keys: seq<int>, items: seq<T>, key: T -> int): seq<T> {
    if keys == [] then [] else Group(items, key, keys[0]) + ConcatGroups(keys[1..], items, key)
  }

  lemma {:induction false} ConcatGroupsSnoc<T>(keys: seq<int>, items: seq<T>, x: T, key: T -> int)
    requires Distinct(keys)
    ensures multiset(ConcatGroups(keys, items + [x], key))
         == multiset(ConcatGroups(keys, items, key)) + (if key(x) in keys then multiset{x} else multiset{})
  {
    if keys != [] {
      var k0, rest := keys[0], keys[1..];
      DistinctTail(keys);
      GroupSnocCount(items, x, key, k0);
      ConcatGroupsSnoc(rest, items, x, key);
      var g, g' := Group(items, key, k0), Group(items + [x], key, k0);
      var c, c' := ConcatGroups(rest, items, key), ConcatGroups(rest, items + [x], key);
      var dx: multiset<T> := if key(x) == k0 then multiset{x} else multiset{};
      var ex: multiset<T> := if key(x) in rest then multiset{x} else multiset{};
      assert ConcatGroups(keys, items + [x], key) == g' + c';
      assert ConcatGroups(keys, items, key) == g + c;
      assert multiset(g' + c') == multiset(g) + multiset(c) + (dx + ex);
      assert key(x) in keys <==> key(x) == k0 || key(x) in rest;
      assert dx + ex == if key(x) in keys then multiset{x} else multiset{};
    }
  }

  predicate Distinct(keys: seq<int>) {
    forall i, j :: 0 <= i < j < |keys| ==> keys[i] != keys[j]
  }

  lemma DistinctTail(keys: seq<int>)
    requires keys != [] && Distinct(keys)
    ensures Distinct(keys[1..]) && keys[0] !in keys[1..]
  {
    forall i, j | 0 <= i < j < |keys| - 1
      ensures keys[1..][i] != keys[1..][j]
    {
      assert keys[1..][i] == keys[i + 1] && keys[1..][j] == keys[j + 1];
    }
    forall j | 0 <= j < |keys| - 1
      ensures keys[1..][j] != keys[0]
    {
      assert keys[1..][j] == keys[j + 1];
    }
  }

  /** Appending `x` adds it to its own group only. */
  lemma GroupSnocCount<T>(items: seq<T>, x: T, key: T -> int, k: int)
    ensures multiset(Group(items + [x], key, k)) == multiset(Group(items, key, k)) + (if key(x) == k then multiset{x} else multiset{})
  {
    GroupAppend(items, [x], key, k);
    GroupSingle(x, key, k);
  }

  lemma ConcatGroupsAbsent<T>(keys: seq<int>, items: seq<T>, key: T -> int, k: int)
    requires k !in keys
    ensures ConcatGroups(keys + [k], items, key) == ConcatGroups(keys, items, key) + Group(items, key, k)
  {
    if keys != [] {
      assert (keys + [k])[1..] == keys[1..] + [k];
      ConcatGroupsAbsent(keys[1..], items, key, k);
    }
  }

  /** Bucketing partitions the input: across all buckets every item occurs exactly as often. */
  lemma {:induction false} GroupsPartition<T>(items: seq<T>, key: T -> int)
    ensures multiset(ConcatGroups(FirstSeenKeys(items, key), items, key)) == multiset(items)
  {
    if items != [] {
      var init, x := items[..|items| - 1], items[|items| - 1];
      assert items == init + [x];
      var p := FirstSeenKeys(init, key);
      GroupsPartition(init, key);
      ConcatGroupsSnoc(p, init, x, key);
      if key(x) !in p {
        ConcatGroupsAbsent(p, items, key, key(x));
        GroupNone(init, key, key(x));
        GroupAppend(init, [x], key, key(x));
      }
    }
  }

  lemma {:induction false} ConcatPermutes<T>(keys: seq<int>, m: AxeMap<T>, items: seq<T>, key: T -> int, order: T -> int)
    requires forall i :: 0 <= i < |keys| ==> keys[i] in m.buckets
    requires forall k :: k in m.buckets ==> SortedStable(m.buckets[k], Group(items, key, k), order)
    ensures multiset(Concat(keys, m.buckets)) == multiset(ConcatGroups(keys, items, key))
  {
    if keys != [] {
      StableReorderPermutes(m.buckets[keys[0]], Group(items, key, keys[0]), order);
      ConcatPermutes(keys[1..], m, items, key, order);
    }
  }

  /**
   * The clustering spelled out: first-seen keys, each bucket a stably sorted reordering of its
   * group, and every item in exactly one bucket.
   */
  lemma ClusteredPartition<T>(items: seq<T>, key: T -> int, order: T -> int, m: AxeMap<T>)
    requires m == Clustered(items, key, order)
    ensures m.keys == FirstSeenKeys(items, key)
    ensures forall k :: k in m.buckets <==> k in m.keys
    ensures forall k :: k in m.buckets ==> SortedStable(m.buckets[k], Group(items, key, k), order)
    ensures forall k :: k in m.buckets ==>
      SortedBy(m.buckets[k], order) && multiset(m.buckets[k]) == multiset(Group(items, key, k))
    ensures multiset(Concat(m.keys, m.buckets)) == multiset(items)
  {
    ClusteredIsClustering(items, key, order);
    ClusteringPartition(m, items, key, order);
    forall k | k in m.buckets
      ensures multiset(m.buckets[k]) == multiset(Group(items, key, k))
    {
      StableReorderPermutes(m.buckets[k], Group(items, key, k), order);
    }
  }

  lemma ClusteringPartition<T>(m: AxeMap<T>, items: seq<T>, key: T -> int, order: T -> int)
    requires IsClustering(m, items, key, order)
    ensures multiset(Concat(m.keys, m.buckets)) == multiset(items)
  {
    ConcatPermutes(m.keys, m, items, key, order);
    GroupsPartition(items, key);
  }
}
