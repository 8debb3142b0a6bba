/**
 * The least-recently-used cache of `DatasheetExtractor/common/LruCache.py`: elements with a
 * size and a reference counter, a dict from key to element, a doubly linked list from the
 * youngest to the oldest element, and a running size checked against a budget.
 *
 * The linked list is modelled as the sequence of its elements from the youngest to the oldest
 * (`_younger` is the list's head, `_older` its last element); unlinking removes an element
 * from the sequence and pushing puts it in front.
 */
module Lru {
  import opened Wrappers

  /** A stored object, as the object protocol gives it: its key and its size. */
  datatype Object = Object(key: string, size: int)

  /** `CacheElement`: the object, its key and size taken once, and the reference counter. */
  class CacheElement {
    const obj: Object
    const key: string
    const sizeInCache: int
    var referenceCounter: int

    /** The counter starts at one for an element acquired on insertion, else at zero. */
    constructor (obj: Object, acquire: bool)
      ensures this.obj == obj && key == obj.key && sizeInCache == obj.size
      ensures referenceCounter == if acquire then 1 else 0
    {
      this.obj := obj;
      key := obj.key;
      sizeInCache := obj.size;
      referenceCounter := if acquire then 1 else 0;
    }

    /** `acquire`: one more reference; the stored object is returned. */
    method Acquire() returns (o: Object)
      modifies this
      ensures referenceCounter == old(referenceCounter) + 1
      ensures o == obj
    {
      referenceCounter := referenceCounter + 1;
      return obj;
    }

    /** `release`: one reference less, with no lower bound. */
    method Release()
      modifies this
      ensures referenceCounter == old(referenceCounter) - 1
    {
      referenceCounter := referenceCounter - 1;
    }
  }

  /** No element occurs twice. */
  predicate Distinct(s: seq<CacheElement>) {
    forall i, j :: 0 <= i < j < |s| ==> s[i] != s[j]
  }

  /** The list with `e` unlinked. */
  function Without(s: seq<CacheElement>, e: CacheElement): (r: seq<CacheElement>)
    ensures |r| <= |s|
  {
    if s == [] then [] else (if s[0] == e then [] else [s[0]]) + Without(s[1..], e)
  }

  /** Unlinking `e` keeps exactly the other elements. */
  lemma {:induction false} WithoutMembers(s: seq<CacheElement>, e: CacheElement, x: CacheElement)
    ensures x in Without(s, e) <==> x in s && x != e
  {
    if s != [] {
      WithoutMembers(s[1..], e, x);
      assert x in s <==> x == s[0] || x in s[1..];
    }
  }

  /** The sizes of the elements of `s`, added up. */
  function SizeSum(s: seq<CacheElement>): int {
    if s == [] then 0 else s[0].sizeInCache + SizeSum(s[1..])
  }

  lemma {:induction false} WithoutAbsent(s: seq<CacheElement>, e: CacheElement)
    requires e !in s
    ensures Without(s, e) == s
  {
    if s != [] {
      WithoutAbsent(s[1..], e);
      assert s == [s[0]] + s[1..];
    }
  }

  /**
   * Unlinking an element of the list keeps the others once each and takes its size out of
   * the total.
   */
  lemma WithoutPresent(s: seq<CacheElement>, e: CacheElement)
    requires Distinct(s) && e in s
    ensures Distinct(Without(s, e))
    ensures |Without(s, e)| == |s| - 1
    ensures SizeSum(Without(s, e)) == SizeSum(s) - e.sizeInCache
    ensures multiset(Without(s, e)) + multiset{e} == multiset(s)
  {
    WithoutDistinct(s, e);
    WithoutCount(s, e);
  }

  lemma {:induction false} WithoutDistinct(s: seq<CacheElement>, e: CacheElement)
    requires Distinct(s)
    ensures Distinct(Without(s, e))
  {
    if s != [] {
      WithoutDistinct(s[1..], e);
      var t := Without(s[1..], e);
      var r := Without(s, e);
      assert r == (if s[0] == e then [] else [s[0]]) + t;
      if s[0] != e {
        assert s[0] !in s[1..];
        WithoutMembers(s[1..], e, s[0]);
        forall i, j | 0 <= i < j < |r|
          ensures r[i] != r[j]
        {
          if i > 0 {
            assert r[i] == t[i - 1] && r[j] == t[j - 1];
          } else {
            assert r[j] == t[j - 1];
          }
        }
      }
    }
  }

  lemma {:induction false} WithoutCount(s: seq<CacheElement>, e: CacheElement)
    requires Distinct(s) && e in s
    ensures |Without(s, e)| == |s| - 1
    ensures SizeSum(Without(s, e)) == SizeSum(s) - e.sizeInCache
    ensures multiset(Without(s, e)) + multiset{e} == multiset(s)
  {
    assert s == [s[0]] + s[1..];
    if s[0] == e {
      assert e !in s[1..];
      WithoutAbsent(s[1..], e);
      assert Without(s, e) == s[1..];
    } else {
      assert Distinct(s[1..]) by {
        forall i, j | 0 <= i < j < |s[1..]|
          ensures s[1..][i] != s[1..][j]
        {
          assert s[1..][i] == s[i + 1] && s[1..][j] == s[j + 1];
        }
      }
      WithoutCount(s[1..], e);
      assert Without(s, e) == [s[0]] + Without(s[1..], e);
    }
  }

  /**
   * `acquire`'s move to the youngest position: the list holds the same elements, still once
   * each, with the same total size.
   */
  lemma MoveToFront(s: seq<CacheElement>, e: CacheElement)
    requires Distinct(s) && e in s
    ensures multiset([e] + Without(s, e)) == multiset(s)
    ensures Distinct([e] + Without(s, e))
    ensures SizeSum([e] + Without(s, e)) == SizeSum(s)
  {
    WithoutPresent(s, e);
    var r := [e] + Without(s, e);
    assert r[1..] == Without(s, e);
    forall i, j | 0 <= i < j < |r|
      ensures r[i] != r[j]
    {
      if i == 0 {
        WithoutMembers(s, e, r[j]);
      } else {
        assert r[i] == Without(s, e)[i - 1] && r[j] == Without(s, e)[j - 1];
      }
    }
  }

  /** What `recycle` looks at in an element: its size, and whether it is referenced. */
  datatype Slot = Slot(size: int, pinned: bool)

  /**
   * Which elements `recycle` evicts, the list given youngest first and walked from its last
   * (oldest) element: while the size is over the budget, an element with a zero counter goes
   * and its size is taken off.
   */
  function Plan(slots: seq<Slot>, size: int, constraint: int): (r: seq<bool>)
    ensures |r| == |slots|
  {
    if slots == [] then []
    else
      var last := slots[|slots| - 1];
      var evict := size > constraint && !last.pinned;
      Plan(slots[..|slots| - 1], if evict then size - last.size else size, constraint) + [evict]
  }

  /** The size `recycle` leaves. */
  function Left(slots: seq<Slot>, size: int, constraint: int): int {
    if slots == [] then size
    else
      var last := slots[|slots| - 1];
      var evict := size > constraint && !last.pinned;
      Left(slots[..|slots| - 1], if evict then size - last.size else size, constraint)
  }

  /** The sizes of the slots flagged. */
  function FlaggedSize(slots: seq<Slot>, flags: seq<bool>): int
    requires |flags| == |slots|
  {
    if slots == [] then 0
    else (if flags[0] then slots[0].size else 0) + FlaggedSize(slots[1..], flags[1..])
  }

  lemma {:induction false} FlaggedSizeSnoc(slots: seq<Slot>, flags: seq<bool>, s: Slot, f: bool)
    requires |flags| == |slots|
    ensures FlaggedSize(slots + [s], flags + [f]) == FlaggedSize(slots, flags) + (if f then s.size else 0)
  {
    if slots != [] {
      assert (slots + [s])[1..] == slots[1..] + [s];
      assert (flags + [f])[1..] == flags[1..] + [f];
      FlaggedSizeSnoc(slots[1..], flags[1..], s, f);
    }
  }

  /**
   * What `recycle` achieves: it evicts only unreferenced elements, exactly their sizes come
   * off, and it ends within the budget unless every element left is referenced.
   */
  lemma {:induction false} RecycleOutcome(slots: seq<Slot>, size: int, constraint: int)
    ensures var flags := Plan(slots, size, constraint);
      && (forall i :: 0 <= i < |slots| && flags[i] ==> !slots[i].pinned)
      && Left(slots, size, constraint) == size - FlaggedSize(slots, flags)
      && (Left(slots, size, constraint) <= constraint
          || forall i :: 0 <= i < |slots| && !flags[i] ==> slots[i].pinned)
  {
    if slots != [] {
      var n := |slots| - 1;
      var init, last := slots[..n], slots[n];
      var evict := size > constraint && !last.pinned;
      var size' := if evict then size - last.size else size;
      RecycleOutcome(init, size', constraint);
      var flags := Plan(slots, size, constraint);
      assert flags == Plan(init, size', constraint) + [evict];
      assert slots == init + [last];
      FlaggedSizeSnoc(init, Plan(init, size', constraint), last, evict);
      if !evict && size > constraint {
        assert last.pinned;
        UnderBudgetNever(init, size', constraint);
      }
      if size <= constraint {
        UnderBudgetNever(init, size', constraint);
      }
    }
  }

  /** Within the budget, nothing is evicted and the size stays; over it, the walk goes on. */
  lemma {:induction false} UnderBudgetNever(slots: seq<Slot>, size: int, constraint: int)
    ensures size <= constraint ==>
      Left(slots, size, constraint) == size && forall i :: 0 <= i < |slots| ==> !Plan(slots, size, constraint)[i]
  {
    if slots != [] {
      UnderBudgetNever(slots[..|slots| - 1], size, constraint);
    }
  }

  /** The elements whose flag is off, in order. */
  function Keep(s: seq<CacheElement>, flags: seq<bool>): seq<CacheElement>
    requires |flags| == |s|
  {
    if s == [] then []
    else (if flags[0] then [] else [s[0]]) + Keep(s[1..], flags[1..])
  }

  lemma {:induction false} KeepMembers(s: seq<CacheElement>, flags: seq<bool>, x: CacheElement)
    requires |flags| == |s| && x in Keep(s, flags)
    ensures x in s
  {
    if s != [] {
      if x != s[0] || flags[0] {
        KeepMembers(s[1..], flags[1..], x);
      }
    }
  }

  /** The keys of the elements whose flag is on. */
  function EvictedKeys(s: seq<CacheElement>, flags: seq<bool>): set<string>
    requires |flags| == |s|
  {
    if s == [] then {}
    else (if flags[0] then {s[0].key} else {}) + EvictedKeys(s[1..], flags[1..])
  }

  lemma {:induction false} WithoutAppend(a: seq<CacheElement>, b: seq<CacheElement>, e: CacheElement)
    ensures Without(a + b, e) == Without(a, e) + Without(b, e)
  {
    if a == [] {
      assert a + b == b;
    } else {
      assert (a + b)[0] == a[0] && (a + b)[1..] == a[1..] + b;
      WithoutAppend(a[1..], b, e);
    }
  }

  /** Unlinking the element just before the kept tail of the walk. */
  lemma UnlinkAt(walk: seq<CacheElement>, j: nat, tail: seq<CacheElement>)
    requires 0 < j <= |walk| && walk[j - 1] !in walk[..j - 1] && walk[j - 1] !in tail
    ensures Without(walk[..j] + tail, walk[j - 1]) == walk[..j - 1] + tail
  {
    var e := walk[j - 1];
    calc {
      Without(walk[..j] + tail, e);
    == { assert walk[..j] + tail == walk[..j - 1] + [e] + tail; }
      Without(walk[..j - 1] + [e] + tail, e);
    == { UnlinkBetween(walk[..j - 1], e, tail); }
      walk[..j - 1] + tail;
    }
  }

  /** In a list of distinct elements, the element before position `j` is not among the later ones. */
  lemma BeforeTail(walk: seq<CacheElement>, j: nat, tail: seq<CacheElement>)
    requires Distinct(walk) && 0 < j <= |walk|
    requires forall i :: 0 <= i < |tail| ==> tail[i] in walk[j..]
    ensures walk[j - 1] !in tail
  {
    forall i | 0 <= i < |tail|
      ensures tail[i] != walk[j - 1]
    {
      var m :| 0 <= m < |walk[j..]| && walk[j..][m] == tail[i];
      assert walk[j + m] == tail[i];
    }
  }

  /** ... nor among the earlier ones. */
  lemma AfterHead(walk: seq<CacheElement>, j: nat)
    requires Distinct(walk) && 0 < j <= |walk|
    ensures walk[j - 1] !in walk[..j - 1]
  {
    assert forall i :: 0 <= i < j - 1 ==> walk[i] != walk[j - 1];
  }

  lemma UnlinkBetween(head: seq<CacheElement>, e: CacheElement, tail: seq<CacheElement>)
    requires e !in head && e !in tail
    ensures Without(head + [e] + tail, e) == head + tail
  {
    calc {
      Without(head + [e] + tail, e);
    == { WithoutAppend(head + [e], tail, e); }
      Without(head + [e], e) + Without(tail, e);
    == { WithoutAbsent(tail, e); }
      Without(head + [e], e) + tail;
    == { WithoutAppend(head, [e], e); WithoutAbsent(head, e); WithoutSelf(e); assert head + [] == head; }
      head + tail;
    }
  }

  lemma WithoutSelf(e: CacheElement)
    ensures Without([e], e) == []
  {
    assert [e][1..] == [];
  }

  /** An unflagged prefix is kept whole and gives no key. */
  lemma {:induction false} UnflaggedPrefix(a: seq<CacheElement>, b: seq<CacheElement>, fa: seq<bool>, fb: seq<bool>)
    requires |fa| == |a| && |fb| == |b|
    requires forall i :: 0 <= i < |fa| ==> !fa[i]
    ensures Keep(a + b, fa + fb) == a + Keep(b, fb)
    ensures EvictedKeys(a + b, fa + fb) == EvictedKeys(b, fb)
  {
    if a == [] {
      assert a + b == b && fa + fb == fb;
    } else {
      assert (a + b)[0] == a[0] && (a + b)[1..] == a[1..] + b;
      assert (fa + fb)[0] == fa[0] && (fa + fb)[1..] == fa[1..] + fb;
      UnflaggedPrefix(a[1..], b, fa[1..], fb);
    }
  }

  /** The size and the referenced flag of every element. */
  function Slots(s: seq<CacheElement>): (r: seq<Slot>)
    reads s
    ensures |r| == |s|
    ensures forall i :: 0 <= i < |s| ==> r[i] == Slot(s[i].sizeInCache, s[i].referenceCounter != 0)
  {
    seq(|s|, i reads s requires 0 <= i < |s| => Slot(s[i].sizeInCache, s[i].referenceCounter != 0))
  }

  /** A key is evicted exactly when some flagged element has it. */
  lemma {:induction false} EvictedKeysMembers(s: seq<CacheElement>, flags: seq<bool>, k: string)
    requires |flags| == |s|
    ensures k in EvictedKeys(s, flags) <==> exists m :: 0 <= m < |s| && flags[m] && s[m].key == k
  {
    if s != [] {
      EvictedKeysMembers(s[1..], flags[1..], k);
      if exists m :: 0 <= m < |s| && flags[m] && s[m].key == k {
        var m :| 0 <= m < |s| && flags[m] && s[m].key == k;
        if m > 0 {
          assert s[1..][m - 1] == s[m] && flags[1..][m - 1] == flags[m];
        }
      }
      if exists m :: 0 <= m < |s| - 1 && flags[1..][m] && s[1..][m].key == k {
        var m :| 0 <= m < |s| - 1 && flags[1..][m] && s[1..][m].key == k;
        assert flags[m + 1] && s[m + 1].key == k;
      }
    }
  }

  /**
   * Element `i` of the list `w` (youngest first) is planned for eviction, but its key is gone
   * by the time the walk reaches it: never in the dict, or already deleted for an older
   * planned element with the same key.
   */
  ghost predicate KeyGone(w: seq<CacheElement>, flags: seq<bool>, dict0: map<string, CacheElement>, i: int)
    requires |flags| == |w| && 0 <= i < |w|
  {
    flags[i] && (w[i].key !in dict0 || exists m :: i < m < |w| && flags[m] && w[m].key == w[i].key)
  }

  /**
   * Where `recycle`'s walk, going from the oldest element before position `j`, first meets a
   * planned eviction whose key the dict no longer holds; -1 when it meets none.
   */
  function FailAt(w: seq<CacheElement>, flags: seq<bool>, dict0: map<string, CacheElement>, j: nat): (i: int)
    requires j <= |w| == |flags|
    ensures -1 <= i < j
    decreases j
  {
    if j == 0 then -1
    else if flags[j - 1] && w[j - 1].key !in dict0 - EvictedKeys(w[j..], flags[j..]) then j - 1
    else FailAt(w, flags, dict0, j - 1)
  }

  /** The element before position `j` is gone exactly when the walk, arriving there, finds its key missing. */
  lemma GoneHere(w: seq<CacheElement>, flags: seq<bool>, dict0: map<string, CacheElement>, j: nat)
    requires 0 < j <= |w| == |flags|
    ensures KeyGone(w, flags, dict0, j - 1)
        <==> flags[j - 1] && w[j - 1].key !in dict0 - EvictedKeys(w[j..], flags[j..])
  {
    var e := w[j - 1];
    EvictedKeysMembers(w[j..], flags[j..], e.key);
    if exists m :: 0 <= m < |w| - j && flags[j..][m] && w[j..][m].key == e.key {
      var m :| 0 <= m < |w| - j && flags[j..][m] && w[j..][m].key == e.key;
      assert flags[j + m] && w[j + m].key == e.key;
    }
    if exists m :: j - 1 < m < |w| && flags[m] && w[m].key == e.key {
      var m :| j - 1 < m < |w| && flags[m] && w[m].key == e.key;
      assert flags[j..][m - j] && w[j..][m - j].key == e.key;
    }
  }

  /**
   * The walk fails at the oldest element whose key is gone, and there is such an element
   * exactly when it fails.
   */
  lemma {:induction false} FailAtSpec(w: seq<CacheElement>, flags: seq<bool>, dict0: map<string, CacheElement>, j: nat)
    requires j <= |w| == |flags|
    ensures var i := FailAt(w, flags, dict0, j);
      && (i >= 0 ==> KeyGone(w, flags, dict0, i))
      && (forall k :: i < k < j ==> !KeyGone(w, flags, dict0, k))
      && (i >= 0 <==> exists k :: 0 <= k < j && KeyGone(w, flags, dict0, k))
  {
    if j > 0 {
      GoneHere(w, flags, dict0, j);
      FailAtSpec(w, flags, dict0, j - 1);
      var i := FailAt(w, flags, dict0, j);
      if i >= 0 {
        assert KeyGone(w, flags, dict0, i);
      }
    }
  }

  /** The list holds every element once, and every dict entry is a listed element of its key. */
  ghost predicate ListsDict(order: seq<CacheElement>, dict: map<string, CacheElement>) {
    && Distinct(order)
    && forall k :: k in dict ==> dict[k] in order && dict[k].key == k
  }

  /**
   * Dict and list in step, as long as `add` only meets fresh keys: every listed element is
   * the dict's entry for its key, and the size is the total of their sizes.
   */
  ghost predicate InStep(order: seq<CacheElement>, dict: map<string, CacheElement>, size: int) {
    && ListsDict(order, dict)
    && (forall i :: 0 <= i < |order| ==> order[i].key in dict && dict[order[i].key] == order[i])
    && size == SizeSum(order)
  }

  /** `acquire`'s move to the front keeps the list and the dict in step. */
  lemma MoveKeepsStep(order: seq<CacheElement>, dict: map<string, CacheElement>, size: int, e: CacheElement)
    requires ListsDict(order, dict) && e in order
    ensures ListsDict([e] + Without(order, e), dict)
    ensures InStep(order, dict, size) ==> InStep([e] + Without(order, e), dict, size)
  {
    MoveToFront(order, e);
    var r := [e] + Without(order, e);
    forall k | k in dict
      ensures dict[k] in r
    {
      WithoutMembers(order, e, dict[k]);
    }
    if InStep(order, dict, size) {
      forall i | 0 <= i < |r|
        ensures r[i].key in dict && dict[r[i].key] == r[i]
      {
        assert r[i] in multiset(order);
        var m :| 0 <= m < |order| && order[m] == r[i];
      }
    }
  }

  /** `add` of a new element: in step exactly when the key was fresh (and the cache in step). */
  lemma AddKeepsStep(order: seq<CacheElement>, dict: map<string, CacheElement>, size: int, e: CacheElement)
    requires ListsDict(order, dict) && e !in order
    ensures ListsDict([e] + order, dict[e.key := e])
    ensures InStep(order, dict, size) && e.key !in dict ==> InStep([e] + order, dict[e.key := e], size + e.sizeInCache)
    ensures e.key in dict ==> !InStep([e] + order, dict[e.key := e], size + e.sizeInCache)
  {
    var r := [e] + order;
    assert r[1..] == order;
    forall i, j | 0 <= i < j < |r|
      ensures r[i] != r[j]
    {
      if i > 0 {
        assert r[i] == order[i - 1] && r[j] == order[j - 1];
      } else {
        assert r[j] in order;
      }
    }
    if e.key in dict {
      var stale := dict[e.key];
      var i :| 0 <= i < |order| && order[i] == stale;
      assert r[i + 1] == stale && stale != e;
    }
  }

  /**
   * `recycle` after visiting the last `|walk| - j` elements of `walk` (youngest first), with
   * `flags` saying which of them went: the rest of the plan starts from the current size, the
   * list is the unvisited part and the visited elements kept, and the dict lost their keys.
   */
  ghost predicate Walked(walk: seq<CacheElement>, slots: seq<Slot>, size0: int, constraint: int,
                         dict0: map<string, CacheElement>, j: nat, flags: seq<bool>,
                         order: seq<CacheElement>, dict: map<string, CacheElement>, size: int)
  {
    && j <= |walk| == |slots| && |flags| == |walk| - j
    && Plan(slots, size0, constraint) == Plan(slots[..j], size, constraint) + flags
    && Left(slots, size0, constraint) == Left(slots[..j], size, constraint)
    && order == walk[..j] + Keep(walk[j..], flags)
    && dict == dict0 - EvictedKeys(walk[j..], flags)
  }

  lemma WalkStart(walk: seq<CacheElement>, slots: seq<Slot>, size: int, constraint: int, dict: map<string, CacheElement>)
    requires |slots| == |walk|
    ensures Walked(walk, slots, size, constraint, dict, |walk|, [], walk, dict, size)
  {
    assert slots[..|walk|] == slots && walk[|walk|..] == [] && walk[..|walk|] == walk;
  }

  /** One turn of the walk, at the element before the `|walk| - j` already visited. */
  lemma WalkStep(walk: seq<CacheElement>, slots: seq<Slot>, size0: int, constraint: int,
                 dict0: map<string, CacheElement>, j: nat, flags: seq<bool>,
                 order: seq<CacheElement>, dict: map<string, CacheElement>, size: int, evict: bool,
                 order': seq<CacheElement>, dict': map<string, CacheElement>, size': int)
    requires Walked(walk, slots, size0, constraint, dict0, j, flags, order, dict, size)
    requires 0 < j && Distinct(walk) && size > constraint
    requires slots[j - 1].size == walk[j - 1].sizeInCache && evict == !slots[j - 1].pinned
    requires evict ==> order' == Without(order, walk[j - 1]) && dict' == dict - {walk[j - 1].key}
    requires evict ==> size' == size - walk[j - 1].sizeInCache
    requires !evict ==> order' == order && dict' == dict && size' == size
    ensures Walked(walk, slots, size0, constraint, dict0, j - 1, [evict] + flags, order', dict', size')
  {
    StepPlan(slots, size0, constraint, j, flags, size, evict, size');
    KeptAvoids(walk, j, flags);
    StepKeep(walk, j, flags, order, evict, order');
    StepKeys(walk, j, flags, dict0, dict, evict, dict');
  }

  /** The element to visit next is still listed. */
  lemma WalkNext(walk: seq<CacheElement>, j: nat, flags: seq<bool>, order: seq<CacheElement>)
    requires 0 < j <= |walk| && |flags| == |walk| - j && order == walk[..j] + Keep(walk[j..], flags)
    ensures walk[j - 1] in order
  {
    assert order[j - 1] == walk[j - 1];
  }

  lemma StepPlan(slots: seq<Slot>, size0: int, constraint: int, j: nat, flags: seq<bool>, size: int, evict: bool,
                 size': int)
    requires 0 < j <= |slots|
    requires Plan(slots, size0, constraint) == Plan(slots[..j], size, constraint) + flags
    requires Left(slots, size0, constraint) == Left(slots[..j], size, constraint)
    requires size > constraint && evict == !slots[j - 1].pinned
    requires size' == if evict then size - slots[j - 1].size else size
    ensures Plan(slots, size0, constraint) == Plan(slots[..j - 1], size', constraint) + ([evict] + flags)
    ensures Left(slots, size0, constraint) == Left(slots[..j - 1], size', constraint)
  {
    assert slots[..j][..j - 1] == slots[..j - 1];
  }

  lemma StepKeep(walk: seq<CacheElement>, j: nat, flags: seq<bool>, order: seq<CacheElement>, evict: bool,
                 order': seq<CacheElement>)
    requires 0 < j <= |walk| && |flags| == |walk| - j
    requires walk[j - 1] !in walk[..j - 1] && walk[j - 1] !in Keep(walk[j..], flags)
    requires order == walk[..j] + Keep(walk[j..], flags)
    requires order' == if evict then Without(order, walk[j - 1]) else order
    ensures order' == walk[..j - 1] + Keep(walk[j - 1..], [evict] + flags)
  {
    var e := walk[j - 1];
    var tail := Keep(walk[j..], flags);
    KeepCons(walk, j, flags, evict);
    if evict {
      UnlinkAt(walk, j, tail);
    } else {
      assert walk[..j] == walk[..j - 1] + [e];
    }
  }

  lemma KeepCons(walk: seq<CacheElement>, j: nat, flags: seq<bool>, evict: bool)
    requires 0 < j <= |walk| && |flags| == |walk| - j
    ensures Keep(walk[j - 1..], [evict] + flags) == (if evict then [] else [walk[j - 1]]) + Keep(walk[j..], flags)
  {
    assert walk[j - 1..][1..] == walk[j..];
    assert ([evict] + flags)[1..] == flags;
  }

  /** The element visited next is neither before it in the walk nor among the kept later ones. */
  lemma KeptAvoids(walk: seq<CacheElement>, j: nat, flags: seq<bool>)
    requires 0 < j <= |walk| && |flags| == |walk| - j && Distinct(walk)
    ensures walk[j - 1] !in walk[..j - 1] && walk[j - 1] !in Keep(walk[j..], flags)
  {
    var tail := Keep(walk[j..], flags);
    forall i | 0 <= i < |tail|
      ensures tail[i] in walk[j..]
    {
      KeepMembers(walk[j..], flags, tail[i]);
    }
    BeforeTail(walk, j, tail);
    AfterHead(walk, j);
  }

  lemma StepKeys(walk: seq<CacheElement>, j: nat, flags: seq<bool>, dict0: map<string, CacheElement>,
                 dict: map<string, CacheElement>, evict: bool, dict': map<string, CacheElement>)
    requires 0 < j <= |walk| && |flags| == |walk| - j
    requires dict == dict0 - EvictedKeys(walk[j..], flags)
    requires dict' == if evict then dict - {walk[j - 1].key} else dict
    ensures dict' == dict0 - EvictedKeys(walk[j - 1..], [evict] + flags)
  {
    assert walk[j - 1..][1..] == walk[j..];
    assert EvictedKeys(walk[j - 1..], [evict] + flags)
        == (if evict then {walk[j - 1].key} else {}) + EvictedKeys(walk[j..], flags);
  }

  /** The walk ends at the youngest element or within the budget: the whole plan is carried out. */
  lemma WalkDone(walk: seq<CacheElement>, slots: seq<Slot>, size0: int, constraint: int,
                 dict0: map<string, CacheElement>, j: nat, flags: seq<bool>,
                 order: seq<CacheElement>, dict: map<string, CacheElement>, size: int)
    requires Walked(walk, slots, size0, constraint, dict0, j, flags, order, dict, size)
    requires j == 0 || size <= constraint
    ensures order == Keep(walk, Plan(slots, size0, constraint))
    ensures size == Left(slots, size0, constraint)
    ensures dict == dict0 - EvictedKeys(walk, Plan(slots, size0, constraint))
  {
    UnderBudgetNever(slots[..j], size, constraint);
    assert walk == walk[..j] + walk[j..];
    UnflaggedPrefix(walk[..j], walk[j..], Plan(slots[..j], size, constraint), flags);
  }

  /** At the element before position `j`, the plan evicts exactly an unreferenced element; from `j` on it is carried out. */
  lemma FailStep(walk: seq<CacheElement>, slots: seq<Slot>, size0: int, constraint: int,
                 dict0: map<string, CacheElement>, j: nat, flags: seq<bool>,
                 order: seq<CacheElement>, dict: map<string, CacheElement>, size: int)
    requires Walked(walk, slots, size0, constraint, dict0, j, flags, order, dict, size)
    requires 0 < j && size > constraint
    ensures var plan := Plan(slots, size0, constraint);
      plan[j..] == flags && plan[j - 1] == !slots[j - 1].pinned
  {
    var plan := Plan(slots, size0, constraint);
    var head := Plan(slots[..j], size, constraint);
    assert slots[..j][..j - 1] == slots[..j - 1];
    assert head[j - 1] == !slots[j - 1].pinned;
    assert plan[j - 1] == head[j - 1];
    assert plan[j..] == flags;
  }

  /**
   * `recycle` stopped on a KeyError at element `i`: that element is unlinked, and every older
   * one went as planned: unlinked, its key deleted and its size taken off.
   */
  ghost predicate StoppedAt(w: seq<CacheElement>, slots: seq<Slot>, size0: int, constraint: int,
                            dict0: map<string, CacheElement>, i: int,
                            order: seq<CacheElement>, dict: map<string, CacheElement>, size: int)
  {
    var flags := Plan(slots, size0, constraint);
    && |slots| == |w| && 0 <= i < |w|
    && order == w[..i] + Keep(w[i + 1..], flags[i + 1..])
    && dict == dict0 - EvictedKeys(w[i + 1..], flags[i + 1..])
    && size == size0 - FlaggedSize(slots[i + 1..], flags[i + 1..])
  }

  /**
   * What `recycle` leaves, from the list `w` with sizes and counters `slots`: without an error,
   * `Plan` carried out in full; a KeyError exactly when `FailAt` finds an element whose key is
   * gone, and then the state `StoppedAt` that element.
   */
  ghost predicate Recycled(w: seq<CacheElement>, slots: seq<Slot>, size0: int, constraint: int,
                           dict0: map<string, CacheElement>, error: Option<Error>,
                           order: seq<CacheElement>, dict: map<string, CacheElement>, size: int)
  {
    && |slots| == |w|
    && var flags := Plan(slots, size0, constraint);
       var i := FailAt(w, flags, dict0, |w|);
       && (error.Some? <==> i >= 0)
       && (error.None? ==>
             order == Keep(w, flags) && size == Left(slots, size0, constraint) && dict == dict0 - EvictedKeys(w, flags))
       && (error.Some? ==> error.value == KeyError && StoppedAt(w, slots, size0, constraint, dict0, i, order, dict, size))
  }

  /**
   * The walk's state before position `j`: `Walked`, no failure met so far, and the sizes of
   * the elements evicted so far taken off.
   */
  ghost predicate Progress(walk: seq<CacheElement>, slots: seq<Slot>, size0: int, constraint: int,
                           dict0: map<string, CacheElement>, j: nat, flags: seq<bool>,
                           order: seq<CacheElement>, dict: map<string, CacheElement>, size: int)
  {
    && Walked(walk, slots, size0, constraint, dict0, j, flags, order, dict, size)
    && (forall k :: j <= k < |walk| ==> !KeyGone(walk, Plan(slots, size0, constraint), dict0, k))
    && size == size0 - FlaggedSize(slots[j..], flags)
  }

  lemma ProgressStart(walk: seq<CacheElement>, slots: seq<Slot>, size: int, constraint: int, dict: map<string, CacheElement>)
    requires |slots| == |walk|
    ensures Progress(walk, slots, size, constraint, dict, |walk|, [], walk, dict, size)
  {
    WalkStart(walk, slots, size, constraint, dict);
    assert slots[|walk|..] == [];
  }

  /**
   * A failure at the element before position `j`: the walk fails there first, and leaves the
   * state so far with that element unlinked.
   */
  lemma Stops(walk: seq<CacheElement>, slots: seq<Slot>, size0: int, constraint: int,
              dict0: map<string, CacheElement>, j: nat, flags: seq<bool>,
              order: seq<CacheElement>, dict: map<string, CacheElement>, size: int, order': seq<CacheElement>)
    requires Progress(walk, slots, size0, constraint, dict0, j, flags, order, dict, size)
    requires 0 < j && size > constraint && !slots[j - 1].pinned && walk[j - 1].key !in dict
    requires order' == walk[..j - 1] + Keep(walk[j..], flags)
    ensures Recycled(walk, slots, size0, constraint, dict0, Some(KeyError), order', dict, size)
  {
    var plan := Plan(slots, size0, constraint);
    FailStep(walk, slots, size0, constraint, dict0, j, flags, order, dict, size);
    GoneHere(walk, plan, dict0, j);
    FailAtSpec(walk, plan, dict0, |walk|);
  }

  /** A visit without an error: the walk goes on, one element further. */
  lemma Passed(walk: seq<CacheElement>, slots: seq<Slot>, size0: int, constraint: int,
               dict0: map<string, CacheElement>, j: nat, flags: seq<bool>,
               order: seq<CacheElement>, dict: map<string, CacheElement>, size: int, evict: bool,
               order': seq<CacheElement>, dict': map<string, CacheElement>, size': int)
    requires Progress(walk, slots, size0, constraint, dict0, j, flags, order, dict, size)
    requires 0 < j && size > constraint && evict == !slots[j - 1].pinned
    requires !(evict && walk[j - 1].key !in dict)
    requires size' == size - if evict then slots[j - 1].size else 0
    requires Walked(walk, slots, size0, constraint, dict0, j - 1, [evict] + flags, order', dict', size')
    ensures Progress(walk, slots, size0, constraint, dict0, j - 1, [evict] + flags, order', dict', size')
  {
    FailStep(walk, slots, size0, constraint, dict0, j, flags, order, dict, size);
    GoneHere(walk, Plan(slots, size0, constraint), dict0, j);
    FlaggedStep(slots, j, flags, evict);
  }

  /** The walk ends within the budget or at the youngest element: the plan is carried out, without a failure. */
  lemma Finish(walk: seq<CacheElement>, slots: seq<Slot>, size0: int, constraint: int,
               dict0: map<string, CacheElement>, j: nat, flags: seq<bool>,
               order: seq<CacheElement>, dict: map<string, CacheElement>, size: int)
    requires Progress(walk, slots, size0, constraint, dict0, j, flags, order, dict, size)
    requires j == 0 || size <= constraint
    ensures Recycled(walk, slots, size0, constraint, dict0, None, order, dict, size)
  {
    var plan := Plan(slots, size0, constraint);
    NoFailLeft(walk, slots, size0, constraint, dict0, j, flags, order, dict, size);
    WalkDone(walk, slots, size0, constraint, dict0, j, flags, order, dict, size);
    FailAtSpec(walk, plan, dict0, |walk|);
    assert forall k :: 0 <= k < |walk| ==> !KeyGone(walk, plan, dict0, k);
  }

  /** A walk that stops within the budget, or at the youngest element, leaves nothing planned before it. */
  lemma NoFailLeft(walk: seq<CacheElement>, slots: seq<Slot>, size0: int, constraint: int,
                   dict0: map<string, CacheElement>, j: nat, flags: seq<bool>,
                   order: seq<CacheElement>, dict: map<string, CacheElement>, size: int)
    requires Walked(walk, slots, size0, constraint, dict0, j, flags, order, dict, size)
    requires j == 0 || size <= constraint
    ensures forall k :: 0 <= k < j ==> !Plan(slots, size0, constraint)[k]
  {
    var plan := Plan(slots, size0, constraint);
    UnderBudgetNever(slots[..j], size, constraint);
    assert forall k :: 0 <= k < j ==> plan[k] == Plan(slots[..j], size, constraint)[k];
  }

  /** The sizes the walk has taken off, one more element visited. */
  lemma FlaggedStep(slots: seq<Slot>, j: nat, flags: seq<bool>, evict: bool)
    requires 0 < j <= |slots| && |flags| == |slots| - j
    ensures FlaggedSize(slots[j - 1..], [evict] + flags)
         == (if evict then slots[j - 1].size else 0) + FlaggedSize(slots[j..], flags)
  {
    assert slots[j - 1..][1..] == slots[j..];
    assert ([evict] + flags)[1..] == flags;
  }

  /** Unlinking an element whose key is not its dict entry's keeps the list and the dict valid. */
  lemma ValidAfterUnlink(order: seq<CacheElement>, dict: map<string, CacheElement>, e: CacheElement)
    requires ListsDict(order, dict) && e in order
    ensures ListsDict(Without(order, e), dict - {e.key})
    ensures e.key !in dict ==> ListsDict(Without(order, e), dict)
  {
    WithoutPresent(order, e);
    forall k | k in dict && k != e.key
      ensures dict[k] in Without(order, e)
    {
      WithoutMembers(order, e, dict[k]);
    }
  }

  /** In a cache in step an evicted element's key is always found: no KeyError, and still in step. */
  lemma EvictKeepsStep(order: seq<CacheElement>, dict: map<string, CacheElement>, size: int, e: CacheElement)
    requires InStep(order, dict, size) && e in order
    ensures e.key in dict
    ensures InStep(Without(order, e), dict - {e.key}, size - e.sizeInCache)
  {
    ValidAfterUnlink(order, dict, e);
    WithoutPresent(order, e);
    var r := Without(order, e);
    forall i | 0 <= i < |r|
      ensures r[i].key in dict - {e.key} && dict[r[i].key] == r[i]
    {
      WithoutMembers(order, e, r[i]);
      var m :| 0 <= m < |order| && order[m] == r[i];
    }
  }

  /** `LruCache`: the budget, the dict, the linked list (youngest first) and the running size. */
  class LruCache {
    var constraint: int
    var cacheDict: map<string, CacheElement>
    var order: seq<CacheElement>
    var size: int

    ghost predicate Valid()
      reads this
    {
      ListsDict(order, cacheDict)
    }

    ghost predicate Tracked()
      reads this
    {
      InStep(order, cacheDict, size)
    }

    constructor (constraint: int)
      ensures this.constraint == constraint && cacheDict == map[] && order == [] && size == 0
      ensures Tracked()
    {
      this.constraint := constraint;
      cacheDict := map[];
      order := [];
      size := 0;
    }

    /** The `constraint` setter. */
    method SetConstraint(constraint: int)
      modifies this
      ensures this.constraint == constraint
      ensures cacheDict == old(cacheDict) && order == old(order) && size == old(size)
    {
      this.constraint := constraint;
    }

    /** `len(cache)`: the number of dict entries. */
    method Len() returns (n: nat)
      ensures n == |cacheDict|
    {
      return |cacheDict|;
    }

    /** `size()`: the running size. */
    method Size() returns (n: int)
      ensures n == size
    {
      return size;
    }

    /** `__iter__`: from the youngest element, following `_older` to the end. */
    method Elements() returns (s: seq<CacheElement>)
      ensures s == order
    {
      s := [];
      var i := 0;
      while i < |order|
        invariant i <= |order| && s == order[..i]
      {
        s := s + [order[i]];
        i := i + 1;
      }
    }

    /** `reset`: dict and list emptied; the running size is left as it was. */
    method Reset()
      modifies this
      ensures cacheDict == map[] && order == [] && size == old(size) && constraint == old(constraint)
      ensures Valid()
      ensures Tracked() <==> size == 0
    {
      order := [];
      cacheDict := map[];
    }

    /** `_push_element`: the element becomes the youngest. */
    method PushElement(e: CacheElement)
      modifies this
      ensures order == [e] + old(order)
      ensures cacheDict == old(cacheDict) && size == old(size) && constraint == old(constraint)
    {
      order := [e] + order;
    }

    /** `_unlink_element`: the element leaves the list, its neighbours now linked to each other. */
    method UnlinkElement(e: CacheElement)
      modifies this
      ensures order == Without(old(order), e)
      ensures cacheDict == old(cacheDict) && size == old(size) && constraint == old(constraint)
    {
      order := Without(order, e);
    }

    /**
     * `add`: a new element, youngest, entered in the dict under its key and counted in the
     * size. A key already present keeps its old element in the list and in the size.
     */
    method Add(obj: Object, acquire: bool)
      requires Valid()
      modifies this
      ensures Valid()
      ensures |order| == |old(order)| + 1 && order[1..] == old(order) && fresh(order[0])
      ensures order[0].obj == obj && order[0].key == obj.key
      ensures order[0].referenceCounter == if acquire then 1 else 0
      ensures cacheDict == old(cacheDict)[obj.key := order[0]]
      ensures size == old(size) + obj.size && constraint == old(constraint)
      ensures old(Tracked()) && obj.key !in old(cacheDict) ==> Tracked()
      ensures obj.key in old(cacheDict) ==> !Tracked()
    {
      var e := new CacheElement(obj, acquire);
      AddKeepsStep(order, cacheDict, size, e);
      size := size + e.sizeInCache;
      cacheDict := cacheDict[e.key := e];
      PushElement(e);
    }

    /** `remove`: a present key fails on the attribute `size_in_cache` before any change. */
    method Remove(key: string) returns (error: Option<Error>)
      ensures error == if key in cacheDict then Some(AttributeError("size_in_cache")) else None
    {
      if key in cacheDict {
        return Some(AttributeError("size_in_cache"));
      }
      return None;
    }

    /**
     * `acquire`: a present element moves to the youngest place, the others keeping their
     * order, gains a reference and gives its object; an absent key gives `None`.
     */
    method Acquire(key: string) returns (r: Option<Object>)
      requires Valid()
      modifies this, if key in cacheDict then {cacheDict[key]} else {}
      ensures Valid()
      ensures key !in old(cacheDict) ==> r == None && order == old(order)
      ensures key in old(cacheDict) ==>
        var e := old(cacheDict)[key];
        && r == Some(e.obj)
        && e.referenceCounter == old(e.referenceCounter) + 1
        && order == [e] + Without(old(order), e)
      ensures cacheDict == old(cacheDict) && size == old(size) && constraint == old(constraint)
      ensures old(Tracked()) ==> Tracked()
    {
      if key in cacheDict {
        var e := cacheDict[key];
        MoveKeepsStep(order, cacheDict, size, e);
        UnlinkElement(e);
        PushElement(e);
        var o := e.Acquire();
        return Some(o);
      }
      return None;
    }

    /**
     * `recycle`: from the oldest element towards the youngest, while the size is over the
     * budget, every element with a zero counter is unlinked, dropped from the dict and its
     * size taken off. Dropping a key the dict no longer holds (a second element of the same
     * key) raises KeyError, with that element already unlinked: the walk stops at `FailAt`,
     * having carried out the plan for every older element.
     */
    method Recycle() returns (error: Option<Error>)
      requires Valid()
      modifies this
      ensures Valid()
      ensures constraint == old(constraint)
      ensures Recycled(old(order), old(Slots(order)), old(size), constraint, old(cacheDict), error, order, cacheDict, size)
      ensures old(Tracked()) ==> error.None? && Tracked()
    {
      var walk := order;
      ghost var slots := Slots(walk);
      ghost var size0 := size;
      ghost var flags: seq<bool> := [];
      var j: nat := |walk|;
      ProgressStart(walk, slots, size0, constraint, cacheDict);
      while size > constraint && j > 0
        invariant |slots| == |walk| && Distinct(walk)
        invariant forall i :: 0 <= i < |walk| ==> slots[i].size == walk[i].sizeInCache
        invariant forall i :: 0 <= i < |walk| ==> slots[i].pinned == (walk[i].referenceCounter != 0)
        invariant Progress(walk, slots, size0, constraint, old(cacheDict), j, flags, order, cacheDict, size)
        invariant Valid() && constraint == old(constraint)
        invariant old(Tracked()) ==> InStep(order, cacheDict, size)
        decreases j
      {
        var e := walk[j - 1];
        var evict := e.referenceCounter == 0;
        error := Visit(walk, slots, size0, old(cacheDict), j, flags, evict);
        if error.Some? {
          return;
        }
        flags := [evict] + flags;
        j := j - 1;
      }
      Finish(walk, slots, size0, constraint, old(cacheDict), j, flags, order, cacheDict, size);
      return None;
    }

    /**
     * One turn of `recycle`'s loop: the element at `j - 1` evicted when `evict` says so. The walk
     * goes on, or stops on a KeyError at that element, the first failure of the whole walk.
     */
    method Visit(walk: seq<CacheElement>, ghost slots: seq<Slot>, ghost size0: int,
                 ghost dict0: map<string, CacheElement>, j: nat, ghost flags: seq<bool>, evict: bool)
      returns (error: Option<Error>)
      requires Valid() && Progress(walk, slots, size0, constraint, dict0, j, flags, order, cacheDict, size)
      requires 0 < j && Distinct(walk) && size > constraint
      requires slots[j - 1].size == walk[j - 1].sizeInCache && evict == !slots[j - 1].pinned
      modifies this
      ensures Valid() && constraint == old(constraint)
      ensures error.None? ==> Progress(walk, slots, size0, constraint, dict0, j - 1, [evict] + flags, order, cacheDict, size)
      ensures old(InStep(order, cacheDict, size)) ==> error.None? && InStep(order, cacheDict, size)
      ensures error.Some? ==> Recycled(walk, slots, size0, constraint, dict0, error, order, cacheDict, size)
    {
      var e := walk[j - 1];
      if evict {
        WalkNext(walk, j, flags, order);
        KeptAvoids(walk, j, flags);
        UnlinkAt(walk, j, Keep(walk[j..], flags));
        error := Evict(e);
        if error.Some? {
          Stops(walk, slots, size0, constraint, dict0, j, flags, old(order), old(cacheDict), old(size), order);
          return;
        }
      } else {
        error := None;
      }
      WalkStep(walk, slots, size0, constraint, dict0, j, flags, old(order), old(cacheDict), old(size), evict,
               order, cacheDict, size);
      Passed(walk, slots, size0, constraint, dict0, j, flags, old(order), old(cacheDict), old(size), evict,
             order, cacheDict, size);
    }

    /**
     * One eviction of `recycle`: unlink, `del` of the element's key (KeyError when the dict no
     * longer holds it), size taken off.
     */
    method Evict(e: CacheElement) returns (error: Option<Error>)
      requires Valid() && e in order
      modifies this
      ensures Valid() && constraint == old(constraint)
      ensures order == Without(old(order), e)
      ensures error.None? <==> e.key in old(cacheDict)
      ensures error.None? ==> cacheDict == old(cacheDict) - {e.key} && size == old(size) - e.sizeInCache
      ensures error.Some? ==> error.value == KeyError && cacheDict == old(cacheDict) && size == old(size)
      ensures old(InStep(order, cacheDict, size)) ==> error.None? && InStep(order, cacheDict, size)
    {
      ValidAfterUnlink(order, cacheDict, e);
      if InStep(order, cacheDict, size) {
        EvictKeepsStep(order, cacheDict, size, e);
      }
      UnlinkElement(e);
      if e.key !in cacheDict {
        return Some(KeyError);
      }
      cacheDict := cacheDict - {e.key};
      size := size - e.sizeInCache;
      return None;
    }

    /** `release`: a present element loses a reference (the counter may go below zero). */
    method Release(key: string)
      modifies if key in cacheDict then {cacheDict[key]} else {}
      ensures key in cacheDict ==> cacheDict[key].referenceCounter == old(cacheDict[key].referenceCounter) - 1
    {
      if key in cacheDict {
        var e := cacheDict[key];
        e.Release();
      }
    }
  }
}
