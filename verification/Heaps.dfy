/**
 The binary heap operations the pool uses (push, pop, remove at an index and
 heapify), as sifting loops over a sequence, for any order `le`.
 */
module Heaps {

  ghost predicate TotalPreorder<T(!new)>(le: (T, T) -> bool) {
    && (forall a, b :: le(a, b) || le(b, a))
    && (forall a, b, c :: le(a, b) && le(b, c) ==> le(a, c))
  }

  function Parent(i: nat): nat
    requires 0 < i
  {
    (i - 1) / 2
  }

  /** Every edge whose upper end is at or below `lo` is ordered. */
  ghost predicate HeapFrom<T>(s: seq<T>, le: (T, T) -> bool, lo: nat) {
    forall k :: 0 < k < |s| && lo <= Parent(k) ==> le(s[Parent(k)], s[k])
  }

  ghost predicate IsHeap<T>(s: seq<T>, le: (T, T) -> bool) {
    HeapFrom(s, le, 0)
  }

  /** Only the edges touching `i` may be out of order; its children are not below its parent. */
  ghost predicate HeapExceptAt<T>(s: seq<T>, le: (T, T) -> bool, lo: nat, i: nat) {
    && (forall k :: 0 < k < |s| && lo <= Parent(k) && k != i && Parent(k) != i ==> le(s[Parent(k)], s[k]))
    && (forall k :: 0 < i && lo <= Parent(i) && 0 < k < |s| && Parent(k) == i ==> le(s[Parent(i)], s[k]))
  }

  /** The element at `i` is not above its children. */
  ghost predicate OrderedBelow<T>(s: seq<T>, le: (T, T) -> bool, i: nat)
    requires i < |s|
  {
    forall k :: 0 < k < |s| && Parent(k) == i ==> le(s[i], s[k])
  }

  /** The element at `i` is not below its parent. */
  ghost predicate OrderedAbove<T>(s: seq<T>, le: (T, T) -> bool, lo: nat, i: nat)
    requires i < |s|
  {
    0 < i && lo <= Parent(i) ==> le(s[Parent(i)], s[i])
  }

  function Swap<T>(s: seq<T>, i: nat, j: nat): (r: seq<T>)
    requires i < |s| && j < |s|
    ensures |r| == |s| && multiset(r) == multiset(s)
  {
    s[i := s[j]][j := s[i]]
  }

  /** The root of a heap is least. */
  lemma {:induction false} RootIsLeast<T(!new)>(s: seq<T>, le: (T, T) -> bool, i: nat)
    requires TotalPreorder(le) && IsHeap(s, le) && i < |s|
    ensures le(s[0], s[i])
  {
    if 0 < i {
      RootIsLeast(s, le, Parent(i));
      assert le(s[Parent(i)], s[i]);
    }
  }

  method SiftUp<T(!new)>(s: seq<T>, le: (T, T) -> bool, start: nat) returns (r: seq<T>)
    requires TotalPreorder(le)
    requires start < |s| && HeapExceptAt(s, le, 0, start) && OrderedBelow(s, le, start)
    ensures IsHeap(r, le) && multiset(r) == multiset(s) && |r| == |s|
  {
    var j: nat := start;
    r := s;
    while 0 < j && !le(r[Parent(j)], r[j])
      invariant j < |r| == |s| && multiset(r) == multiset(s)
      invariant HeapExceptAt(r, le, 0, j) && OrderedBelow(r, le, j)
    {
      var i := Parent(j);
      SiftUpStep(r, Swap(r, i, j), le, i, j);
      r := Swap(r, i, j);
      j := i;
    }
  }

  lemma {:induction false} SiftUpStep<T(!new)>(s: seq<T>, r: seq<T>, le: (T, T) -> bool, i: nat, j: nat)
    requires TotalPreorder(le) && i < |s| && 0 < j < |s| && Parent(j) == i && r == Swap(s, i, j)
    requires HeapExceptAt(s, le, 0, j) && OrderedBelow(s, le, j) && !le(s[i], s[j])
    ensures HeapExceptAt(r, le, 0, i) && OrderedBelow(r, le, i)
  {
  }

  method SiftDown<T(!new)>(s: seq<T>, le: (T, T) -> bool, lo: nat, start: nat) returns (r: seq<T>, moved: bool)
    requires TotalPreorder(le)
    requires lo <= start < |s| && HeapExceptAt(s, le, lo, start)
    ensures multiset(r) == multiset(s) && |r| == |s|
    ensures moved ==> HeapFrom(r, le, lo)
    ensures !moved ==> r == s && OrderedBelow(r, le, start)
  {
    var i := start;
    r := s;
    while 2 * i + 1 < |r|
      invariant start <= i < |r| == |s| && multiset(r) == multiset(s)
      invariant HeapExceptAt(r, le, lo, i)
      invariant i == start ==> r == s
      invariant i != start ==> OrderedAbove(r, le, lo, i)
      decreases |r| - i
    {
      var j := 2 * i + 1;
      if j + 1 < |r| && !le(r[j], r[j + 1]) {
        j := j + 1;
      }
      assert Parent(j) == i;
      assert forall k :: 0 < k < |r| && Parent(k) == i ==> le(r[j], r[k]);
      if le(r[i], r[j]) {
        break;
      }
      ghost var before := r;
      r := Swap(r, i, j);
      SiftDownStep(before, r, le, lo, i, j);
      i := j;
    }
    moved := i != start;
  }

  lemma {:induction false} SiftDownStep<T(!new)>(s: seq<T>, r: seq<T>, le: (T, T) -> bool, lo: nat, i: nat, j: nat)
    requires TotalPreorder(le) && i < |s| && 0 < j < |s| && Parent(j) == i && lo <= i
    requires HeapExceptAt(s, le, lo, i) && r == Swap(s, i, j) && !le(s[i], s[j])
    requires forall k :: 0 < k < |s| && Parent(k) == i ==> le(s[j], s[k])
    ensures HeapExceptAt(r, le, lo, j) && OrderedAbove(r, le, lo, j)
  {
  }

  method Push<T(!new)>(s: seq<T>, le: (T, T) -> bool, x: T) returns (r: seq<T>)
    requires TotalPreorder(le) && IsHeap(s, le)
    ensures IsHeap(r, le) && multiset(r) == multiset(s) + multiset{x} && |r| == |s| + 1
  {
    r := SiftUp(s + [x], le, |s|);
  }

  /** Removes the root. */
  method Pop<T(!new)>(s: seq<T>, le: (T, T) -> bool) returns (x: T, r: seq<T>)
    requires TotalPreorder(le) && IsHeap(s, le) && 0 < |s|
    ensures IsHeap(r, le) && multiset(s) == multiset(r) + multiset{x} && |r| == |s| - 1
    ensures x == s[0] && forall i :: 0 <= i < |s| ==> le(x, s[i])
  {
    forall i | 0 <= i < |s| ensures le(s[0], s[i]) { RootIsLeast(s, le, i); }
    x, r := RemoveAt(s, le, 0);
  }

  method RemoveAt<T(!new)>(s: seq<T>, le: (T, T) -> bool, i: nat) returns (x: T, r: seq<T>)
    requires TotalPreorder(le) && IsHeap(s, le) && i < |s|
    ensures IsHeap(r, le) && multiset(s) == multiset(r) + multiset{x} && |r| == |s| - 1
    ensures x == s[i]
  {
    x := s[i];
    var n := |s| - 1;
    if n == i {
      r := s[..n];
      assert s == r + [x];
    } else {
      var t := Swap(s, i, n);
      assert t == t[..n] + [x];
      t := t[..n];
      RemoveLeavesGap(s, t, le, i);
      var moved;
      r, moved := SiftDown(t, le, 0, i);
      if !moved {
        r := SiftUp(r, le, i);
      }
    }
  }

  lemma {:induction false} RemoveLeavesGap<T(!new)>(s: seq<T>, t: seq<T>, le: (T, T) -> bool, i: nat)
    requires TotalPreorder(le) && IsHeap(s, le) && i < |s| - 1
    requires t == s[i := s[|s| - 1]][..|s| - 1]
    ensures HeapExceptAt(t, le, 0, i)
  {
    forall k | 0 < i && 0 < k < |t| && Parent(k) == i ensures le(t[Parent(i)], t[k]) {
      assert le(s[Parent(k)], s[k]) && le(s[Parent(i)], s[i]);
    }
  }

  method Heapify<T(!new)>(s: seq<T>, le: (T, T) -> bool) returns (r: seq<T>)
    requires TotalPreorder(le)
    ensures IsHeap(r, le) && multiset(r) == multiset(s) && |r| == |s|
  {
    r := s;
    var i := |s| / 2;
    while 0 < i
      invariant 0 <= i <= |s| / 2 && |r| == |s| && multiset(r) == multiset(s)
      invariant HeapFrom(r, le, i)
    {
      i := i - 1;
      var moved;
      ghost var before := r;
      r, moved := SiftDown(r, le, i, i);
      if !moved {
        assert HeapFrom(r, le, i);
      }
    }
  }

  lemma {:induction false} TwiceInSeq<T>(s: seq<T>, i: nat, j: nat)
    requires i < j < |s| && s[i] == s[j]
    ensures multiset(s)[s[i]] >= 2
  {
    assert s == s[..j] + s[j..];
    assert s[i] in s[..j] && s[i] in s[j..];
  }

  ghost predicate Sorted<T>(s: seq<T>, le: (T, T) -> bool) {
    forall i, j :: 0 <= i < j < |s| ==> le(s[i], s[j])
  }

  function Insert<T>(s: seq<T>, le: (T, T) -> bool, x: T): (r: seq<T>)
    ensures multiset(r) == multiset(s) + multiset{x} && |r| == |s| + 1
  {
    if s == [] || le(x, s[0]) then [x] + s
    else assert s == [s[0]] + s[1..]; [s[0]] + Insert(s[1..], le, x)
  }

  lemma {:induction false} InsertSorted<T(!new)>(s: seq<T>, le: (T, T) -> bool, x: T)
    requires TotalPreorder(le) && Sorted(s, le)
    ensures Sorted(Insert(s, le, x), le)
  {
    if s != [] && !le(x, s[0]) {
      InsertSorted(s[1..], le, x);
      var rest := Insert(s[1..], le, x);
      forall j | 0 <= j < |rest| ensures le(s[0], rest[j]) {
        assert rest[j] in multiset(rest);
        assert rest[j] == x || rest[j] in s[1..];
      }
    }
  }

  /** Insertion sort, standing in for the standard library's sort. */
  method Sort<T(!new)>(s: seq<T>, le: (T, T) -> bool) returns (r: seq<T>)
    requires TotalPreorder(le)
    ensures Sorted(r, le) && multiset(r) == multiset(s) && |r| == |s|
  {
    r := [];
    for n := 0 to |s|
      invariant |r| == n && Sorted(r, le) && multiset(r) == multiset(s[..n])
    {
      assert s[..n + 1] == s[..n] + [s[n]];
      InsertSorted(r, le, s[n]);
      r := Insert(r, le, s[n]);
    }
    assert s[..|s|] == s;
  }
}
