/**
 * The array of the tree's nodes: elements stay in the slots 0 .. length - 1 of a fixed array, and a queue
 * of slot numbers, linked through two more arrays, gives their order.
 */
module SortedArrays {
  const INVALID: int := 255

  ghost predicate Distinct(s: seq<int>) {
    forall i, j :: 0 <= i < j < |s| ==> s[i] != s[j]
  }

  /** The order names each of the slots 0 .. |order| - 1 once. */
  ghost predicate Dense(order: seq<int>) {
    Distinct(order) && forall x :: x in order <==> 0 <= x < |order|
  }

  /** The slot at a place of the queue; there is none before the first and after the last. */
  function SlotAt(order: seq<int>, i: int): int {
    if 0 <= i < |order| then order[i] else INVALID
  }

  ghost predicate LinkedAt(order: seq<int>, prev: seq<int>, next: seq<int>, i: int)
    requires 0 <= i < |order|
  {
    var x := order[i];
    && 0 <= x < |prev| && x < |next| && x != INVALID
    && prev[x] == SlotAt(order, i - 1) && next[x] == SlotAt(order, i + 1)
  }

  /** The queue visits the slots of `order` one after the other, in both directions. */
  ghost predicate Chained(order: seq<int>, head: int, tail: int, prev: seq<int>, next: seq<int>) {
    && Distinct(order) && head == SlotAt(order, 0) && tail == SlotAt(order, |order| - 1)
    && forall i {:trigger LinkedAt(order, prev, next, i)} :: 0 <= i < |order| ==> LinkedAt(order, prev, next, i)
  }

  function Inserted<T>(s: seq<T>, n: nat, x: T): seq<T>
    requires n <= |s|
  {
    s[..n] + [x] + s[n..]
  }

  function Dropped<T>(s: seq<T>, k: nat): seq<T>
    requires k < |s|
  {
    s[..k] + s[k + 1..]
  }

  function Filtered<T>(s: seq<T>, p: T -> bool): seq<T> {
    if s == [] then [] else (if p(s[0]) then [s[0]] else []) + Filtered(s[1..], p)
  }

  // ---------------------------------------------------------------- the links after one change

  lemma LinkHeadDone(order: seq<int>, head: int, tail: int, prev: seq<int>, next: seq<int>, id: int,
                     prev2: seq<int>, next2: seq<int>)
    requires Chained(order, head, tail, prev, next) && id !in order && 0 <= id < |prev| == |next| && id != INVALID
    requires next2 == next[id := head]
    requires order != [] ==> 0 <= order[0] < |prev|
    requires prev2 == if order == [] then prev[id := INVALID] else prev[id := INVALID][order[0] := id]
    ensures Chained([id] + order, id, if order == [] then id else tail, prev2, next2)
  {
    var o := [id] + order;
    forall i | 0 <= i < |o|
      ensures LinkedAt(o, prev2, next2, i)
    {
      if i > 0 {
        assert LinkedAt(order, prev, next, i - 1);
        assert o[i] == order[i - 1] && o[i] in order;
      }
    }
  }

  lemma LinkTailDone(order: seq<int>, head: int, tail: int, prev: seq<int>, next: seq<int>, id: int,
                     prev2: seq<int>, next2: seq<int>)
    requires Chained(order, head, tail, prev, next) && id !in order && 0 <= id < |prev| == |next| && id != INVALID
    requires prev2 == prev[id := tail]
    requires order != [] ==> 0 <= tail < |next|
    requires next2 == if order == [] then next[id := INVALID] else next[id := INVALID][tail := id]
    ensures Chained(order + [id], if order == [] then id else head, id, prev2, next2)
  {
    var o := order + [id];
    forall i | 0 <= i < |o|
      ensures LinkedAt(o, prev2, next2, i)
    {
      if i < |order| {
        assert LinkedAt(order, prev, next, i);
        assert o[i] == order[i] && o[i] in order;
      }
    }
  }

  lemma LinkMiddleDone(order: seq<int>, head: int, tail: int, prev: seq<int>, next: seq<int>, n: nat, id: int,
                       prev2: seq<int>, next2: seq<int>)
    requires Chained(order, head, tail, prev, next) && id !in order && 0 <= id < |prev| == |next| && id != INVALID
    requires 0 < n < |order| && 0 <= order[n] < |prev| && 0 <= order[n - 1] < |next|
    requires prev2 == prev[id := order[n - 1]][order[n] := id]
    requires next2 == next[id := order[n]][order[n - 1] := id]
    ensures Chained(Inserted(order, n, id), head, tail, prev2, next2)
  {
    var o := Inserted(order, n, id);
    InsertedDistinct(order, n, id);
    forall i | 0 <= i < |o|
      ensures LinkedAt(o, prev2, next2, i)
    {
      if i != n {
        var j := if i < n then i else i - 1;
        assert LinkedAt(order, prev, next, j);
        assert o[i] == order[j] && order[j] in order;
        assert j != n ==> order[j] != order[n];
        assert j != n - 1 ==> order[j] != order[n - 1];
      }
    }
  }

  lemma InsertedDistinct(order: seq<int>, n: nat, id: int)
    requires Distinct(order) && n <= |order| && id !in order
    ensures Distinct(Inserted(order, n, id))
    ensures forall x :: x in Inserted(order, n, id) <==> x in order || x == id
  {
    var o := Inserted(order, n, id);
    forall i, j | 0 <= i < j < |o|
      ensures o[i] != o[j]
    {
      assert i != n ==> o[i] == order[if i < n then i else i - 1];
      assert j != n ==> o[j] == order[if j < n then j else j - 1];
    }
    assert o[n] == id;
    forall x | x in order
      ensures x in o
    {
      var i :| 0 <= i < |order| && order[i] == x;
      assert o[if i < n then i else i + 1] == x;
    }
  }

  lemma DroppedDistinct(order: seq<int>, k: nat)
    requires Distinct(order) && k < |order|
    ensures Distinct(Dropped(order, k))
    ensures forall x :: x in Dropped(order, k) <==> x in order && x != order[k]
  {
    var o := Dropped(order, k);
    forall i, j | 0 <= i < j < |o|
      ensures o[i] != o[j]
    {
      assert o[i] == order[if i < k then i else i + 1];
      assert o[j] == order[if j < k then j else j + 1];
    }
    forall x | x in order && x != order[k]
      ensures x in o
    {
      var i :| 0 <= i < |order| && order[i] == x;
      assert o[if i < k then i else i - 1] == x;
    }
    forall x | x in o
      ensures x in order && x != order[k]
    {
      var i :| 0 <= i < |o| && o[i] == x;
      assert x == order[if i < k then i else i + 1];
    }
  }

  /** What taking a slot out of the queue makes of the links. */
  function UnlinkedPrev(prev: seq<int>, next: seq<int>, pos: int): seq<int>
    requires 0 <= pos < |prev| == |next| && (next[pos] == INVALID || 0 <= next[pos] < |prev|)
  {
    (if next[pos] != INVALID then prev[next[pos] := prev[pos]] else prev)[pos := INVALID]
  }

  function UnlinkedNext(prev: seq<int>, next: seq<int>, pos: int): seq<int>
    requires 0 <= pos < |prev| == |next| && (prev[pos] == INVALID || 0 <= prev[pos] < |next|)
  {
    (if prev[pos] != INVALID then next[prev[pos] := next[pos]] else next)[pos := INVALID]
  }

  lemma Neighbours(order: seq<int>, head: int, tail: int, prev: seq<int>, next: seq<int>, k: nat)
    requires Chained(order, head, tail, prev, next) && |prev| == |next| && k < |order|
    ensures 0 <= order[k] < |prev| && order[k] != INVALID
    ensures prev[order[k]] == SlotAt(order, k - 1) && next[order[k]] == SlotAt(order, k + 1)
    ensures k > 0 ==> 0 <= order[k - 1] < |prev| && order[k - 1] != INVALID && order[k - 1] != order[k]
    ensures k + 1 < |order| ==> 0 <= order[k + 1] < |prev| && order[k + 1] != INVALID && order[k + 1] != order[k]
    ensures (head == order[k] <==> k == 0) && (tail == order[k] <==> k + 1 == |order|)
  {
    assert LinkedAt(order, prev, next, k);
    if k > 0 {
      assert LinkedAt(order, prev, next, k - 1);
    }
    if k + 1 < |order| {
      assert LinkedAt(order, prev, next, k + 1);
    }
  }

  lemma UnlinkDone(order: seq<int>, head: int, tail: int, prev: seq<int>, next: seq<int>, k: nat, pos: int)
    requires Chained(order, head, tail, prev, next) && |prev| == |next| && k < |order| && order[k] == pos
    ensures 0 <= pos < |prev| && pos != INVALID
    ensures prev[pos] == INVALID || 0 <= prev[pos] < |next|
    ensures next[pos] == INVALID || 0 <= next[pos] < |prev|
    ensures
      Chained(Dropped(order, k), if head == pos then next[pos] else head, if tail == pos then prev[pos] else tail,
              UnlinkedPrev(prev, next, pos), UnlinkedNext(prev, next, pos))
  {
    Neighbours(order, head, tail, prev, next, k);
    var o := Dropped(order, k);
    DroppedDistinct(order, k);
    forall i | 0 <= i < |o|
      ensures LinkedAt(o, UnlinkedPrev(prev, next, pos), UnlinkedNext(prev, next, pos), i)
    {
      UnlinkedAt(order, head, tail, prev, next, k, i);
    }
  }

  lemma UnlinkedAt(order: seq<int>, head: int, tail: int, prev: seq<int>, next: seq<int>, k: nat, i: nat)
    requires Chained(order, head, tail, prev, next) && |prev| == |next| && k < |order| && i < |order| - 1
    ensures 0 <= order[k] < |prev|
    ensures prev[order[k]] == INVALID || 0 <= prev[order[k]] < |next|
    ensures next[order[k]] == INVALID || 0 <= next[order[k]] < |prev|
    ensures LinkedAt(Dropped(order, k), UnlinkedPrev(prev, next, order[k]), UnlinkedNext(prev, next, order[k]), i)
  {
    Neighbours(order, head, tail, prev, next, k);
    var j := if i < k then i else i + 1;
    Neighbours(order, head, tail, prev, next, j);
    assert Dropped(order, k)[i] == order[j] && order[j] != order[k];
    assert j == k - 1 || (k > 0 ==> order[j] != order[k - 1]);
    assert j == k + 1 || (k + 1 < |order| ==> order[j] != order[k + 1]);
    assert i + 1 < |order| - 1 ==> Dropped(order, k)[i + 1] == order[if i + 1 < k then i + 1 else i + 2];
    assert i > 0 ==> Dropped(order, k)[i - 1] == order[if i - 1 < k then i - 1 else i];
  }

  /** What moving a slot's place in the queue to another slot makes of the links. */
  function MovedPrev(prev: seq<int>, next: seq<int>, old_: int, new_: int): seq<int>
    requires 0 <= old_ < |prev| == |next| && 0 <= new_ < |prev| && (next[old_] == INVALID || 0 <= next[old_] < |prev|)
  {
    var p := prev[new_ := prev[old_]];
    if next[old_] != INVALID then p[next[old_] := new_] else p
  }

  function MovedNext(prev: seq<int>, next: seq<int>, old_: int, new_: int): seq<int>
    requires 0 <= old_ < |prev| == |next| && 0 <= new_ < |prev| && (prev[old_] == INVALID || 0 <= prev[old_] < |next|)
  {
    var n := next[new_ := next[old_]];
    if prev[old_] != INVALID then n[prev[old_] := new_] else n
  }

  lemma MoveDone(order: seq<int>, head: int, tail: int, prev: seq<int>, next: seq<int>, k: nat, from: int, to: int)
    requires Chained(order, head, tail, prev, next) && |prev| == |next| && k < |order| && order[k] == from
    requires 0 <= to < |prev| && to !in order && to != INVALID
    ensures 0 <= from < |prev|
    ensures prev[from] == INVALID || 0 <= prev[from] < |next|
    ensures next[from] == INVALID || 0 <= next[from] < |prev|
    ensures
      Chained(order[k := to], if head == from then to else head, if tail == from then to else tail,
              MovedPrev(prev, next, from, to), MovedNext(prev, next, from, to))
  {
    Neighbours(order, head, tail, prev, next, k);
    var o := order[k := to];
    forall i | 0 <= i < |o|
      ensures LinkedAt(o, MovedPrev(prev, next, from, to), MovedNext(prev, next, from, to), i)
    {
      assert LinkedAt(order, prev, next, i);
      assert order[i] in order;
      assert i != k ==> order[i] != order[k];
      assert k > 0 && i != k - 1 ==> order[i] != order[k - 1];
      assert k + 1 < |order| && i != k + 1 ==> order[i] != order[k + 1];
    }
  }

  // ---------------------------------------------------------------- the array

  /** The elements in the order of the queue. */
  ghost function InOrder<T>(items: seq<T>, order: seq<int>): (s: seq<T>)
    requires InRange(order, |items|)
    ensures |s| == |order| && forall i :: 0 <= i < |order| ==> s[i] == items[order[i]]
  {
    seq(|order|, i requires 0 <= i < |order| => items[order[i]])
  }

  ghost predicate InRange(order: seq<int>, n: int) {
    forall i :: 0 <= i < |order| ==> 0 <= order[i] < n
  }

  /** The last slot is moved into the free one: the elements and their order stay. */
  lemma Compacted<T>(items: seq<T>, order: seq<int>, k: nat, from: int, to: int)
    requires Distinct(order) && k < |order| && order[k] == from && to !in order
    requires InRange(order, |items|) && 0 <= to < |items|
    ensures Distinct(order[k := to]) && InRange(order[k := to], |items|)
    ensures forall x :: x in order[k := to] <==> x == to || (x in order && x != from)
    ensures InOrder(items[to := items[from]], order[k := to]) == InOrder(items, order)
  {
    var o := order[k := to];
    forall x | x in order && x != from
      ensures x in o
    {
      var i :| 0 <= i < |order| && order[i] == x;
      assert o[i] == x;
    }
    assert o[k] == to;
    forall i, j | 0 <= i < j < |o|
      ensures o[i] != o[j]
    {
      assert order[i] in order && order[j] in order;
    }
    forall x | x in o
      ensures x == to || (x in order && x != from)
    {
      var i :| 0 <= i < |o| && o[i] == x;
      assert i != k ==> order[i] != order[k];
    }
    forall i | 0 <= i < |o|
      ensures InOrder(items[to := items[from]], o)[i] == InOrder(items, order)[i]
    {
      assert order[i] in order;
    }
  }

  /** The order after the element at place `k` is gone and its slot holds what was in the last slot. */
  ghost function Refilled(order: seq<int>, k: nat): seq<int>
    requires k < |order|
  {
    var d := Dropped(order, k);
    seq(|d|, i requires 0 <= i < |d| => if d[i] == |d| then order[k] else d[i])
  }

  lemma PlaceOfLast(order: seq<int>, k: nat) returns (j: nat)
    requires Dense(order) && k < |order| && order[k] < |order| - 1
    ensures j < |order| - 1 && Dropped(order, k)[j] == |order| - 1
    ensures Refilled(order, k) == Dropped(order, k)[j := order[k]] && Dense(Refilled(order, k))
    ensures order[k] !in Dropped(order, k)
  {
    var last := |order| - 1;
    assert last in order && order[k] in order;
    DroppedDistinct(order, k);
    assert last in Dropped(order, k);
    j :| 0 <= j < last && Dropped(order, k)[j] == last;
    forall i | 0 <= i < last
      ensures 0 <= Dropped(order, k)[i] < |order|
    {
      assert Dropped(order, k)[i] in Dropped(order, k);
    }
    Compacted(order, Dropped(order, k), j, last, order[k]);
    assert Refilled(order, k) == Dropped(order, k)[j := order[k]];
    forall x
      ensures x in Refilled(order, k) <==> 0 <= x < last
    {
      assert x in Dropped(order, k) <==> x in order && x != order[k];
      assert x in order <==> 0 <= x < |order|;
    }
  }

  lemma NothingToMove(order: seq<int>, k: nat)
    requires Dense(order) && k < |order| && order[k] >= |order| - 1
    ensures Refilled(order, k) == Dropped(order, k) && Dense(Dropped(order, k))
  {
    DroppedDistinct(order, k);
    assert order[k] in order;
    forall i | 0 <= i < |order| - 1
      ensures Dropped(order, k)[i] != |order| - 1
    {
      assert Dropped(order, k)[i] in Dropped(order, k);
    }
  }

  lemma DroppedElements<T>(items: seq<T>, order: seq<int>, k: nat)
    requires InRange(order, |items|) && k < |order|
    ensures InRange(Dropped(order, k), |items|)
    ensures InOrder(items, Dropped(order, k)) == Dropped(InOrder(items, order), k)
  {
  }

  lemma IterMoved(order: seq<int>, k: nat)
    requires Dense(order) && k < |order| < INVALID
    ensures
      var iter, last := SlotAt(order, k + 1), |order| - 1;
      SlotAt(Refilled(order, k), k) == if order[k] < last && iter == last then order[k] else iter
  {
    assert order[k] in order;
    if k + 1 < |order| {
      assert order[k + 1] in order && order[k + 1] != order[k];
    }
  }

  lemma {:induction false} FilteredConcat<T>(a: seq<T>, b: seq<T>, p: T -> bool)
    ensures Filtered(a + b, p) == Filtered(a, p) + Filtered(b, p)
  {
    if a == [] {
      assert a + b == b;
    } else {
      assert (a + b)[0] == a[0] && (a + b)[1..] == a[1..] + b;
      FilteredConcat(a[1..], b, p);
      Associative(if p(a[0]) then [a[0]] else [], Filtered(a[1..], p), Filtered(b, p));
    }
  }

  lemma Associative<T>(a: seq<T>, b: seq<T>, c: seq<T>)
    ensures a + (b + c) == (a + b) + c
  {
  }

  lemma FilteredNext<T>(s: seq<T>, n: nat, p: T -> bool)
    ensures n < |s| ==> Filtered(s[..n + 1], p) == Filtered(s[..n], p) + if p(s[n]) then [s[n]] else []
  {
    if n < |s| {
      assert s[..n + 1] == s[..n] + [s[n]];
      FilteredConcat(s[..n], [s[n]], p);
      assert [s[n]][1..] == [];
    }
  }

  lemma DroppedParts<T>(s: seq<T>, k: nat)
    requires k < |s|
    ensures Dropped(s, k)[..k] == s[..k] && Dropped(s, k)[k..] == s[k + 1..]
  {
  }

  lemma TailNext<T>(s: seq<T>, k: nat, t: seq<T>, n: nat)
    requires k < |s| && n <= |t| && s[k..] == t[n..]
    ensures n < |t| && s[k + 1..] == t[n + 1..] && s[k] == t[n]
  {
    assert |s[k..]| == |t[n..]|;
    assert s[k..][1..] == s[k + 1..] && t[n..][1..] == t[n + 1..];
    assert s[k..][0] == s[k];
  }

  lemma HeadNext<T>(s: seq<T>, k: nat)
    requires k < |s|
    ensures s[..k + 1] == s[..k] + [s[k]]
  {
  }

  lemma WholeSeq<T>(all: seq<T>, s: seq<T>, k: nat, n: nat)
    requires k == |s| && n <= |all| && s[k..] == all[n..]
    ensures all[..n] == all && s[..k] == s
  {
    assert |all[n..]| == 0;
  }

  lemma NothingKept<T>(all: seq<T>, keep: T -> bool)
    ensures all[..0] == [] && Filtered(all[..0], keep) == [] && all[0..] == all
  {
  }

  lemma MovedOne<T>(all: seq<T>, rest: seq<T>, moved: seq<T>, z: nat, x: T)
    requires z < |all| && all[..|all| - z] == rest + [x] && moved == all[|all| - z..]
    ensures rest == all[..|all| - (z + 1)] && [x] + moved == all[|all| - (z + 1)..]
  {
    assert (rest + [x])[..|all| - (z + 1)] == rest;
    assert all[..|all| - z][|all| - (z + 1)] == x;
  }

  class SortedArray<T(0)> {
    const capacity: nat
    const items: array<T>
    const prev: array<int>
    const next: array<int>
    var length: nat
    var head: int
    var tail: int
    /** The slots in the order of the queue. */
    ghost var order: seq<int>

    /** Three arrays of one length, one for the elements and two for the links. */
    ghost predicate Laid()
    {
      && items.Length == prev.Length == next.Length == capacity < INVALID
      && prev != next && items != prev && items != next
    }

    /** The queue is sound; while an element is being put in or taken out its slots need not be dense. */
    ghost predicate Queue()
      reads this, prev, next
    {
      && Laid()
      && length == |order| <= capacity
      && InRange(order, capacity)
      && Chained(order, head, tail, prev[..], next[..])
    }

    ghost predicate Valid()
      reads this, prev, next
    {
      Queue() && Dense(order)
    }

    ghost function Contents(): (s: seq<T>)
      requires Queue()
      reads this, items, prev, next
      ensures |s| == length
    {
      InOrder(items[..], order)
    }

    constructor (capacity: nat)
      requires capacity < INVALID
      ensures Valid() && Contents() == [] && this.capacity == capacity
      ensures fresh(items) && fresh(prev) && fresh(next)
    {
      this.capacity := capacity;
      items := new T[capacity];
      prev := new int[capacity](i => INVALID);
      next := new int[capacity](i => INVALID);
      length, head, tail, order := 0, INVALID, INVALID, [];
    }

    method LinkHead(id: int)
      requires Queue() && 0 <= id < capacity && id !in order && length < capacity
      modifies this`length, this`head, this`tail, this`order, prev, next
      ensures Queue() && order == [id] + old(order)
    {
      if order != [] {
        Neighbours(order, head, tail, prev[..], next[..], 0);
        Neighbours(order, head, tail, prev[..], next[..], length - 1);
      }
      prev[id] := INVALID;
      next[id] := head;
      if head != INVALID {
        prev[head] := id;
      }
      LinkHeadDone(order, head, tail, old(prev[..]), old(next[..]), id, prev[..], next[..]);
      head := id;
      if tail == INVALID {
        tail := id;
      }
      length := length + 1;
      order := [id] + order;
    }

    method LinkTail(id: int)
      requires Queue() && 0 <= id < capacity && id !in order && length < capacity
      modifies this`length, this`head, this`tail, this`order, prev, next
      ensures Queue() && order == old(order) + [id]
    {
      if order != [] {
        Neighbours(order, head, tail, prev[..], next[..], 0);
        Neighbours(order, head, tail, prev[..], next[..], length - 1);
      }
      prev[id] := tail;
      next[id] := INVALID;
      if tail != INVALID {
        next[tail] := id;
      }
      LinkTailDone(order, head, tail, old(prev[..]), old(next[..]), id, prev[..], next[..]);
      tail := id;
      if head == INVALID {
        head := id;
      }
      length := length + 1;
      order := order + [id];
    }

    /** The slot that is `n` places behind the head. */
    method Walk(n: nat) returns (slot: int)
      requires Queue() && n < length
      ensures slot == order[n]
    {
      slot := head;
      for i := 0 to n
        invariant slot == order[i]
      {
        Neighbours(order, head, tail, prev[..], next[..], i);
        slot := next[slot];
      }
    }

    method LinkMiddle(n: nat, id: int)
      requires Queue() && 0 <= id < capacity && id !in order && length < capacity && 0 < n < length
      modifies this`length, this`order, prev, next
      ensures Queue() && order == Inserted(old(order), n, id)
    {
      var at := Walk(n);
      Neighbours(order, head, tail, prev[..], next[..], n);
      InsertedDistinct(order, n, id);
      prev[id] := prev[at];
      next[id] := at;
      next[prev[at]] := id;
      prev[at] := id;
      LinkMiddleDone(order, head, tail, old(prev[..]), old(next[..]), n, id, prev[..], next[..]);
      length := length + 1;
      order := Inserted(order, n, id);
    }

    method LinkAt(n: nat, id: int)
      requires Queue() && 0 <= id < capacity && id !in order && length < capacity && n <= length
      modifies this`length, this`head, this`tail, this`order, prev, next
      ensures Queue() && order == Inserted(old(order), n, id)
    {
      if n == 0 {
        LinkHead(id);
        assert order == Inserted(old(order), n, id);
      } else if n == length {
        LinkTail(id);
        assert order == Inserted(old(order), n, id);
      } else {
        LinkMiddle(n, id);
      }
    }

    /** Takes a slot out of the queue. */
    method Unlink(pos: int, ghost k: nat)
      requires Queue() && k < length && order[k] == pos
      modifies this`length, this`head, this`tail, this`order, prev, next
      ensures Queue() && order == Dropped(old(order), k)
    {
      Neighbours(order, head, tail, prev[..], next[..], k);
      UnlinkDone(order, head, tail, prev[..], next[..], k, pos);
      DroppedDistinct(order, k);
      if prev[pos] != INVALID {
        next[prev[pos]] := next[pos];
      }
      if next[pos] != INVALID {
        prev[next[pos]] := prev[pos];
      }
      if head == pos {
        head := next[pos];
      }
      if tail == pos {
        tail := prev[pos];
      }
      prev[pos] := INVALID;
      next[pos] := INVALID;
      assert prev[..] == UnlinkedPrev(old(prev[..]), old(next[..]), pos);
      assert next[..] == UnlinkedNext(old(prev[..]), old(next[..]), pos);
      length := length - 1;
      order := Dropped(order, k);
    }

    /** The place of slot `from` in the queue is taken by slot `to`. */
    method Move(from: int, to: int, ghost k: nat)
      requires Queue() && k < length && order[k] == from && 0 <= to < capacity && to !in order
      modifies this`head, this`tail, this`order, prev, next
      ensures Queue() && order == old(order)[k := to]
    {
      Neighbours(order, head, tail, prev[..], next[..], k);
      MoveDone(order, head, tail, prev[..], next[..], k, from, to);
      prev[to], next[to] := prev[from], next[from];
      if prev[to] != INVALID {
        next[prev[to]] := to;
      }
      if next[to] != INVALID {
        prev[next[to]] := to;
      }
      if head == from {
        head := to;
      }
      if tail == from {
        tail := to;
      }
      assert prev[..] == MovedPrev(old(prev[..]), old(next[..]), from, to);
      assert next[..] == MovedNext(old(prev[..]), old(next[..]), from, to);
      order := order[k := to];
    }

    /** Puts an element in at a place of the order, in the first free slot. */
    method InsertVal(position: nat, element: T)
      requires Valid() && position <= length < capacity
      modifies this`length, this`head, this`tail, this`order, items, prev, next
      ensures
        var all := old(Contents());
        Valid() && |all| == old(length) && Contents() == all[..position] + [element] + all[position..]
    {
      var pos := length;
      items[pos] := element;
      InsertedDistinct(order, position, pos);
      LinkAt(position, pos);
    }

    method PushHead(element: T)
      requires Valid() && length < capacity
      modifies this`length, this`head, this`tail, this`order, items, prev, next
      ensures Valid() && Contents() == [element] + old(Contents())
    {
      var pos := length;
      items[pos] := element;
      InsertedDistinct(order, 0, pos);
      LinkHead(pos);
      assert order == Inserted(old(order), 0, pos);
    }

    method PushTail(element: T)
      requires Valid() && length < capacity
      modifies this`length, this`head, this`tail, this`order, items, prev, next
      ensures Valid() && Contents() == old(Contents()) + [element]
    {
      var pos := length;
      items[pos] := element;
      InsertedDistinct(order, length, pos);
      LinkTail(pos);
      assert order == Inserted(old(order), |old(order)|, pos);
    }

    /** Takes out the element in slot `pos` and fills the slot with the one in the last slot. */
    method Vacate(pos: int, ghost k: nat)
      requires Valid() && k < length && order[k] == pos
      modifies this`length, this`head, this`tail, this`order, items, prev, next
      ensures Valid() && Contents() == Dropped(old(Contents()), k) && order == Refilled(old(order), k)
    {
      ghost var before := order;
      DroppedDistinct(order, k);
      DroppedElements(items[..], order, k);
      Unlink(pos, k);
      if pos < length {
        ghost var j := PlaceOfLast(before, k);
        Compacted(items[..], order, j, length, pos);
        items[pos] := items[length];
        Move(length, pos, j);
      } else {
        NothingToMove(before, k);
      }
    }

    /** The slot of the element at a place; the last one is reached without walking. */
    method Nth(n: nat) returns (slot: int)
      requires Queue() && n < length
      ensures slot == order[n]
    {
      if n == 0 {
        slot := head;
      } else if n >= length - 1 {
        slot := tail;
      } else {
        slot := Walk(n);
      }
    }

    method RemoveIndex(position: nat) returns (element: T)
      requires Valid() && position < length
      modifies this`length, this`head, this`tail, this`order, items, prev, next
      ensures
        var all := old(Contents());
        && Valid() && |all| == old(length) && element == all[position]
        && Contents() == all[..position] + all[position + 1..]
    {
      var pos := Nth(position);
      element := items[pos];
      Vacate(pos, position);
    }

    method PopTail() returns (element: T)
      requires Valid() && length > 0
      modifies this`length, this`head, this`tail, this`order, items, prev, next
      ensures Valid() && old(Contents()) == Contents() + [element]
    {
      element := RemoveIndex(length - 1);
    }

    method PopHead() returns (element: T)
      requires Valid() && length > 0
      modifies this`length, this`head, this`tail, this`order, items, prev, next
      ensures Valid() && old(Contents()) == [element] + Contents()
    {
      element := RemoveIndex(0);
    }

    /** Removal of the current element of an iteration; the slot to go on with may have been moved. */
    method ForeachRemove(current: int, iter: int, ghost k: nat) returns (iter2: int)
      requires Valid() && k < length && order[k] == current && iter == SlotAt(order, k + 1)
      modifies this`length, this`head, this`tail, this`order, items, prev, next
      ensures
        var all := old(Contents());
        Valid() && |all| == old(length) && Contents() == all[..k] + all[k + 1..]
      ensures iter2 == SlotAt(order, k) && (k < length ==> iter2 == order[k])
    {
      var last := length - 1;
      ghost var before := order;
      Vacate(current, k);
      iter2 := if current < last && iter == last then current else iter;
      IterMoved(before, k);
    }

    lemma StartOfQueue()
      requires Valid()
      ensures Queue() && head == SlotAt(order, 0) && |Contents()| == length == |order|
      ensures Contents()[..0] == [] && Contents()[0..] == Contents()
    {
    }

    lemma Cursor(k: nat)
      requires Valid() && k <= length && SlotAt(order, k) != INVALID
      ensures Queue() && k < length == |order| == |Contents()| && order[k] == SlotAt(order, k)
      ensures 0 <= order[k] < items.Length == next.Length && next[order[k]] == SlotAt(order, k + 1)
      ensures Contents()[k] == items[order[k]]
    {
      Neighbours(order, head, tail, prev[..], next[..], k);
    }

    /** One element fewer than before. */
    lemma Remains(before: seq<T>, k: nat)
      requires Valid() && k < |before|
      ensures Queue() && |Contents()| == length && |Dropped(before, k)| == |before| - 1
    {
    }

    lemma EndOfQueue(k: nat)
      requires Valid() && k <= length && SlotAt(order, k) == INVALID
      ensures k == length == |Contents()|
    {
    }

    /** Keeps only the elements that `keep` holds of, removing the others while iterating over the array. */
    method RemoveWhere(keep: T -> bool)
      requires Valid()
      modifies this`length, this`head, this`tail, this`order, items, prev, next
      ensures Valid() && Contents() == Filtered(old(Contents()), keep)
    {
      hide *;
      StartOfQueue();
      ghost var all := Contents();
      ghost var n := 0;
      var iter := head;
      NothingKept(all, keep);
      ghost var k := 0;
      while iter != INVALID
        invariant Valid() && Queue() && k <= length && n <= |all| && iter == SlotAt(order, k)
        invariant Contents()[..k] == Filtered(all[..n], keep) && Contents()[k..] == all[n..]
        decreases |all| - n
      {
        ghost var before := Contents();
        Cursor(k);
        FilteredNext(all, n, keep);
        TailNext(before, k, all, n);
        var current := iter;
        iter := next[iter];
        if keep(items[current]) {
          HeadNext(before, k);
          k := k + 1;
        } else {
          iter := ForeachRemove(current, iter, k);
          Remains(before, k);
          DroppedParts(before, k);
        }
        n := n + 1;
      }
      EndOfQueue(k);
      WholeSeq(all, Contents(), k, n);
    }

    /** Empties the array, whatever was in it. */
    method Init()
      requires Laid()
      modifies this`length, this`head, this`tail, this`order, prev, next
      ensures Valid() && Contents() == []
    {
      length, head, tail, order := 0, INVALID, INVALID, [];
      for i := 0 to capacity
        modifies prev, next
      {
        next[i] := INVALID;
        prev[i] := INVALID;
      }
    }

    /** Two arrays that share nothing. */
    ghost predicate Apart(other: SortedArray<T>) {
      && this != other && {items as object, prev, next} !! {other.items as object, other.prev, other.next}
      && other.Laid()
    }

    /** Moves the last `count` elements to the front of another array, one by one. */
    method MoveTail(other: SortedArray<T>, count: nat)
      requires Valid() && Apart(other) && other.Valid() && other.Contents() == []
      requires count <= length && count <= other.capacity
      modifies this`length, this`head, this`tail, this`order, items, prev, next
      modifies other`length, other`head, other`tail, other`order, other.items, other.prev, other.next
      ensures Valid() && other.Valid()
      ensures Contents() == old(Contents())[..|old(Contents())| - count]
      ensures other.Contents() == old(Contents())[|old(Contents())| - count..]
    {
      hide Chained, Dense, InOrder, InRange;
      ghost var all := Contents();
      for z := 0 to count
        invariant Valid() && other.Valid()
        invariant Contents() == all[..|all| - z] && other.Contents() == all[|all| - z..]
      {
        var element := PopTail();
        MovedOne(all, Contents(), other.Contents(), z, element);
        other.PushHead(element);
      }
    }

    /** The upper half of the elements goes to `other`. */
    method Split(other: SortedArray<T>)
      requires Valid() && Apart(other) && length / 2 <= other.capacity
      modifies this`length, this`head, this`tail, this`order, items, prev, next
      modifies other`length, other`head, other`tail, other`order, other.items, other.prev, other.next
      ensures Valid() && other.Valid()
      ensures
        var all := old(Contents());
        Contents() == all[..|all| - |all| / 2] && other.Contents() == all[|all| - |all| / 2..]
    {
      hide Chained, Dense, InOrder, InRange;
      other.Init();
      MoveTail(other, length / 2);
    }

    /** The elements are shared out between two other arrays; nothing is left here. */
    method Split2(left: SortedArray<T>, right: SortedArray<T>)
      requires Valid() && Apart(left) && Apart(right) && left.Apart(right)
      requires left.Apart(this) && right.Apart(left)
      requires length / 2 <= right.capacity && length - length / 2 <= left.capacity
      modifies this`length, this`head, this`tail, this`order, items, prev, next
      modifies left`length, left`head, left`tail, left`order, left.items, left.prev, left.next
      modifies right`length, right`head, right`tail, right`order, right.items, right.prev, right.next
      ensures Valid() && left.Valid() && right.Valid() && Contents() == []
      ensures
        var all := old(Contents());
        left.Contents() == all[..|all| - |all| / 2] && right.Contents() == all[|all| - |all| / 2..]
    {
      hide Queue, Chained, Dense, InOrder, InRange;
      left.Init();
      right.Init();
      MoveTail(right, length / 2);
      assert left.Valid() && left.Contents() == [];
      ghost var low := Contents();
      MoveTail(left, length);
      assert low[..0] == [] && low[0..] == low;
    }
  }
}
