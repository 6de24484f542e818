/**
 The intrusive queues of uthread_queue.c: threads linked through their own qnxt
 field, with a queue record that points to the first and the last of them.
 */
module ThreadQueue {
  import opened Prelude

  class Thread {
    var qnxt: Thread?
    var queue: Queue?
  }

  /** The i-th of s, NULL if there is none. */
  function At(s: seq<Thread>, i: int): Thread?
  {
    if 0 <= i < |s| then s[i] else null
  }

  /** Following qnxt from first visits exactly s and ends in NULL. */
  ghost predicate Linked(first: Thread?, s: seq<Thread>)
    reads s
  {
    && first == At(s, 0)
    && forall i {:trigger s[i].qnxt} :: 0 <= i < |s| ==> s[i].qnxt == At(s, i + 1)
  }

  /** What is linked is determined by the heap. */
  lemma {:induction false} LinkedIsUnique(first: Thread?, a: seq<Thread>, b: seq<Thread>)
    requires Linked(first, a) && Linked(first, b)
    ensures a == b
  {
    if a != [] && b != [] {
      LinkedIsUnique(a[0].qnxt, a[1..], b[1..]);
      assert a == [a[0]] + a[1..] && b == [b[0]] + b[1..];
    }
  }

  /** A list that ends in NULL has no thread twice. */
  lemma LinkedIsAcyclic(first: Thread?, s: seq<Thread>, i: nat, j: nat)
    requires Linked(first, s) && i < j < |s|
    ensures s[i] != s[j]
    decreases |s| - j
  {
    assert s[i].qnxt == At(s, i + 1) && s[j].qnxt == At(s, j + 1);
    if s[i] == s[j] && j + 1 < |s| {
      LinkedIsAcyclic(first, s, i + 1, j + 1);
    }
  }

  class Queue {
    var qNext: Thread?
    var qLast: Thread?
    ghost var list: seq<Thread>

    ghost predicate Valid()
      reads this, list
    {
      && Linked(qNext, list)
      && qLast == At(list, |list| - 1)
      && forall i :: 0 <= i < |list| ==> list[i].queue == this
    }

    /** _thread_queue_init. */
    constructor ()
      ensures Valid() && list == []
    {
      qNext, qLast, list := null, null, [];
    }

    /** _thread_queue_enq. */
    method Enqueue(t: Thread)
      requires Valid() && t !in list
      modifies this, list, t
      ensures Valid() && list == old(list) + [t]
    {
      if qLast != null {
        Distinct();
        qLast.qnxt := t;
      } else {
        qNext := t;
      }
      qLast := t;
      t.queue := this;
      t.qnxt := null;
      list := list + [t];
    }

    /** _thread_queue_get. */
    method Get() returns (t: Thread?)
      requires Valid()
      ensures t == At(list, 0)
    {
      t := qNext;
    }

    /** _thread_queue_deq. */
    method Dequeue() returns (t: Thread?)
      requires Valid()
      modifies this, list
      ensures Valid()
      ensures old(list) == [] ==> t == null && list == []
      ensures old(list) != [] ==> t == old(list)[0] && list == old(list)[1..]
      ensures t != null ==> t.queue == null && t.qnxt == null
      ensures forall b: Queue :: old(allocated(b)) && b != this && old(b.Valid())
                ==> b.Valid() && b.list == old(b.list)
    {
      t := null;
      if qNext != null {
        Distinct();
        t := qNext;
        qNext := qNext.qnxt;
        if qNext == null {
          qLast := null;
        }
        t.queue := null;
        t.qnxt := null;
        list := list[1..];
      }
    }

    /** _thread_queue_remove. */
    method Remove(t: Thread) returns (ret: int)
      requires Valid()
      modifies this, list, t
      ensures Valid() && list == Without(old(list), t)
      ensures ret == if t in old(list) then 0 else -1
      ensures t.queue == null && t.qnxt == null
    {
      var prev, found := Seek(t);
      if found {
        OnlyOnce(t);
        Unlink(prev, t, Find(list, t), Without(list, t));
        ret := 0;
      } else {
        ret := -1;
      }
      Detach(t);
    }

    /** Clear the links of a thread that is not in this queue. */
    method Detach(t: Thread)
      requires Valid() && t !in list
      modifies t
      ensures Valid() && t.queue == null && t.qnxt == null
    {
      t.queue := null;
      t.qnxt := null;
    }

    /** Its loop: prev is the thread whose qnxt leads to t, NULL if it is q_next. */
    method Seek(t: Thread) returns (prev: Thread?, found: bool)
      requires Valid()
      ensures found <==> t in list
      ensures prev == At(list, Find(list, t) - 1)
    {
      ghost var k := 0;
      prev := null;
      var current := qNext;
      while current != null && current != t
        invariant 0 <= k <= |list| && t !in list[..k]
        invariant prev == At(list, k - 1) && current == At(list, k)
        decreases |list| - k
      {
        prev := current;
        current := current.qnxt;
        k := k + 1;
      }
      found := current != null;
      assert Find(list, t) == k by {
        if k < |list| { FindIs(list, t, k); }
      }
    }

    /** Take t, the k-th thread, which follows prev, out of the links; r is what stays. */
    method Unlink(prev: Thread?, t: Thread, ghost k: nat, ghost r: seq<Thread>)
      requires Valid() && k < |list| && t == list[k] && prev == At(list, k - 1)
      requires OneLess(list, r, k)
      modifies this, if prev == null then {} else {prev}
      ensures Valid() && list == r
    {
      if k > 0 { Occurs(k - 1); }
      assert t.qnxt == At(list, k + 1);
      if t.qnxt == null {
        qLast := prev;
      }
      if prev == null { qNext := t.qnxt; } else { prev.qnxt := t.qnxt; }
      ghost var was := list;
      list := r;
      forall i: nat | i < |r| ensures r[i].qnxt == At(r, i + 1) {
        if i + 1 == k {
          assert r[i] == prev;
        } else {
          var j: nat := if i < k then i else i + 1;
          assert r[i] == was[j] && was[j] != prev;
        }
      }
    }

    /** A thread is in the list only once. */
    lemma Occurs(k: nat)
      requires Valid() && k < |list|
      ensures forall i :: 0 <= i < |list| && i != k ==> list[i] != list[k]
    {
      forall i | 0 <= i < |list| && i != k ensures list[i] != list[k] {
        if i < k { LinkedIsAcyclic(qNext, list, i, k); } else { LinkedIsAcyclic(qNext, list, k, i); }
      }
    }

    lemma OnlyOnce(t: Thread)
      requires Valid() && t in list
      ensures OneLess(list, Without(list, t), Find(list, t)) && t !in Without(list, t)
    {
      Occurs(Find(list, t));
      WithoutAt(list, t);
    }

    lemma Distinct()
      requires Valid()
      ensures forall i, j :: 0 <= i < j < |list| ==> list[i] != list[j]
    {
      forall i, j | 0 <= i < j < |list| ensures list[i] != list[j] {
        LinkedIsAcyclic(qNext, list, i, j);
      }
    }
  }

  /** A queue that has none of the threads a change was about is not disturbed by it. */
  twostate lemma OtherQueueIsKept(b: Queue, q: Queue, t: Thread)
    requires old(q.Valid()) && old(b.Valid()) && b != q && t !in old(b.list)
    requires unchanged(b) && forall u :: u in old(b.list) && u != t && u !in old(q.list) ==> unchanged(u)
    ensures b.Valid()
  {
    forall i | 0 <= i < |b.list| ensures unchanged(b.list[i]) {
      assert old(b.list[i].queue) == b;
      assert b.list[i] !in old(q.list);
    }
  }

  /** A list in which the k-th link has been cleared: what can still be reached ends
      there, so the list is whole if and only if the k-th thread was its last. */
  lemma CutAt(first: Thread?, s: seq<Thread>, k: nat)
    requires k < |s| && first == At(s, 0) && s[k].qnxt == null
    requires forall i :: 0 <= i < |s| && i != k ==> s[i].qnxt == At(s, i + 1)
    ensures Linked(first, s[..k + 1])
    ensures Linked(first, s) <==> k == |s| - 1
  {
    assert Linked(first, s) ==> s[k].qnxt == At(s, k + 1);
  }

  /** Removing a thread from a queue it is not in, while it is in another queue b: the
      call reports that it was not found, and yet clears the thread's link, so that b is
      cut off after it. Nothing is lost if and only if it was the last thread of b. */
  method RemoveFromWrongQueue(q: Queue, b: Queue, t: Thread) returns (ret: int)
    requires q.Valid() && b.Valid() && q != b && t in b.list
    modifies q, q.list, t
    ensures ret == -1 && q.Valid() && q.list == old(q.list) && b.list == old(b.list)
    ensures Linked(b.qNext, b.list[..Find(b.list, t) + 1])
    ensures Linked(b.qNext, b.list) <==> t == b.list[|b.list| - 1]
  {
    ghost var k := Find(b.list, t);
    b.Occurs(k);
    assert forall u :: u in b.list ==> u !in q.list;
    ret := q.Remove(t);
    forall i | 0 <= i < |b.list| && i != k ensures b.list[i].qnxt == At(b.list, i + 1) {
      assert b.list[i] != t;
      assert old(b.list[i].qnxt) == At(b.list, i + 1);
    }
    CutAt(b.qNext, b.list, k);
  }

  // ------------------------------------------------- pthread_llist_remove

  class ListHead {
    var first: Thread?

    /** pthread_llist_remove, with s the threads of the list: the links of t itself
        stay as they are. */
    method LlistRemove(t: Thread, ghost s: seq<Thread>) returns (ret: int)
      requires Linked(first, s)
      modifies this, s
      ensures Linked(first, Without(s, t))
      ensures ret == if t in s then 0 else -1
      ensures t.qnxt == old(t.qnxt)
    {
      ghost var k := 0;
      var prev: Thread? := null;
      var current := first;
      while current != null && current != t
        invariant 0 <= k <= |s| && t !in s[..k]
        invariant prev == At(s, k - 1) && current == At(s, k)
        decreases |s| - k
      {
        prev := current;
        current := current.qnxt;
        k := k + 1;
      }
      if current == null {
        return -1;
      }
      FindIs(s, t, k);
      Bypass(prev, t, s, k);
      ret := 0;
    }

    method Bypass(prev: Thread?, t: Thread, ghost s: seq<Thread>, ghost k: nat)
      requires Linked(first, s) && k < |s| && s[k] == t && prev == At(s, k - 1) && k == Find(s, t)
      modifies this, if prev == null then {} else {prev}
      ensures Linked(first, Without(s, t)) && t.qnxt == old(t.qnxt)
    {
      WithoutAt(s, t);
      ghost var r := Without(s, t);
      forall i, j | 0 <= i < j < |s| ensures s[i] != s[j] {
        LinkedIsAcyclic(first, s, i, j);
      }
      if prev == null { first := t.qnxt; } else { prev.qnxt := t.qnxt; }
      forall i: nat | i < |r| ensures r[i].qnxt == At(r, i + 1) {
        if i + 1 == k {
          assert r[i] == prev;
        } else {
          var j: nat := if i < k then i else i + 1;
          assert r[i] == s[j] && s[j] != prev;
        }
      }
    }
  }

  // ------------------------------------------------- whole runs of a queue

  datatype Op = Enq(t: Thread) | Deq | Rem(t: Thread)

  /** A queue as a plain sequence, and what has been dequeued so far. */
  datatype Line = Line(waiting: seq<Thread>, served: seq<Thread>)

  function Do(l: Line, op: Op): Line
  {
    match op
    case Enq(t) => l.(waiting := l.waiting + [t])
    case Deq => if l.waiting == [] then l else Line(l.waiting[1..], l.served + [l.waiting[0]])
    case Rem(t) => l.(waiting := Without(l.waiting, t))
  }

  function DoAll(l: Line, ops: seq<Op>): Line
  {
    if ops == [] then l else Do(DoAll(l, ops[..|ops| - 1]), ops[|ops| - 1])
  }

  /** No thread is put into the queue that is in it already. */
  ghost predicate Legal(l: Line, ops: seq<Op>)
  {
    forall i :: 0 <= i < |ops| && ops[i].Enq? ==> ops[i].t !in DoAll(l, ops[..i]).waiting
  }

  function Enqueued(ops: seq<Op>): seq<Thread>
  {
    if ops == [] then []
    else
      var last := ops[|ops| - 1];
      Enqueued(ops[..|ops| - 1]) + (if last.Enq? then [last.t] else [])
  }

  /** How many removals found their thread. */
  function Removals(l: Line, ops: seq<Op>): nat
  {
    if ops == [] then 0
    else
      var front, last := ops[..|ops| - 1], ops[|ops| - 1];
      Removals(l, front) + (if last.Rem? && last.t in DoAll(l, front).waiting then 1 else 0)
  }

  /** Where each thread that was served or still waits stands among those enqueued. */
  ghost predicate Order(ix: seq<nat>, line: seq<Thread>, all: seq<Thread>)
  {
    && |ix| == |line|
    && (forall i :: 0 <= i < |ix| ==> ix[i] < |all| && line[i] == all[ix[i]])
    && (forall i, j :: 0 <= i < j < |ix| ==> ix[i] < ix[j])
  }

  lemma OrderAppend(ix: seq<nat>, line: seq<Thread>, all: seq<Thread>, t: Thread)
    requires Order(ix, line, all)
    ensures Order(ix + [|all|], line + [t], all + [t])
  {
  }

  lemma OrderDrop(ix: seq<nat>, line: seq<Thread>, all: seq<Thread>, k: nat)
    requires Order(ix, line, all) && k < |line|
    ensures Order(ix[..k] + ix[k + 1..], line[..k] + line[k + 1..], all)
  {
  }

  function Whole(l: Line): seq<Thread>
  {
    l.served + l.waiting
  }

  lemma RemovalInLine(served: seq<Thread>, waiting: seq<Thread>, k: nat)
    requires k < |waiting|
    ensures served + (waiting[..k] + waiting[k + 1..])
         == (served + waiting)[..|served| + k] + (served + waiting)[|served| + k + 1..]
  {
  }

  /** One call changes the line of those served and waiting only at its end, or by the
      thread it removes. */
  lemma LineAfter(l: Line, op: Op)
    ensures var line, r := Whole(l), Whole(Do(l, op));
            match op
            case Enq(t) => r == line + [t]
            case Deq => r == line
            case Rem(t) =>
              var k := |l.served| + Find(l.waiting, t);
              if t in l.waiting then k < |line| && line[k] == t && r == line[..k] + line[k + 1..] else r == line
  {
    match op
    case Enq(t) => assert l.served + (l.waiting + [t]) == Whole(l) + [t];
    case Deq => if l.waiting != [] { assert (l.served + [l.waiting[0]]) + l.waiting[1..] == Whole(l); }
    case Rem(t) => if t in l.waiting { RemovalInLine(l.served, l.waiting, Find(l.waiting, t)); }
  }

  /** How one call carries the order on. */
  lemma OrderAfter(l: Line, op: Op, ix: seq<nat>, all: seq<Thread>) returns (ix': seq<nat>)
    requires Order(ix, Whole(l), all)
    ensures Order(ix', Whole(Do(l, op)), if op.Enq? then all + [op.t] else all)
    ensures |ix'| == |ix| + (if op.Enq? then 1 else 0) - (if op.Rem? && op.t in l.waiting then 1 else 0)
  {
    LineAfter(l, op);
    ix' := ix;
    if op.Enq? {
      OrderAppend(ix, Whole(l), all, op.t);
      ix' := ix + [|all|];
    } else if op.Rem? && op.t in l.waiting {
      var k := |l.served| + Find(l.waiting, op.t);
      OrderDrop(ix, Whole(l), all, k);
      ix' := ix[..k] + ix[k + 1..];
    }
  }

  /** The order of arrival is kept over every run: those served, in the order they were
      served, and then those still waiting are the threads enqueued, in that order, but
      for one less for each removal that found its thread. */
  lemma {:induction false} FirstInFirstOut(ops: seq<Op>) returns (ix: seq<nat>)
    ensures var l := DoAll(Line([], []), ops);
            && Order(ix, Whole(l), Enqueued(ops))
            && |Whole(l)| + Removals(Line([], []), ops) == |Enqueued(ops)|
  {
    ix := [];
    if ops != [] {
      var front, last := ops[..|ops| - 1], ops[|ops| - 1];
      ix := FirstInFirstOut(front);
      ix := OrderAfter(DoAll(Line([], []), front), last, ix, Enqueued(front));
    }
  }

  /** One call made on the queue itself; pool has all the threads there are. */
  method Call(q: Queue, op: Op, ghost pool: set<Thread>) returns (served: seq<Thread>)
    requires q.Valid() && (op.Enq? ==> op.t !in q.list)
    requires (op.Deq? || op.t in pool) && forall t :: t in q.list ==> t in pool
    modifies q, pool
    ensures q.Valid() && Do(Line(old(q.list), []), op) == Line(q.list, served)
    ensures forall t :: t in q.list ==> t in pool
  {
    served := [];
    match op {
      case Enq(t) =>
        q.Enqueue(t);
      case Deq =>
        var t := q.Dequeue();
        if t != null { served := [t]; }
      case Rem(t) =>
        var _ := q.Remove(t);
    }
  }

  /** The calls of a run. */
  method Perform(q: Queue, ops: seq<Op>, ghost pool: set<Thread>) returns (served: seq<Thread>)
    requires q.Valid() && Legal(Line(q.list, []), ops)
    requires forall t :: t in q.list ==> t in pool
    requires forall i :: 0 <= i < |ops| && !ops[i].Deq? ==> ops[i].t in pool
    modifies q, pool
    ensures q.Valid() && Line(q.list, served) == DoAll(Line(old(q.list), []), ops)
  {
    served := [];
    for i := 0 to |ops|
      invariant q.Valid() && forall t :: t in q.list ==> t in pool
      invariant Line(q.list, served) == DoAll(Line(old(q.list), []), ops[..i])
    {
      assert ops[..i + 1][..i] == ops[..i];
      var more := Call(q, ops[i], pool);
      served := served + more;
    }
    assert ops[..|ops|] == ops;
  }
}
