/**
 Cleanup handlers (uthread_clean.c) and how pthread_exit runs them: a stack of heap
 nodes in the thread record, popped and run until it is empty. A handler may push
 further handlers while it runs.
 */
module Cleanup {

  /** A handler and its argument, and the handlers it pushes when it runs, in order. */
  datatype Handler = Handler(id: int, pushes: seq<Handler>)

  /** How many handlers will run, those pushed on the way included. */
  function Size(h: Handler): nat
    decreases h
  {
    1 + SizeAll(h.pushes)
  }

  function SizeAll(hs: seq<Handler>): nat
    decreases hs
  {
    if hs == [] then 0 else Size(hs[0]) + SizeAll(hs[1..])
  }

  /** Pushed in order, the last is on top. */
  function PushAll(stack: seq<Handler>, hs: seq<Handler>): seq<Handler>
    decreases |hs|
  {
    if hs == [] then stack else PushAll([hs[0]] + stack, hs[1..])
  }

  lemma {:induction false} SizeAfterPushes(stack: seq<Handler>, hs: seq<Handler>)
    ensures SizeAll(PushAll(stack, hs)) == SizeAll(stack) + SizeAll(hs)
    decreases |hs|
  {
    if hs != [] {
      SizeAfterPushes([hs[0]] + stack, hs[1..]);
      assert ([hs[0]] + stack)[1..] == stack;
    }
  }

  lemma RunningShrinks(stack: seq<Handler>)
    requires stack != []
    ensures SizeAll(PushAll(stack[1..], stack[0].pushes)) == SizeAll(stack) - 1
  {
    SizeAfterPushes(stack[1..], stack[0].pushes);
    assert Size(stack[0]) == 1 + SizeAll(stack[0].pushes);
  }

  /** The handlers in the order pthread_exit runs them; stack has its top first. */
  function Drain(stack: seq<Handler>): seq<int>
    decreases SizeAll(stack)
  {
    if stack == [] then []
    else
      RunningShrinks(stack);
      [stack[0].id] + Drain(PushAll(stack[1..], stack[0].pushes))
  }

  lemma {:induction false} PushAllOnto(stack: seq<Handler>, below: seq<Handler>, hs: seq<Handler>)
    ensures PushAll(stack + below, hs) == PushAll(stack, hs) + below
    decreases |hs|
  {
    if hs != [] {
      assert [hs[0]] + (stack + below) == ([hs[0]] + stack) + below;
      PushAllOnto([hs[0]] + stack, below, hs[1..]);
    }
  }

  /** Last in, first out, for whatever is on the stack: all that is above runs, with all
      it pushes, before anything below. */
  lemma {:induction false} AboveRunsFirst(above: seq<Handler>, below: seq<Handler>)
    ensures Drain(above + below) == Drain(above) + Drain(below)
    decreases SizeAll(above)
  {
    if above == [] {
      assert above + below == below;
    } else {
      var rest, hs := above[1..], above[0].pushes;
      assert (above + below)[1..] == rest + below;
      PushAllOnto(rest, below, hs);
      RunningShrinks(above);
      AboveRunsFirst(PushAll(rest, hs), below);
    }
  }

  /** All the handlers there are in h, whatever the order. */
  ghost function Handlers(h: Handler): multiset<int>
    decreases h
  {
    multiset{h.id} + HandlersIn(h.pushes)
  }

  ghost function HandlersIn(hs: seq<Handler>): multiset<int>
    decreases hs
  {
    if hs == [] then multiset{} else Handlers(hs[0]) + HandlersIn(hs[1..])
  }

  lemma {:induction false} HandlersAfterPushes(stack: seq<Handler>, hs: seq<Handler>)
    ensures HandlersIn(PushAll(stack, hs)) == HandlersIn(stack) + HandlersIn(hs)
    decreases |hs|
  {
    if hs != [] {
      HandlersAfterPushes([hs[0]] + stack, hs[1..]);
      assert ([hs[0]] + stack)[1..] == stack;
    }
  }

  /** Every handler runs, pushed before or on the way, and each as often as it was
      pushed. */
  lemma {:induction false} EachRunsOnce(stack: seq<Handler>)
    ensures multiset(Drain(stack)) == HandlersIn(stack)
    decreases SizeAll(stack)
  {
    if stack != [] {
      var rest, h := stack[1..], stack[0];
      RunningShrinks(stack);
      EachRunsOnce(PushAll(rest, h.pushes));
      HandlersAfterPushes(rest, h.pushes);
      assert Handlers(h) == multiset{h.id} + HandlersIn(h.pushes);
    }
  }

  class Node {
    const handler: Handler
    const next: Node?

    constructor (handler: Handler, next: Node?)
      ensures this.handler == handler && this.next == next
    {
      this.handler, this.next := handler, next;
    }
  }

  /** The nodes from first on hold these handlers. */
  ghost predicate Holds(first: Node?, stack: seq<Handler>)
    decreases |stack|
  {
    if stack == [] then first == null
    else first != null && first.handler == stack[0] && Holds(first.next, stack[1..])
  }

  class Thread {
    var cleanup: Node?
    var ran: seq<int>              // the handlers run so far
    ghost var stack: seq<Handler>

    ghost predicate Valid()
      reads this
    {
      Holds(cleanup, stack)
    }

    constructor ()
      ensures Valid() && stack == [] && ran == []
    {
      cleanup, ran, stack := null, [], [];
    }

    /** pthread_cleanup_push. */
    method Push(h: Handler)
      requires Valid()
      modifies this
      ensures Valid() && stack == [h] + old(stack) && ran == old(ran)
    {
      cleanup := new Node(h, cleanup);
      stack := [h] + stack;
    }

    /** pthread_cleanup_pop. */
    method Pop(execute: bool)
      requires Valid()
      modifies this
      ensures Valid()
      ensures old(stack) == [] ==> stack == [] && ran == old(ran)
      ensures old(stack) != [] ==>
                var h, rest := old(stack)[0], old(stack)[1..];
                if execute then stack == PushAll(rest, h.pushes) && ran == old(ran) + [h.id]
                else stack == rest && ran == old(ran)
    {
      var top := cleanup;
      if top != null {
        cleanup := top.next;
        stack := stack[1..];
        if execute {
          Execute(top.handler);
        }
      }
    }

    /** A handler runs. */
    method Execute(h: Handler)
      requires Valid()
      modifies this
      ensures Valid() && stack == PushAll(old(stack), h.pushes) && ran == old(ran) + [h.id]
    {
      ran := ran + [h.id];
      var i := 0;
      while i < |h.pushes|
        invariant i <= |h.pushes| && Valid() && ran == old(ran) + [h.id]
        invariant PushAll(stack, h.pushes[i..]) == PushAll(old(stack), h.pushes)
      {
        Push(h.pushes[i]);
        i := i + 1;
      }
    }

    /** The loop of pthread_exit: it ends, with the stack empty, having run all handlers
        in the order of Drain. */
    method RunAll()
      requires Valid()
      modifies this
      ensures Valid() && stack == [] && cleanup == null
      ensures ran == old(ran) + Drain(old(stack))
    {
      while cleanup != null
        invariant Valid() && ran + Drain(stack) == old(ran) + Drain(old(stack))
        decreases SizeAll(stack)
      {
        RunningShrinks(stack);
        assert ran + Drain(stack) == ran + [stack[0].id] + Drain(PushAll(stack[1..], stack[0].pushes));
        Pop(true);
      }
    }
  }
}
