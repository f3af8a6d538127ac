/** The driver of ide.c: the linked request queue, its walk in iderw, and ideintr. */
module Ide {
  import opened Basics
  import opened Words
  import opened IdeMachine

  /** The end of a list; buffers are numbered from 0. */
  const NULL: int := -1

  /** Element i of the queue, or the null that follows it. */
  function Link(q: seq<nat>, i: nat): int { if i < |q| then q[i] else NULL }

  class Driver {
    var disk: seq<Block>
    var bufs: seq<Buf>
    var idequeue: int
    /** qnext of each buffer. */
    var qnext: seq<int>
    var dev: Device
    ghost var queue: seq<nat>
    ghost var inside: seq<bool>
    ghost var issued: seq<nat>
    ghost var completed: seq<nat>

    /** The list from idequeue along qnext is the queue. */
    ghost predicate Linked()
      reads this
    {
      && |qnext| == |bufs| && idequeue == Link(queue, 0)
      && (forall i {:trigger queue[i]} | 0 <= i < |queue| ::
            queue[i] < |bufs| && qnext[queue[i]] == Link(queue, i + 1))
    }

    ghost function View(): State
      reads this
    {
      State(disk, bufs, queue, dev, inside, issued, completed)
    }

    /** iderw: the part before its sleep loop. */
    method Iderw(b: nat)
      requires Linked() && Inv(View()) && Enabled(View(), Call(b))
      modifies this
      ensures Linked() && View() == Next(old(View()), Call(b)) && Inv(View())
    {
      CallKeepsInv(View(), b, Next(View(), Call(b)));
      assert b !in queue;
      qnext := qnext[b := NULL];
      var at := LastQueued();
      Append(b, at);
      if idequeue == b {
        dev := Start(bufs, b);
      }
    }

    /** The walk to the end of the queue: pp is &idequeue when `at` is NULL, and &at->qnext
        otherwise. */
    method LastQueued() returns (at: int)
      requires Linked()
      ensures at == if queue == [] then NULL else queue[|queue| - 1]
    {
      at := NULL;
      var next := idequeue;
      ghost var i := 0;
      while next != NULL
        invariant i <= |queue| && next == Link(queue, i) && at == (if i == 0 then NULL else queue[i - 1])
        decreases |queue| - i
      {
        at := next;
        next := qnext[at];
        i := i + 1;
      }
    }

    /** *pp = b. */
    method Append(b: nat, at: int)
      requires Linked() && b < |bufs| && qnext[b] == NULL && b !in queue && Once(queue)
      requires |inside| == |bufs|
      requires at == if queue == [] then NULL else queue[|queue| - 1]
      modifies `idequeue, `qnext, `queue, `issued, `inside
      ensures Linked() && queue == old(queue) + [b] && issued == old(issued) + [b] && inside == old(inside)[b := true]
      ensures idequeue == b <==> old(queue) == []
    {
      OnceIff(queue);
      if at == NULL {
        idequeue := b;
      } else {
        qnext := qnext[at := b];
      }
      queue, issued, inside := queue + [b], issued + [b], inside[b := true];
    }

    /** ideintr, for the interrupt that ends the command in flight. */
    method Ideintr()
      requires Linked() && Inv(View()) && Enabled(View(), Interrupt)
      modifies this
      ensures Linked() && View() == Next(old(View()), Interrupt) && Inv(View())
    {
      InterruptKeepsInv(View(), Next(View(), Interrupt));
      if idequeue == NULL {
        return;
      }
      var b := idequeue;
      idequeue := qnext[b];
      queue, completed := queue[1..], completed + [b];
      var x := bufs[b];
      bufs := bufs[b := Buf(x.blockno, if !x.dirty then dev.latch else x.data, true, false)];
      if idequeue != NULL {
        dev := Start(bufs, idequeue);
      } else {
        dev := Rest;
      }
    }
  }
}
