/** The interrupt-driven disk driver, one interrupt per started command and no device
    errors, against the in-memory disk that does each request at once. */
module IdeMachine {
  import opened Basics
  import opened Words

  datatype Buf = Buf(blockno: nat, data: Block, valid: bool, dirty: bool)

  datatype Cmd = ReadCmd(blockno: nat) | WriteCmd(blockno: nat, bytes: Block)

  /** The controller: at rest, working on the command for buffer b, or done with it
      and about to interrupt, `latch` being what insl will read. */
  datatype Device = Rest | Busy(b: nat, cmd: Cmd) | Ready(b: nat, cmd: Cmd, latch: Block)

  /** inside[b]: some process is inside iderw with buffer b. issued and completed:
      the requests in the order they were queued and in the order they finished. */
  datatype State = State(disk: seq<Block>, bufs: seq<Buf>, queue: seq<nat>, dev: Device, inside: seq<bool>,
                         issued: seq<nat>, completed: seq<nat>)

  datatype Event =
    | Call(b: nat)              // iderw up to its sleep loop
    | Finish                    // the controller finishes the command
    | Interrupt                 // ideintr
    | Return(b: nat)            // iderw leaves its sleep loop
    | Change(b: nat, to: Buf)   // the holder of b's lock changes b, outside iderw

  predicate NothingToDo(x: Buf) { x.valid && !x.dirty }

  /** idestart: the command, with the data outsl sends for a write. */
  function Start(bufs: seq<Buf>, b: nat): Device
    requires b < |bufs|
  {
    Busy(b, if bufs[b].dirty then WriteCmd(bufs[b].blockno, bufs[b].data) else ReadCmd(bufs[b].blockno))
  }

  /** The caller of iderw holds b's lock and asks for something on the disk: the
      panics of iderw and idestart are this test failing. */
  ghost predicate Enabled(s: State, e: Event) {
    |s.inside| == |s.bufs| &&
    match e
    case Call(b) => b < |s.bufs| && !s.inside[b] && !NothingToDo(s.bufs[b]) && s.bufs[b].blockno < |s.disk|
                    && (s.queue == [] ==> s.dev.Rest?)
    case Finish => s.dev.Busy? && s.dev.cmd.blockno < |s.disk|
    case Interrupt => s.dev.Ready? && s.queue != [] && s.queue[0] < |s.bufs| && (|s.queue| > 1 ==> s.queue[1] < |s.bufs|)
    case Return(b) => b < |s.bufs| && s.inside[b] && NothingToDo(s.bufs[b])
    case Change(b, to) => b < |s.bufs| && !s.inside[b]
  }

  /** ideintr's update of the buffer it completes. */
  function Complete(x: Buf, latch: Block): Buf {
    Buf(x.blockno, if x.dirty then x.data else latch, true, false)
  }

  ghost function Next(s: State, e: Event): (r: State)
    requires Enabled(s, e)
  {
    match e
    case Call(b) =>
      s.(queue := s.queue + [b], issued := s.issued + [b], inside := s.inside[b := true],
         dev := if s.queue == [] then Start(s.bufs, b) else s.dev)
    case Finish =>
      var d := if s.dev.cmd.WriteCmd? then s.disk[s.dev.cmd.blockno := s.dev.cmd.bytes] else s.disk;
      s.(disk := d, dev := Ready(s.dev.b, s.dev.cmd, d[s.dev.cmd.blockno]))
    case Interrupt =>
      var b := s.queue[0];
      var bufs := s.bufs[b := Complete(s.bufs[b], s.dev.latch)];
      s.(bufs := bufs, queue := s.queue[1..], completed := s.completed + [b],
         dev := if |s.queue| > 1 then Start(bufs, s.queue[1]) else Rest)
    case Return(b) => s.(inside := s.inside[b := false])
    case Change(b, to) => s.(bufs := s.bufs[b := to])
  }

  ghost function Exec(s: State, es: seq<Event>): Option<State>
    decreases |es|
  {
    if es == [] then Some(s)
    else if !Enabled(s, es[0]) then None
    else Exec(Next(s, es[0]), es[1..])
  }

  ghost predicate Boot(s: State) {
    |s.inside| == |s.bufs| && (forall b | 0 <= b < |s.inside| :: !s.inside[b])
    && s.queue == [] && s.dev.Rest? && s.issued == [] && s.completed == []
  }

  // ---- the in-memory disk ----

  datatype Memory = Memory(disk: seq<Block>, bufs: seq<Buf>)

  datatype MemOp = Rw(b: nat) | Set(b: nat, to: Buf)

  /** memide's iderw, all at once; an operation its panics exclude does nothing. */
  function MemNext(m: Memory, o: MemOp): Memory {
    if o.b >= |m.bufs| then m else
    match o
    case Set(b, to) => m.(bufs := m.bufs[b := to])
    case Rw(b) =>
      var x := m.bufs[b];
      if NothingToDo(x) || x.blockno >= |m.disk| then m
      else if x.dirty then
        Memory(m.disk[x.blockno := x.data], m.bufs[b := Buf(x.blockno, x.data, true, false)])
      else
        Memory(m.disk, m.bufs[b := Buf(x.blockno, m.disk[x.blockno], true, false)])
  }

  function MemExec(m: Memory, os: seq<MemOp>): Memory
    decreases |os|
  {
    if os == [] then m else MemExec(MemNext(m, os[0]), os[1..])
  }

  // ---- the invariant ----

  ghost predicate QueueInv(s: State) {
    && |s.inside| == |s.bufs|
    && s.issued == s.completed + s.queue
    && (forall b | b in s.queue ::
          b < |s.bufs| && s.inside[b] && !NothingToDo(s.bufs[b]) && s.bufs[b].blockno < |s.disk|)
    && Once(s.queue)
    && (forall b {:trigger s.inside[b]} | 0 <= b < |s.bufs| && s.inside[b] && b !in s.queue :: NothingToDo(s.bufs[b]))
  }

  /** The device works on the head of the queue and on nothing else. */
  ghost predicate DeviceInv(s: State) {
    && (s.queue == [] <==> s.dev.Rest?)
    && (s.queue != [] ==>
          && s.queue[0] < |s.bufs| && s.dev.b == s.queue[0]
          && s.dev.cmd == Start(s.bufs, s.queue[0]).cmd
          && (s.dev.Ready? ==>
                s.dev.cmd.blockno < |s.disk| && s.dev.latch == s.disk[s.dev.cmd.blockno]
                && (s.dev.cmd.WriteCmd? ==> s.dev.latch == s.dev.cmd.bytes)))
  }

  ghost predicate Inv(s: State) { QueueInv(s) && DeviceInv(s) }

  lemma CallKeepsInv(s: State, b: nat, r: State)
    requires Inv(s) && Enabled(s, Call(b)) && r == Next(s, Call(b))
    ensures Inv(r)
  {
    assert b !in s.queue;
    OnceSnoc(s.queue, b);
    assert forall c :: c in r.queue <==> c in s.queue || c == b;
    assert r.issued == r.completed + r.queue;
  }

  lemma FinishKeepsInv(s: State, r: State)
    requires Inv(s) && Enabled(s, Finish) && r == Next(s, Finish)
    ensures Inv(r)
  {
  }

  lemma InterruptKeepsInv(s: State, r: State)
    requires Inv(s) && Enabled(s, Interrupt) && r == Next(s, Interrupt)
    ensures Inv(r)
  {
    var b := s.queue[0];
    assert s.queue == [b] + r.queue;
    assert forall c :: c in s.queue <==> c == b || c in r.queue;
    assert r.issued == r.completed + r.queue;
  }

  lemma ReturnKeepsInv(s: State, b: nat, r: State)
    requires Inv(s) && Enabled(s, Return(b)) && r == Next(s, Return(b))
    ensures Inv(r)
  {
    assert b !in s.queue;
  }

  lemma ChangeKeepsInv(s: State, b: nat, to: Buf, r: State)
    requires Inv(s) && Enabled(s, Change(b, to)) && r == Next(s, Change(b, to))
    ensures Inv(r)
  {
    assert b !in s.queue;
  }

  lemma StepKeepsInv(s: State, e: Event)
    requires Inv(s) && Enabled(s, e)
    ensures Inv(Next(s, e))
  {
    var r := Next(s, e);
    match e
    case Call(b) => CallKeepsInv(s, b, r);
    case Finish => FinishKeepsInv(s, r);
    case Interrupt => InterruptKeepsInv(s, r);
    case Return(b) => ReturnKeepsInv(s, b, r);
    case Change(b, to) => ChangeKeepsInv(s, b, to, r);
  }

  lemma {:induction false} RunKeepsInv(s: State, es: seq<Event>)
    requires Inv(s) && Exec(s, es).Some?
    ensures Inv(Exec(s, es).value)
    decreases |es|
  {
    if es != [] {
      StepKeepsInv(s, es[0]);
      RunKeepsInv(Next(s, es[0]), es[1..]);
    }
  }

  // ---- refinement ----

  /** The in-memory disk a state stands for: a request takes effect when the controller
      finishes it, although ideintr has not yet touched the buffer. */
  ghost function Abs(s: State): Memory {
    Memory(s.disk, if s.dev.Ready? && s.dev.b < |s.bufs|
                   then s.bufs[s.dev.b := Complete(s.bufs[s.dev.b], s.dev.latch)] else s.bufs)
  }

  /** The in-memory operations one event stands for. */
  ghost function Ops(s: State, e: Event): seq<MemOp>
    requires Enabled(s, e)
  {
    match e
    case Finish => [Rw(s.dev.b)]
    case Change(b, to) => [Set(b, to)]
    case _ => []
  }

  ghost function Trace(s: State, es: seq<Event>): seq<MemOp>
    requires Exec(s, es).Some?
    decreases |es|
  {
    if es == [] then [] else Ops(s, es[0]) + Trace(Next(s, es[0]), es[1..])
  }

  /** memide's iderw would not panic. */
  predicate MemLegal(m: Memory, b: nat) {
    b < |m.bufs| && !NothingToDo(m.bufs[b]) && m.bufs[b].blockno < |m.disk|
  }

  lemma StepRefines(s: State, e: Event)
    requires Inv(s) && Enabled(s, e)
    ensures Abs(Next(s, e)) == MemExec(Abs(s), Ops(s, e))
    ensures e.Finish? ==> MemLegal(Abs(s), s.dev.b)
  {
    var r := Next(s, e);
    match e
    case Call(b) =>
    case Finish =>
      assert MemExec(Abs(s), [Rw(s.dev.b)]) == MemNext(Abs(s), Rw(s.dev.b));
    case Interrupt =>
    case Return(b) =>
    case Change(b, to) =>
      assert b !in s.queue;
      assert MemExec(Abs(s), [Set(b, to)]) == MemNext(Abs(s), Set(b, to));
      assert s.dev.Ready? ==> s.dev.b != b;
      assert Abs(r).bufs == MemNext(Abs(s), Set(b, to)).bufs;
  }

  lemma {:induction false} MemExecTwo(m: Memory, os: seq<MemOp>, ps: seq<MemOp>)
    ensures MemExec(m, os + ps) == MemExec(MemExec(m, os), ps)
    decreases |os|
  {
    if os == [] {
      assert os + ps == ps;
    } else {
      assert (os + ps)[1..] == os[1..] + ps;
      MemExecTwo(MemNext(m, os[0]), os[1..], ps);
    }
  }

  /** Every run of the driver is, request by request, a run of the in-memory disk. */
  lemma {:induction false} RunRefines(s: State, es: seq<Event>)
    requires Inv(s) && Exec(s, es).Some?
    ensures Abs(Exec(s, es).value) == MemExec(Abs(s), Trace(s, es))
    decreases |es|
  {
    if es != [] {
      var r := Next(s, es[0]);
      StepRefines(s, es[0]);
      StepKeepsInv(s, es[0]);
      RunRefines(r, es[1..]);
      MemExecTwo(Abs(s), Ops(s, es[0]), Trace(r, es[1..]));
    }
  }

  // ---- order ----

  /** The requests that have taken effect, in order. */
  ghost function Effects(s: State): seq<nat> {
    s.completed + if s.dev.Ready? then [s.dev.b] else []
  }

  ghost function Rws(os: seq<MemOp>): seq<nat>
    decreases |os|
  {
    if os == [] then [] else (if os[0].Rw? then [os[0].b] else []) + Rws(os[1..])
  }

  lemma Assoc(a: seq<nat>, b: seq<nat>, c: seq<nat>)
    ensures a + (b + c) == a + b + c
  {
  }

  lemma {:induction false} RwsTwo(os: seq<MemOp>, ps: seq<MemOp>)
    ensures Rws(os + ps) == Rws(os) + Rws(ps)
    decreases |os|
  {
    if os == [] {
      assert os + ps == ps;
    } else {
      assert (os + ps)[1..] == os[1..] + ps && (os + ps)[0] == os[0];
      RwsTwo(os[1..], ps);
      Assoc(if os[0].Rw? then [os[0].b] else [], Rws(os[1..]), Rws(ps));
    }
  }

  lemma StepEffects(s: State, e: Event)
    requires Inv(s) && Enabled(s, e)
    ensures Effects(Next(s, e)) == Effects(s) + Rws(Ops(s, e))
  {
    assert Rws([]) == [];
    if e.Finish? || e.Change? {
      var o := if e.Finish? then Rw(s.dev.b) else Set(e.b, e.to);
      assert Ops(s, e) == [o] && [o][1..] == [];
    }
  }

  lemma {:induction false} RunEffects(s: State, es: seq<Event>)
    requires Inv(s) && Exec(s, es).Some?
    ensures Effects(Exec(s, es).value) == Effects(s) + Rws(Trace(s, es))
    decreases |es|
  {
    if es != [] {
      var r := Next(s, es[0]);
      StepEffects(s, es[0]);
      StepKeepsInv(s, es[0]);
      RunEffects(r, es[1..]);
      RwsTwo(Ops(s, es[0]), Trace(r, es[1..]));
      Assoc(Effects(s), Rws(Ops(s, es[0])), Rws(Trace(r, es[1..])));
    }
  }

  lemma EffectsPrefix(s: State)
    requires Inv(s)
    ensures Effects(s) <= s.issued
  {
    if s.queue != [] {
      assert s.queue == [s.queue[0]] + s.queue[1..];
      assert s.issued == (s.completed + [s.queue[0]]) + s.queue[1..];
    }
  }

  /** The driver over any run from boot. The disk and the buffers are what the
      in-memory disk has after the same requests one at a time; the requests that have
      taken effect are a prefix of those issued, in issue order, each once; only the
      head of the queue is in flight. */
  lemma DriverRefinesMemory(boot: State, es: seq<Event>, s: State)
    requires Boot(boot) && Exec(boot, es) == Some(s)
    ensures Abs(s) == MemExec(Memory(boot.disk, boot.bufs), Trace(boot, es))
    ensures Rws(Trace(boot, es)) == Effects(s) <= s.issued
    ensures s.dev.Rest? ==> Abs(s) == Memory(s.disk, s.bufs) && s.issued == s.completed
    ensures !s.dev.Rest? ==> s.queue != [] && s.dev.b == s.queue[0]
  {
    RunKeepsInv(boot, es);
    RunRefines(boot, es);
    RunEffects(boot, es);
    assert Effects(boot) == [];
    EffectsPrefix(s);
  }

  /** iderw returns only once its own request has taken effect. */
  lemma ReturnsWhenDone(boot: State, es: seq<Event>, s: State, b: nat)
    requires Boot(boot) && Exec(boot, es) == Some(s) && Enabled(s, Return(b))
    ensures multiset(Rws(Trace(boot, es)))[b] == multiset(s.issued)[b]
    ensures Abs(s).bufs[b] == s.bufs[b]
  {
    DriverRefinesMemory(boot, es, s);
    RunKeepsInv(boot, es);
    assert b !in s.queue;
    assert s.dev.Ready? ==> s.queue[0] in s.queue;
  }

  /** A request waiting in iderw is never forgotten: the driver can always go on. */
  lemma NeverStuck(boot: State, es: seq<Event>, s: State, b: nat) returns (e: Event)
    requires Boot(boot) && Exec(boot, es) == Some(s) && |s.inside| == |s.bufs| && b < |s.bufs| && s.inside[b]
    ensures Enabled(s, e) && (e.Finish? || e.Interrupt? || e == Return(b))
  {
    RunKeepsInv(boot, es);
    if b !in s.queue {
      e := Return(b);
    } else {
      assert s.queue[0] in s.queue && (|s.queue| > 1 ==> s.queue[1] in s.queue);
      e := if s.dev.Busy? then Finish else Interrupt;
    }
  }
}
