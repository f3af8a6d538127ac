/** What holds of a pipe over whole runs. */
module PipeProofs {
  import opened Basics
  import opened Words
  import opened PipeMachine

  // ---- bytes ----

  lemma InsertKeepsBytes(s: State, p: nat, r: State)
    requires BytesInv(s) && p < |s.pcs| == |s.killed| && s.pcs[p].W? && s.pcs[p].i < |s.pcs[p].addr| && !Full(s)
    requires r == WriteStep(s, p)
    ensures BytesInv(r)
  {
    Counters(s);
    WrapIndex(|s.written|);
    forall k | |s.taken| <= k < |s.written|
      ensures k % PIPESIZE != |s.written| % PIPESIZE
    {
      RingApart(k, |s.written|);
    }
  }

  lemma RingApart(j: nat, k: nat)
    requires j < k < j + PIPESIZE
    ensures j % PIPESIZE != k % PIPESIZE
  {
    assert j == j / PIPESIZE * PIPESIZE + j % PIPESIZE && k == k / PIPESIZE * PIPESIZE + k % PIPESIZE;
  }

  lemma TakeKeepsBytes(s: State, p: nat, r: State)
    requires BytesInv(s) && p < |s.pcs| == |s.killed| && s.pcs[p].RCopy? && |s.pcs[p].got| < s.pcs[p].n && !Empty(s)
    requires r == ReadStep(s, p)
    ensures BytesInv(r) && r.taken == s.taken + [s.written[|s.taken|]]
  {
    Counters(s);
    WrapIndex(|s.taken|);
    assert s.data[|s.taken| % PIPESIZE] == s.written[|s.taken|];
  }

  lemma StepKeepsBytes(s: State, e: Event, r: State)
    requires BytesInv(s) && Enabled(s, e) && r == Next(s, e)
    ensures BytesInv(r) && s.written <= r.written && s.taken <= r.taken
  {
    if e.Step? {
      var pc := s.pcs[e.p];
      if pc.W? && pc.i < |pc.addr| && !Full(s) {
        InsertKeepsBytes(s, e.p, r);
      } else if pc.RCopy? && |pc.got| < pc.n && !Empty(s) {
        TakeKeepsBytes(s, e.p, r);
      }
    }
  }

  // ---- the lock ----

  lemma WokenHolding(pc: Pc, readers: bool)
    ensures Holding(Woken(pc, readers)) == Holding(pc) && (Holding(pc) ==> Woken(pc, readers) == pc)
    ensures Reading(Woken(pc, readers)) == Reading(pc) && Writing(Woken(pc, readers)) == Writing(pc)
    ensures Woken(pc, readers).RSleep? <==> pc.RSleep? && !readers
    ensures Woken(pc, readers).WSleep? <==> pc.WSleep? && readers
  {
  }

  lemma StepHolding(s: State, e: Event, r: State, p: nat)
    requires LockInv(s) && Enabled(s, e) && r == Next(s, e) && p < |s.pcs|
    ensures |r.pcs| == |s.pcs| && (Holding(r.pcs[p]) <==> r.lock == Some(p))
  {
    WokenHolding(s.pcs[p], true);
    WokenHolding(s.pcs[p], false);
    WokenHolding(Woken(s.pcs[p], true), false);
  }

  lemma StepKeepsLock(s: State, e: Event, r: State)
    requires LockInv(s) && Enabled(s, e) && r == Next(s, e)
    ensures LockInv(r)
  {
    assert Shape(r) && |r.pcs| == |s.pcs|;
    forall p {:trigger r.pcs[p]} | 0 <= p < |r.pcs|
      ensures Holding(r.pcs[p]) <==> r.lock == Some(p)
    {
      StepHolding(s, e, r, p);
    }
  }

  lemma TakeGot(taken: seq<byte>, got: seq<byte>, c: byte)
    requires |got| <= |taken| && got == taken[|taken| - |got|..]
    ensures got + [c] == (taken + [c])[|taken| - |got|..]
  {
  }

  lemma StepGot(s: State, e: Event, r: State, p: nat)
    requires LockInv(s) && Enabled(s, e) && r == Next(s, e) && p < |s.pcs| == |r.pcs| && GotOk(s.taken, s.pcs[p])
    ensures GotOk(r.taken, r.pcs[p])
  {
    if e.Step? && s.pcs[e.p].RCopy? {
      CopyGot(s, e, r, p);
    } else {
      OtherGot(s, e, r, p);
    }
  }

  /** Only the process that holds the lock is copying. */
  lemma CopyGot(s: State, e: Event, r: State, p: nat)
    requires LockInv(s) && Enabled(s, e) && r == Next(s, e) && p < |s.pcs| == |r.pcs| && GotOk(s.taken, s.pcs[p])
    requires e.Step? && s.pcs[e.p].RCopy?
    ensures GotOk(r.taken, r.pcs[p])
  {
    if p == e.p {
      TakeGot(s.taken, s.pcs[p].got, s.data[s.nread % PIPESIZE]);
    } else {
      assert !s.pcs[p].RCopy? by {
        assert Holding(s.pcs[e.p]) && s.lock == Some(e.p);
      }
      assert r.pcs[p] == s.pcs[p] || r.pcs[p] == Woken(s.pcs[p], false);
    }
  }

  lemma OtherGot(s: State, e: Event, r: State, p: nat)
    requires Enabled(s, e) && r == Next(s, e) && p < |s.pcs| == |r.pcs| && !(e.Step? && s.pcs[e.p].RCopy?)
    ensures r.taken == s.taken && (r.pcs[p] == s.pcs[p] || !r.pcs[p].RCopy? || r.pcs[p].got == [])
  {
    WokenHolding(s.pcs[p], true);
    WokenHolding(s.pcs[p], false);
    WokenHolding(Woken(s.pcs[p], true), false);
  }

  lemma StepKeepsGot(s: State, e: Event, r: State)
    requires LockInv(s) && GotInv(s) && Enabled(s, e) && r == Next(s, e) && |r.pcs| == |s.pcs|
    ensures GotInv(r)
  {
    forall p | 0 <= p < |r.pcs|
      ensures GotOk(r.taken, r.pcs[p])
    {
      StepGot(s, e, r, p);
    }
  }

  // ---- sleepers ----

  /** No reader sleeps beside bytes, no writer beside room, but for the moment when the
      lock's holder has yet to wake them. */
  ghost predicate SleeperOk(s: State, q: int)
    requires 0 <= q < |s.pcs|
  {
    && (s.pcs[q].RSleep? ==> s.writeopen && (Empty(s) || HolderWrites(s)))
    && (s.pcs[q].WSleep? ==> s.readopen && (Full(s) || HolderCopies(s)))
    && (Reading(s.pcs[q]) ==> s.readopen) && (Writing(s.pcs[q]) ==> s.writeopen)
  }

  ghost predicate HolderWrites(s: State) { s.lock.Some? && s.lock.value < |s.pcs| && s.pcs[s.lock.value].W? }
  ghost predicate HolderCopies(s: State) { s.lock.Some? && s.lock.value < |s.pcs| && s.pcs[s.lock.value].RCopy? }

  ghost predicate SleepInv(s: State) {
    forall q {:trigger SleeperOk(s, q)} | 0 <= q < |s.pcs| :: SleeperOk(s, q)
  }

  /** pipewrite's return on a killed process: the one exit without wakeup(&p->nread). */
  ghost predicate KilledReturn(s: State, e: Event) {
    && e.Step? && e.p < |s.pcs| == |s.killed| && s.pcs[e.p].W? && s.pcs[e.p].i < |s.pcs[e.p].addr|
    && Full(s) && s.readopen && s.killed[e.p]
  }

  ghost predicate ReaderSleeps(s: State) { exists q :: 0 <= q < |s.pcs| && s.pcs[q].RSleep? }

  lemma WriteKeepsSleep(s: State, p: nat, r: State, q: nat)
    requires BytesInv(s) && LockInv(s) && SleepInv(s) && Enabled(s, Step(p)) && s.pcs[p].W? && r == WriteStep(s, p)
    requires q < |s.pcs| && !(KilledReturn(s, Step(p)) && s.pcs[q].RSleep?)
    ensures SleeperOk(r, q)
  {
    Counters(s);
    assert SleeperOk(s, q) && SleeperOk(s, p);
    WokenHolding(s.pcs[q], true);
  }

  lemma ReadKeepsSleep(s: State, p: nat, r: State, q: nat)
    requires BytesInv(s) && LockInv(s) && SleepInv(s) && Enabled(s, Step(p)) && !s.pcs[p].W? && r == ReadStep(s, p)
    requires q < |s.pcs|
    ensures SleeperOk(r, q)
  {
    Counters(s);
    assert SleeperOk(s, q) && SleeperOk(s, p);
    WokenHolding(s.pcs[q], false);
  }

  lemma OtherKeepsSleep(s: State, e: Event, r: State, q: nat)
    requires BytesInv(s) && LockInv(s) && SleepInv(s) && Enabled(s, e) && !e.Step? && r == Next(s, e)
    requires q < |s.pcs|
    ensures SleeperOk(r, q)
  {
    assert SleeperOk(s, q);
    WokenHolding(s.pcs[q], true);
    WokenHolding(s.pcs[q], false);
    WokenHolding(Woken(s.pcs[q], true), false);
    if !e.Close? {
      assert SleeperOk(s, e.p);
    }
  }

  /** A step keeps the sleepers right exactly when it is not a killed writer's return
      past a sleeping reader. */
  lemma StepKeepsSleepIff(s: State, e: Event)
    requires BytesInv(s) && LockInv(s) && SleepInv(s) && Enabled(s, e)
    ensures SleepInv(Next(s, e)) <==> !(KilledReturn(s, e) && ReaderSleeps(s))
  {
    var r := Next(s, e);
    if KilledReturn(s, e) && ReaderSleeps(s) {
      var q :| 0 <= q < |s.pcs| && s.pcs[q].RSleep?;
      Counters(s);
      assert q != e.p && !SleeperOk(r, q);
    } else {
      forall q | 0 <= q < |r.pcs|
        ensures SleeperOk(r, q)
      {
        if !e.Step? {
          OtherKeepsSleep(s, e, r, q);
        } else if s.pcs[e.p].W? {
          WriteKeepsSleep(s, e.p, r, q);
        } else {
          ReadKeepsSleep(s, e.p, r, q);
        }
      }
    }
  }

  // ---- runs ----

  ghost predicate Inv(s: State) { BytesInv(s) && LockInv(s) && GotInv(s) }

  lemma {:induction false} RunKeepsInv(s: State, es: seq<Event>)
    requires Inv(s) && Exec(s, es).Some?
    ensures Inv(Exec(s, es).value) && s.written <= Exec(s, es).value.written && s.taken <= Exec(s, es).value.taken
    decreases |es|
  {
    if es != [] {
      var r := Next(s, es[0]);
      StepKeepsBytes(s, es[0], r);
      StepKeepsLock(s, es[0], r);
      StepKeepsGot(s, es[0], r);
      RunKeepsInv(r, es[1..]);
    }
  }

  lemma BootInv(s: State)
    requires Boot(s)
    ensures Inv(s) && SleepInv(s)
  {
    forall q | 0 <= q < |s.pcs|
      ensures SleeperOk(s, q)
    {
    }
  }

  /** Over any run: bytes come out in the order they went in, none lost or made up,
      never more than PIPESIZE inside, although the counters wrap; and a read about to
      return has got exactly the bytes taken last. */
  lemma PipeIsFifo(boot: State, es: seq<Event>, s: State)
    requires Boot(boot) && Exec(boot, es) == Some(s)
    ensures s.taken <= s.written && |s.written| - |s.taken| <= PIPESIZE
    ensures Full(s) <==> |s.written| - |s.taken| == PIPESIZE
    ensures Empty(s) <==> s.taken == s.written
    ensures forall p | 0 <= p < |s.pcs| :: GotOk(s.taken, s.pcs[p])
  {
    BootInv(boot);
    RunKeepsInv(boot, es);
    Counters(s);
  }

  /** No event of the run is a killed writer's return past a sleeping reader. */
  ghost predicate Considerate(s: State, es: seq<Event>)
    requires Exec(s, es).Some?
    decreases |es|
  {
    es == [] || (!(KilledReturn(s, es[0]) && ReaderSleeps(s)) && Considerate(Next(s, es[0]), es[1..]))
  }

  lemma {:induction false} RunKeepsSleep(s: State, es: seq<Event>)
    requires Inv(s) && SleepInv(s) && Exec(s, es).Some? && Considerate(s, es)
    ensures SleepInv(Exec(s, es).value)
    decreases |es|
  {
    if es != [] {
      var r := Next(s, es[0]);
      StepKeepsSleepIff(s, es[0]);
      StepKeepsBytes(s, es[0], r);
      StepKeepsLock(s, es[0], r);
      StepKeepsGot(s, es[0], r);
      RunKeepsSleep(r, es[1..]);
    }
  }

  /** With the lock free, a sleeping writer means the pipe is full and open for
      reading, a sleeping reader that it is empty and open for writing. */
  lemma SleepersHaveCause(boot: State, es: seq<Event>, s: State, q: nat)
    requires Boot(boot) && Exec(boot, es) == Some(s) && Considerate(boot, es) && s.lock.None? && q < |s.pcs|
    ensures s.pcs[q].WSleep? ==> |s.written| - |s.taken| == PIPESIZE && s.readopen
    ensures s.pcs[q].RSleep? ==> s.written == s.taken && s.writeopen
  {
    BootInv(boot);
    RunKeepsInv(boot, es);
    RunKeepsSleep(boot, es);
    Counters(s);
    assert SleeperOk(s, q);
  }

  // ---- a run that is not considerate ----

  lemma {:induction false} ExecTwo(s: State, es: seq<Event>, fs: seq<Event>)
    requires Exec(s, es).Some?
    ensures Exec(s, es + fs) == Exec(Exec(s, es).value, fs)
    decreases |es|
  {
    if es == [] {
      assert es + fs == fs;
    } else {
      assert (es + fs)[1..] == es[1..] + fs;
      ExecTwo(Next(s, es[0]), es[1..], fs);
    }
  }

  /** A writer with room goes on to fill the pipe. */
  lemma {:induction false} FillUp(s: State, p: nat) returns (es: seq<Event>, r: State)
    requires Inv(s) && p < |s.pcs| && s.lock == Some(p) && s.pcs[p].W?
    requires |s.pcs[p].addr| - s.pcs[p].i > |s.taken| + PIPESIZE - |s.written|
    ensures Exec(s, es) == Some(r) && Full(r) && r.lock == Some(p)
    ensures |r.pcs| == |s.pcs| && r.pcs[p].W? && r.pcs[p].i < |r.pcs[p].addr|
    ensures forall q | 0 <= q < |s.pcs| && q != p :: r.pcs[q] == s.pcs[q]
    ensures r.killed == s.killed && r.readopen == s.readopen && Inv(r)
    decreases |s.taken| + PIPESIZE - |s.written|
  {
    Counters(s);
    if Full(s) {
      es, r := [], s;
    } else {
      var t := Next(s, Step(p));
      StepKeepsBytes(s, Step(p), t);
      StepKeepsLock(s, Step(p), t);
      StepKeepsGot(s, Step(p), t);
      var fs;
      fs, r := FillUp(t, p);
      es := [Step(p)] + fs;
      assert es[1..] == fs;
    }
  }

  /** A run and one more event. */
  lemma ExecSnoc(s: State, es: seq<Event>, t: State, e: Event)
    requires Exec(s, es) == Some(t) && Enabled(t, e)
    ensures Exec(s, es + [e]) == Some(Next(t, e))
  {
    ExecTwo(s, es, [e]);
    assert [e][1..] == [];
  }

  /** The promise fails without that condition: a reader sleeps, a killed writer fills
      the pipe and returns, and the reader is asleep with PIPESIZE bytes to read. */
  lemma KilledWriterStrandsReader(boot: State, addr: seq<byte>) returns (es: seq<Event>, s: State)
    requires Boot(boot) && |boot.pcs| == 2 && !boot.killed[0] && |addr| > PIPESIZE
    ensures Exec(boot, es) == Some(s) && s.lock.None? && |s.pcs| == 2 && s.pcs[0].RSleep?
    ensures |s.written| - |s.taken| == PIPESIZE
  {
    BootInv(boot);
    assert Exec(boot, []) == Some(boot);
    var a := Next(boot, CallRead(0, 1));
    ExecSnoc(boot, [], boot, CallRead(0, 1));
    var b := Next(a, Step(0));
    ExecSnoc(boot, [] + [CallRead(0, 1)], a, Step(0));
    var c := Next(b, Kill(1));
    ExecSnoc(boot, [] + [CallRead(0, 1)] + [Step(0)], b, Kill(1));
    var d := Next(c, CallWrite(1, addr));
    var fs := [] + [CallRead(0, 1)] + [Step(0)] + [Kill(1)];
    ExecSnoc(boot, fs, c, CallWrite(1, addr));
    fs := fs + [CallWrite(1, addr)];
    RunKeepsInv(boot, fs);
    var gs, r := FillUp(d, 1);
    ExecTwo(boot, fs, gs);
    ExecSnoc(boot, fs + gs, r, Step(1));
    es, s := fs + gs + [Step(1)], Next(r, Step(1));
    Counters(r);
    assert r.pcs[0] == d.pcs[0] == RSleep(1);
  }
}
