/** log.c as a state machine: any number of callers inside begin_op / log_write /
    end_op, the committing caller one disk write at a time, and crashes anywhere. */
module LogMachine {
  import opened Basics
  import opened Words
  import opened LogFormat

  /** One log_write of operation `op`. */
  datatype Write = Write(op: nat, block: nat, data: Block)

  /** A process as the log sees it. `Checked` is a log_write that has passed its
      unlocked size test and has not yet taken log.lock. */
  datatype Caller =
    | Outside
    | Waiting
    | Inside(op: nat, blocks: set<nat>, pending: Pending)

  datatype Pending = NoWrite | Checked(block: nat, data: Block)

  datatype Phase =
    | Running
    | CopyingLog(tail: nat)
    | Installing(tail: nat)
    | Finishing
    | Down
    | Recovering(tail: nat)
    | Panicked

  /** What became of an operation: `In(k)` belongs to the k-th group ever committed
      (or to the group being built, when k groups are committed so far). */
  datatype Fate = In(group: nat) | Lost

  datatype Op = Op(caller: nat, finished: bool, fate: Fate, writes: seq<Write>)

  /** `pinned` holds the B_DIRTY buffers. The last three fields are history. */
  datatype State = State(
    disk: Disk, pinned: Cache, lh: seq<nat>, outstanding: nat, committing: bool,
    phase: Phase, callers: seq<Caller>,
    committed: seq<seq<Write>>, current: seq<Write>, ops: seq<Op>)

  datatype Event =
    | Begin(p: nat)
    | Check(p: nat, block: nat, data: Block)
    | Locked(p: nat)
    | End(p: nat)
    | CopyBlock
    | CommitNothing
    | CommitHead
    | InstallBlock
    | EraseHead
    | Finish
    | Crash
    | ReadHead
    | RecoverBlock
    | RecoverErase

  // ---- steps ----

  predicate Admits(s: State) {
    !s.committing && |s.lh| + (s.outstanding + 1) * MAXOPBLOCKS <= LOGSIZE
  }

  /** The test at the top of log_write, made without holding log.lock. */
  predicate CheckPanics(g: Geometry, s: State) {
    |s.lh| >= LOGSIZE || |s.lh| >= g.size - 1 || s.outstanding < 1
  }

  function Wake(cs: seq<Caller>): (r: seq<Caller>)
    ensures |r| == |cs|
  {
    seq(|cs|, i requires 0 <= i < |cs| => if cs[i].Waiting? then Outside else cs[i])
  }

  /** Operations of the group being built die with the crash. */
  function Abort(ops: seq<Op>, group: nat): (r: seq<Op>)
    ensures |r| == |ops|
  {
    seq(|ops|, i requires 0 <= i < |ops| =>
      if ops[i].fate == In(group) then ops[i].(fate := Lost) else ops[i])
  }

  predicate Up(s: State) {
    s.phase.Running? || s.phase.CopyingLog? || s.phase.Installing? || s.phase.Finishing?
  }

  predicate CanBegin(s: State, p: nat) {
    Up(s) && p < |s.callers| && s.callers[p].Outside?
  }

  function BeginStep(s: State, p: nat): State
    requires CanBegin(s, p)
  {
    if Admits(s) then
      s.(outstanding := s.outstanding + 1,
         callers := s.callers[p := Inside(|s.ops|, {}, NoWrite)],
         ops := s.ops + [Op(p, false, In(|s.committed|), [])])
    else s.(callers := s.callers[p := Waiting])
  }

  /** An operation writes home blocks, at most MAXOPBLOCKS of them. */
  predicate CanCheck(g: Geometry, s: State, p: nat, b: nat, data: Block) {
    && Up(s) && p < |s.callers| && s.callers[p].Inside? && s.callers[p].pending.NoWrite?
    && s.callers[p].op < |s.ops| && Home(g, b) && |s.callers[p].blocks + {b}| <= MAXOPBLOCKS
  }

  function CheckStep(g: Geometry, s: State, p: nat, b: nat, data: Block): State
    requires CanCheck(g, s, p, b, data)
  {
    if CheckPanics(g, s) then s.(phase := Panicked)
    else s.(callers := s.callers[p := s.callers[p].(pending := Checked(b, data))])
  }

  predicate CanLock(s: State, p: nat) {
    && Up(s) && p < |s.callers| && s.callers[p].Inside? && s.callers[p].pending.Checked?
    && s.callers[p].op < |s.ops|
  }

  /** The rest of log_write, under log.lock: absorb or append, and pin. */
  function LockedStep(s: State, p: nat): State
    requires CanLock(s, p)
  {
    var c := s.callers[p];
    var w := Write(c.op, c.pending.block, c.pending.data);
    s.(lh := Absorb(s.lh, w.block),
       pinned := s.pinned[w.block := w.data],
       callers := s.callers[p := Inside(c.op, c.blocks + {w.block}, NoWrite)],
       current := s.current + [w],
       ops := s.ops[c.op := s.ops[c.op].(writes := s.ops[c.op].writes + [w])])
  }

  function Absorb(lh: seq<nat>, b: nat): seq<nat> {
    if b in lh then lh else lh + [b]
  }

  predicate CanEnd(s: State, p: nat) {
    && Up(s) && p < |s.callers| && s.callers[p].Inside? && s.callers[p].pending.NoWrite?
    && s.callers[p].op < |s.ops| && s.outstanding > 0
  }

  function EndStep(s: State, p: nat): State
    requires CanEnd(s, p)
  {
    var o := s.callers[p].op;
    var t := s.(outstanding := s.outstanding - 1,
                callers := s.callers[p := Outside],
                ops := s.ops[o := s.ops[o].(finished := true)]);
    if s.committing then t.(phase := Panicked)
    else if t.outstanding == 0 then t.(committing := true, phase := CopyingLog(0))
    else t.(callers := Wake(t.callers))
  }

  predicate CanCopy(g: Geometry, s: State) {
    && s.phase.CopyingLog? && s.phase.tail < |s.lh| && s.lh[s.phase.tail] in s.pinned
    && g.start + 1 + s.phase.tail < |s.disk|
  }

  function CopyStep(g: Geometry, s: State): State
    requires CanCopy(g, s)
  {
    var t := s.phase.tail;
    s.(disk := s.disk[g.start + 1 + t := s.pinned[s.lh[t]]], phase := CopyingLog(t + 1))
  }

  function CommitNothingStep(s: State): State {
    s.(phase := Finishing, committed := s.committed + [s.current], current := [])
  }

  ghost predicate CanCommitHead(g: Geometry, s: State) {
    s.phase == CopyingLog(|s.lh|) && s.lh != [] && DiskOk(g, s.disk) && HeaderOk(g, s.lh)
  }

  ghost function CommitHeadStep(g: Geometry, s: State): State
    requires CanCommitHead(g, s)
  {
    s.(disk := WriteHead(g, s.disk, s.lh), phase := Installing(0),
       committed := s.committed + [s.current], current := [])
  }

  predicate CanInstall(g: Geometry, s: State) {
    && s.phase.Installing? && s.phase.tail < |s.lh| && s.lh[s.phase.tail] < |s.disk|
    && g.start + 1 + s.phase.tail < |s.disk|
  }

  function InstallStep(g: Geometry, s: State): State
    requires CanInstall(g, s)
  {
    var t := s.phase.tail;
    s.(disk := s.disk[s.lh[t] := s.disk[g.start + 1 + t]],
       pinned := s.pinned - {s.lh[t]}, phase := Installing(t + 1))
  }

  ghost function EraseStep(g: Geometry, s: State): State
    requires DiskOk(g, s.disk)
  {
    s.(disk := WriteHead(g, s.disk, []), lh := [], phase := Finishing)
  }

  function FinishStep(s: State): State {
    s.(committing := false, phase := Running, callers := Wake(s.callers))
  }

  function CrashStep(s: State): State {
    State(s.disk, map[], [], 0, false, Down, seq(|s.callers|, i => Outside),
          s.committed, [], Abort(s.ops, |s.committed|))
  }

  ghost function ReadHeadStep(g: Geometry, s: State): State
    requires HeadOk(g, s.disk)
  {
    s.(lh := Header(g, s.disk), phase := Recovering(0))
  }

  predicate CanRecover(g: Geometry, s: State) {
    && s.phase.Recovering? && s.phase.tail < |s.lh| && s.lh[s.phase.tail] < |s.disk|
    && g.start + 1 + s.phase.tail < |s.disk|
  }

  function RecoverStep(g: Geometry, s: State): State
    requires CanRecover(g, s)
  {
    var t := s.phase.tail;
    s.(disk := s.disk[s.lh[t] := s.disk[g.start + 1 + t]], phase := Recovering(t + 1))
  }

  ghost function RecoverEraseStep(g: Geometry, s: State): State
    requires DiskOk(g, s.disk)
  {
    s.(disk := WriteHead(g, s.disk, []), lh := [], phase := Running)
  }

  ghost predicate Enabled(g: Geometry, s: State, e: Event) {
    match e
    case Begin(p) => CanBegin(s, p)
    case Check(p, b, data) => CanCheck(g, s, p, b, data)
    case Locked(p) => CanLock(s, p)
    case End(p) => CanEnd(s, p)
    case CopyBlock => CanCopy(g, s)
    case CommitNothing => s.phase == CopyingLog(0) && s.lh == []
    case CommitHead => CanCommitHead(g, s)
    case InstallBlock => CanInstall(g, s)
    case EraseHead => s.phase == Installing(|s.lh|) && DiskOk(g, s.disk)
    case Finish => s.phase.Finishing?
    case Crash => true
    case ReadHead => s.phase.Down? && HeadOk(g, s.disk)
    case RecoverBlock => CanRecover(g, s)
    case RecoverErase => s.phase == Recovering(|s.lh|) && DiskOk(g, s.disk)
  }

  ghost function Next(g: Geometry, s: State, e: Event): (r: State)
    requires Enabled(g, s, e)
  {
    match e
    case Begin(p) => BeginStep(s, p)
    case Check(p, b, data) => CheckStep(g, s, p, b, data)
    case Locked(p) => LockedStep(s, p)
    case End(p) => EndStep(s, p)
    case CopyBlock => CopyStep(g, s)
    case CommitNothing => CommitNothingStep(s)
    case CommitHead => CommitHeadStep(g, s)
    case InstallBlock => InstallStep(g, s)
    case EraseHead => EraseStep(g, s)
    case Finish => FinishStep(s)
    case Crash => CrashStep(s)
    case ReadHead => ReadHeadStep(g, s)
    case RecoverBlock => RecoverStep(g, s)
    case RecoverErase => RecoverEraseStep(g, s)
  }

  ghost function Exec(g: Geometry, s: State, es: seq<Event>): (r: Option<State>)
    decreases |es|
  {
    if es == [] then Some(s)
    else if Enabled(g, s, es[0]) then Exec(g, Next(g, s, es[0]), es[1..])
    else None
  }

  lemma {:induction false} ExecAppend(g: Geometry, s: State, es: seq<Event>, fs: seq<Event>)
    requires Exec(g, s, es).Some?
    ensures Exec(g, s, es + fs) == Exec(g, Exec(g, s, es).value, fs)
    decreases |es|
  {
    if es == [] {
      assert es + fs == fs;
    } else {
      assert (es + fs)[0] == es[0] && (es + fs)[1..] == es[1..] + fs;
      ExecAppend(g, Next(g, s, es[0]), es[1..], fs);
    }
  }

  lemma ExecSnoc(g: Geometry, s: State, es: seq<Event>, e: Event)
    requires Exec(g, s, es).Some? && Enabled(g, Exec(g, s, es).value, e)
    ensures Exec(g, s, es + [e]) == Some(Next(g, Exec(g, s, es).value, e))
  {
    ExecAppend(g, s, es, [e]);
    assert [e][1..] == [];
  }

  /** The blocks named by the log fit the log area in every state of the run. */
  ghost predicate Fits(g: Geometry, s: State, es: seq<Event>)
    decreases |es|
  {
    |s.lh| < g.size && (es != [] && Enabled(g, s, es[0]) ==> Fits(g, Next(g, s, es[0]), es[1..]))
  }

  /** The machine is switched on over a disk left by an earlier life. */
  ghost function Boot(d: Disk, n: nat): State {
    State(d, map[], [], 0, false, Down, seq(n, i => Outside), [], [], [])
  }

  // ---- what the history means ----

  function ApplyWrites(d: Disk, ws: seq<Write>): (r: Disk)
    ensures |r| == |d|
    decreases |ws|
  {
    if ws == [] then d else
      var r := ApplyWrites(d, ws[..|ws| - 1]);
      var w := ws[|ws| - 1];
      if w.block < |r| then r[w.block := w.data] else r
  }

  function ApplyGroups(d: Disk, gs: seq<seq<Write>>): (r: Disk)
    ensures |r| == |d|
    decreases |gs|
  {
    if gs == [] then d else ApplyWrites(ApplyGroups(d, gs[..|gs| - 1]), gs[|gs| - 1])
  }

  /** The writes of one operation, in order. */
  function Of(ws: seq<Write>, op: nat): (r: seq<Write>)
    decreases |ws|
  {
    if ws == [] then [] else
      var r := Of(ws[..|ws| - 1], op);
      if ws[|ws| - 1].op == op then r + [ws[|ws| - 1]] else r
  }

  lemma ApplyGroupsSnoc(d: Disk, gs: seq<seq<Write>>, ws: seq<Write>)
    ensures ApplyGroups(d, gs + [ws]) == ApplyWrites(ApplyGroups(d, gs), ws)
  {
    assert (gs + [ws])[..|gs|] == gs;
  }

  lemma ApplyWritesSnoc(d: Disk, ws: seq<Write>, w: Write)
    requires w.block < |d|
    ensures ApplyWrites(d, ws + [w]) == ApplyWrites(d, ws)[w.block := w.data]
  {
    assert (ws + [w])[..|ws|] == ws;
  }

  lemma OfSnoc(ws: seq<Write>, w: Write, op: nat)
    ensures Of(ws + [w], op) == if w.op == op then Of(ws, op) + [w] else Of(ws, op)
  {
    assert (ws + [w])[..|ws|] == ws;
  }

  // ---- sums over callers ----

  function Sum(f: Caller -> int, cs: seq<Caller>): int {
    if cs == [] then 0 else f(cs[0]) + Sum(f, cs[1..])
  }

  function One(c: Caller): int { if c.Inside? then 1 else 0 }

  /** Blocks an operation may still add. */
  function Budget(c: Caller): int { if c.Inside? then MAXOPBLOCKS - |c.blocks| else 0 }

  lemma {:induction false} SumUpdate(f: Caller -> int, cs: seq<Caller>, i: nat, c: Caller)
    requires i < |cs|
    ensures Sum(f, cs[i := c]) == Sum(f, cs) - f(cs[i]) + f(c)
  {
    if i == 0 {
      assert cs[0 := c][1..] == cs[1..];
    } else {
      assert cs[i := c][1..] == cs[1..][i - 1 := c];
      SumUpdate(f, cs[1..], i - 1, c);
    }
  }

  lemma {:induction false} SumAgree(f: Caller -> int, cs: seq<Caller>, ds: seq<Caller>)
    requires |cs| == |ds| && forall i | 0 <= i < |cs| :: f(cs[i]) == f(ds[i])
    ensures Sum(f, cs) == Sum(f, ds)
  {
    if cs != [] {
      SumAgree(f, cs[1..], ds[1..]);
    }
  }

  lemma {:induction false} SumAtLeast(f: Caller -> int, cs: seq<Caller>, p: nat)
    requires p < |cs| && forall i | 0 <= i < |cs| :: f(cs[i]) >= 0
    ensures f(cs[p]) <= Sum(f, cs)
    ensures Sum(f, cs) >= 0
  {
    if p > 0 {
      SumAtLeast(f, cs[1..], p - 1);
    } else {
      SumNonNegative(f, cs[1..]);
    }
  }

  lemma {:induction false} SumNonNegative(f: Caller -> int, cs: seq<Caller>)
    requires forall i | 0 <= i < |cs| :: f(cs[i]) >= 0
    ensures Sum(f, cs) >= 0
  {
    if cs != [] {
      SumNonNegative(f, cs[1..]);
    }
  }

  // ---- invariants ----

  /** Counting: who is inside, and that the log has room for all they may add. */
  ghost predicate BudgetInv(s: State) {
    && s.outstanding == Sum(One, s.callers)
    && (s.committing <==> s.phase.CopyingLog? || s.phase.Installing? || s.phase.Finishing?)
    && (s.committing ==> s.outstanding == 0)
    && (s.phase.Running? && s.outstanding == 0 ==> s.lh == [])
    && (s.phase.Down? || s.phase.Recovering? ==> s.outstanding == 0)
    && (s.phase.Finishing? ==> s.lh == [])
    && |s.lh| <= LOGSIZE && (Up(s) ==> |s.lh| + Sum(Budget, s.callers) <= LOGSIZE)
    && (forall p | 0 <= p < |s.callers| && s.callers[p].Inside? ::
          && |s.callers[p].blocks| <= MAXOPBLOCKS
          && (forall b | b in s.callers[p].blocks :: b in s.lh)
          && (s.callers[p].pending.Checked? ==>
                |s.callers[p].blocks + {s.callers[p].pending.block}| <= MAXOPBLOCKS))
    && (Up(s) ==> forall p | 0 <= p < |s.callers| && s.callers[p].Waiting? :: !Admits(s))
    && (s.phase.Down? || s.phase.Recovering? ==> forall p | 0 <= p < |s.callers| :: s.callers[p].Outside?)
  }

  /** Blocks logged, pinned and pending are home blocks of the right length. */
  ghost predicate BlocksInv(g: Geometry, s: State) {
    && Once(s.lh)
    && (forall i | 0 <= i < |s.lh| :: Home(g, s.lh[i]))
    && (forall p | 0 <= p < |s.callers| && s.callers[p].Inside? && s.callers[p].pending.Checked? ::
          Home(g, s.callers[p].pending.block))
  }

  /** What bread returns for a block: the pinned buffer if there is one. */
  function Logical(d: Disk, pinned: Cache, b: nat): Block
    requires b < |d|
  {
    if b in pinned then pinned[b] else d[b]
  }

  ghost predicate InTail(lh: seq<nat>, from: nat, b: nat) {
    exists i :: from <= i < |lh| && lh[i] == b
  }

  /** The pinned buffers are those of the logged blocks still to be installed. */
  ghost predicate PinnedInv(pinned: Cache, lh: seq<nat>, from: nat) {
    && from <= |lh|
    && (forall b | b in pinned :: InTail(lh, from, b))
    && (forall i | from <= i < |lh| :: lh[i] in pinned)
  }

  /** The cache over the disk shows the group being built on top of `base`. */
  ghost predicate LogicalInv(g: Geometry, base: Disk, d: Disk, pinned: Cache, current: seq<Write>) {
    && |d| == |base| == g.blocks
    && forall b {:trigger Home(g, b)} | Home(g, b) :: Logical(d, pinned, b) == ApplyWrites(base, current)[b]
  }

  ghost predicate CopiedInv(g: Geometry, d: Disk, pinned: Cache, lh: seq<nat>, t: nat) {
    && t <= |lh| && g.start + t < |d|
    && forall i | 0 <= i < t :: lh[i] in pinned && d[g.start + 1 + i] == pinned[lh[i]]
  }

  ghost predicate InstalledInv(g: Geometry, base: Disk, d: Disk, lh: seq<nat>, t: nat) {
    && Recoverable(g, d, base) && Header(g, d) == lh && t <= |lh|
    && forall i | 0 <= i < t :: d[lh[i]] == base[lh[i]]
  }

  ghost predicate ToInstallInv(g: Geometry, base: Disk, pinned: Cache, lh: seq<nat>, t: nat) {
    && PinnedInv(pinned, lh, t) && |base| == g.blocks
    && forall i | t <= i < |lh| :: lh[i] < g.blocks && pinned[lh[i]] == base[lh[i]]
  }

  /** Nothing committed is in the log; the cache holds the group being built. */
  ghost predicate BuildingInv(g: Geometry, base: Disk, d: Disk, pinned: Cache, lh: seq<nat>, current: seq<Write>) {
    && Recoverable(g, d, base) && Header(g, d) == []
    && PinnedInv(pinned, lh, 0) && LogicalInv(g, base, d, pinned, current)
  }

  ghost predicate ErasedInv(g: Geometry, base: Disk, d: Disk) {
    Recoverable(g, d, base) && Header(g, d) == []
  }

  /** The disk in each phase, against the disk `base` that all committed groups make. */
  ghost predicate DiskInv(g: Geometry, base: Disk, s: State) {
    && Recoverable(g, s.disk, base)
    && |s.lh| < g.size
    && (s.phase.Running? || s.phase.CopyingLog? ==>
          BuildingInv(g, base, s.disk, s.pinned, s.lh, s.current))
    && (s.phase.CopyingLog? ==> CopiedInv(g, s.disk, s.pinned, s.lh, s.phase.tail))
    && (s.phase.Installing? ==> ToInstallInv(g, base, s.pinned, s.lh, s.phase.tail))
    && (s.phase.Installing? || s.phase.Recovering? ==> InstalledInv(g, base, s.disk, s.lh, s.phase.tail))
    && (s.phase.Finishing? ==> ErasedInv(g, base, s.disk))
    && (s.phase.Down? ==> s.lh == [])
    && (s.phase.Finishing? || s.phase.Down? || s.phase.Recovering? ==> s.pinned == map[])
    && (s.phase.Finishing? || s.phase.Down? || s.phase.Recovering? || s.phase.Installing? ==> s.current == [])
  }

  /** An operation's writes, all of them and in order, are in the one group it
      belongs to; no other committed group has any. */
  ghost predicate OpAtomic(s: State, o: nat)
    requires o < |s.ops|
  {
    var op := s.ops[o];
    && (forall h | 0 <= h < |s.committed| && op.fate != In(h) :: Of(s.committed[h], o) == [])
    && (op.fate.In? && op.fate.group < |s.committed| ==>
          op.finished && Of(s.committed[op.fate.group], o) == op.writes)
  }

  ghost predicate OpsInv(s: State) {
    && (forall o | 0 <= o < |s.ops| :: OpAtomic(s, o))
    && (forall o | 0 <= o < |s.ops| && s.ops[o].fate.In? :: s.ops[o].fate.group <= |s.committed|)
    && (forall o | 0 <= o < |s.ops| :: s.ops[o].fate == In(|s.committed|) ==>
          && Of(s.current, o) == s.ops[o].writes
          && (!s.ops[o].finished && !s.phase.Panicked? ==>
                && s.ops[o].caller < |s.callers| && s.callers[s.ops[o].caller].Inside?
                && s.callers[s.ops[o].caller].op == o))
    && (forall o | 0 <= o < |s.ops| :: s.ops[o].fate != In(|s.committed|) ==> Of(s.current, o) == [])
    && (forall w | w in s.current :: w.op < |s.ops|)
    && (forall h | 0 <= h < |s.committed| :: forall w | w in s.committed[h] :: w.op < |s.ops|)
    && (forall p | 0 <= p < |s.callers| && s.callers[p].Inside? ::
          var o := s.callers[p].op;
          o < |s.ops| && !s.ops[o].finished && s.ops[o].fate == In(|s.committed|) && s.ops[o].caller == p)
  }

  ghost predicate Inv(g: Geometry, init: Disk, s: State) {
    && BudgetInv(s) && BlocksInv(g, s) && OpsInv(s)
    && DiskInv(g, ApplyGroups(init, s.committed), s)
  }
}
