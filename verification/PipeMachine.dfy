/** pipewrite, piperead and pipeclose on one pipe, by any number of processes, one turn
    of a loop at a time. */
module PipeMachine {
  import opened Basics
  import opened Words

  const PIPESIZE: nat := 512

  datatype Pc =
    | Idle
    | W(addr: seq<byte>, i: nat)        // in pipewrite's loop, holding p->lock
    | WSleep(addr: seq<byte>, i: nat)   // asleep on &p->nwrite
    | WWake(addr: seq<byte>, i: nat)    // awake, waiting for p->lock
    | R(n: nat)                         // at piperead's while, holding p->lock
    | RSleep(n: nat)                    // asleep on &p->nread
    | RWake(n: nat)
    | RCopy(n: nat, got: seq<byte>)     // in piperead's copy loop, holding p->lock

  /** written and taken: all the bytes ever put into and taken out of the pipe. */
  datatype State = State(lock: Option<nat>, data: Block, nread: nat, nwrite: nat, readopen: bool, writeopen: bool,
                         killed: seq<bool>, pcs: seq<Pc>, written: seq<byte>, taken: seq<byte>)

  datatype Event =
    | CallWrite(p: nat, addr: seq<byte>) | CallRead(p: nat, n: nat)
    | Step(p: nat)                      // the lock's holder goes on
    | Resume(p: nat)                    // a woken process takes the lock
    | Kill(p: nat)
    | Close(writable: bool)

  function Bump(x: nat): (r: nat)
    ensures r < WORD_LIMIT
  {
    (x + 1) % WORD_LIMIT
  }

  predicate Full(s: State) { s.nwrite == (s.nread + PIPESIZE) % WORD_LIMIT }
  predicate Empty(s: State) { s.nread == s.nwrite }

  predicate Writing(pc: Pc) { pc.W? || pc.WSleep? || pc.WWake? }
  predicate Reading(pc: Pc) { pc.R? || pc.RSleep? || pc.RWake? || pc.RCopy? }
  predicate Holding(pc: Pc) { pc.W? || pc.R? || pc.RCopy? }

  ghost predicate Shape(s: State) { |s.killed| == |s.pcs| }

  function Woken(pc: Pc, readers: bool): Pc {
    if readers && pc.RSleep? then RWake(pc.n)
    else if !readers && pc.WSleep? then WWake(pc.addr, pc.i)
    else pc
  }

  /** wakeup(&p->nread), or wakeup(&p->nwrite). */
  function Wakeup(pcs: seq<Pc>, readers: bool): (r: seq<Pc>)
    ensures |r| == |pcs| && forall q | 0 <= q < |pcs| :: r[q] == Woken(pcs[q], readers)
  {
    seq(|pcs|, q requires 0 <= q < |pcs| => Woken(pcs[q], readers))
  }

  /** A process has an end of the pipe open while it is in a call on it. */
  ghost predicate Enabled(s: State, e: Event) {
    Shape(s) &&
    match e
    case CallWrite(p, addr) => p < |s.pcs| && s.pcs[p].Idle? && s.lock.None? && s.writeopen
    case CallRead(p, n) => p < |s.pcs| && s.pcs[p].Idle? && s.lock.None? && s.readopen
    case Step(p) => p < |s.pcs| && s.lock == Some(p) && Holding(s.pcs[p])
    case Resume(p) => p < |s.pcs| && s.lock.None? && (s.pcs[p].WWake? || s.pcs[p].RWake?)
    case Kill(p) => p < |s.pcs|
    case Close(w) => s.lock.None? && forall q | 0 <= q < |s.pcs| ::
                       if w then !Writing(s.pcs[q]) else !Reading(s.pcs[q])
  }

  /** A turn of pipewrite's loop, with the test of its inner while. */
  function WriteStep(s: State, p: nat): State
    requires p < |s.pcs| == |s.killed| && s.pcs[p].W?
  {
    var pc := s.pcs[p];
    if pc.i >= |pc.addr| then
      s.(lock := None, pcs := Wakeup(s.pcs, true)[p := Idle])
    else if Full(s) then
      if !s.readopen || s.killed[p] then s.(lock := None, pcs := s.pcs[p := Idle])
      else s.(lock := None, pcs := Wakeup(s.pcs, true)[p := WSleep(pc.addr, pc.i)])
    else
      s.(data := s.data[s.nwrite % PIPESIZE := pc.addr[pc.i]], nwrite := Bump(s.nwrite),
         written := s.written + [pc.addr[pc.i]], pcs := s.pcs[p := W(pc.addr, pc.i + 1)])
  }

  function ReadStep(s: State, p: nat): State
    requires p < |s.pcs| == |s.killed| && (s.pcs[p].R? || s.pcs[p].RCopy?)
  {
    match s.pcs[p]
    case R(n) =>
      if Empty(s) && s.writeopen then
        if s.killed[p] then s.(lock := None, pcs := s.pcs[p := Idle])
        else s.(lock := None, pcs := s.pcs[p := RSleep(n)])
      else s.(pcs := s.pcs[p := RCopy(n, [])])
    case RCopy(n, got) =>
      if |got| < n && !Empty(s) then
        var c := s.data[s.nread % PIPESIZE];
        s.(nread := Bump(s.nread), taken := s.taken + [c], pcs := s.pcs[p := RCopy(n, got + [c])])
      else
        s.(lock := None, pcs := Wakeup(s.pcs, false)[p := Idle])
    case _ => s
  }

  /** kill wakes its target from any sleep. */
  function Roused(pc: Pc): Pc { Woken(Woken(pc, true), false) }

  ghost function Next(s: State, e: Event): (r: State)
    requires Enabled(s, e)
  {
    match e
    case CallWrite(p, addr) => s.(lock := Some(p), pcs := s.pcs[p := W(addr, 0)])
    case CallRead(p, n) => s.(lock := Some(p), pcs := s.pcs[p := R(n)])
    case Step(p) => if s.pcs[p].W? then WriteStep(s, p) else ReadStep(s, p)
    case Resume(p) => s.(lock := Some(p), pcs := s.pcs[p := if s.pcs[p].WWake? then W(s.pcs[p].addr, s.pcs[p].i)
                                                            else R(s.pcs[p].n)])
    case Kill(p) => s.(killed := s.killed[p := true], pcs := s.pcs[p := Roused(s.pcs[p])])
    case Close(w) => if w then s.(writeopen := false, pcs := Wakeup(s.pcs, true))
                     else s.(readopen := false, pcs := Wakeup(s.pcs, false))
  }

  ghost function Exec(s: State, es: seq<Event>): Option<State>
    decreases |es|
  {
    if es == [] then Some(s)
    else if !Enabled(s, es[0]) then None
    else Exec(Next(s, es[0]), es[1..])
  }

  /** pipealloc; what is in data does not matter. */
  ghost predicate Boot(s: State) {
    && Shape(s) && s.lock.None? && s.nread == 0 && s.nwrite == 0 && s.readopen && s.writeopen
    && s.written == [] && s.taken == [] && (forall p | 0 <= p < |s.pcs| :: s.pcs[p].Idle?)
  }

  // ---- the bytes ----

  /** The counters count modulo 2^32, and the ring holds what is written and not taken. */
  ghost predicate BytesInv(s: State) {
    && |s.taken| <= |s.written| <= |s.taken| + PIPESIZE
    && s.taken == s.written[..|s.taken|]
    && s.nwrite == |s.written| % WORD_LIMIT && s.nread == |s.taken| % WORD_LIMIT
    && (forall k {:trigger s.written[k]} | |s.taken| <= k < |s.written| :: s.data[k % PIPESIZE] == s.written[k])
  }

  /** The lock's holder is the one process in a locked section. */
  ghost predicate LockInv(s: State) {
    && Shape(s) && (s.lock.Some? ==> s.lock.value < |s.pcs|)
    && (forall p {:trigger s.pcs[p]} | 0 <= p < |s.pcs| :: Holding(s.pcs[p]) <==> s.lock == Some(p))
  }

  /** A reader in its copy loop has got the last bytes taken. */
  ghost predicate GotOk(taken: seq<byte>, pc: Pc) {
    pc.RCopy? ==> |pc.got| <= |taken| && pc.got == taken[|taken| - |pc.got|..]
  }

  ghost predicate GotInv(s: State) {
    forall p | 0 <= p < |s.pcs| :: GotOk(s.taken, s.pcs[p])
  }

  /** 2^32 is a multiple of the ring's size, so wrapped counters index it right. */
  lemma WrapIndex(k: nat)
    ensures (k % WORD_LIMIT) % PIPESIZE == k % PIPESIZE
    ensures Bump(k % WORD_LIMIT) == (k + 1) % WORD_LIMIT
  {
    var q, r := k / WORD_LIMIT, k % WORD_LIMIT;
    assert k == q * WORD_LIMIT + r == (q * (WORD_LIMIT / PIPESIZE)) * PIPESIZE + r;
    ModAdd(q * (WORD_LIMIT / PIPESIZE), r);
  }

  lemma ModAdd(a: nat, r: nat)
    ensures (a * PIPESIZE + r) % PIPESIZE == r % PIPESIZE
  {
  }

  /** Full and Empty say what they mean. */
  lemma Counters(s: State)
    requires BytesInv(s)
    ensures Full(s) <==> |s.written| == |s.taken| + PIPESIZE
    ensures Empty(s) <==> |s.written| == |s.taken|
  {
    var w, t := |s.written|, |s.taken|;
    assert w == (w / WORD_LIMIT) * WORD_LIMIT + w % WORD_LIMIT;
    assert t == (t / WORD_LIMIT) * WORD_LIMIT + t % WORD_LIMIT;
  }
}
