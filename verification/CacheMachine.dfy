/** bio.c as a state machine: any number of users getting, locking, changing, pinning,
    writing and releasing buffers, one critical section at a time. */
module CacheMachine {
  import opened Basics
  import opened Words

  datatype Key = Key(dev: nat, blockno: nat)

  datatype Buf = Buf(key: Key, valid: bool, dirty: bool, refcnt: nat, data: Block)

  /** One bread ... brelse episode. `modified` is a change not yet handed to log_write
      or bwrite. */
  datatype User =
    | Idle
    | Waiting(buf: nat)
    | Held(buf: nat, modified: bool)
    | Releasing(buf: nat)

  /** `order` is the list from head.next on, most recently used first. `logical` is
      history: the latest contents anyone gave each block. */
  datatype State = State(
    bufs: seq<Buf>, order: seq<nat>, users: seq<User>,
    disk: map<Key, Block>, logical: map<Key, Block>, panicked: bool)

  datatype Event =
    | Get(u: nat, key: Key)
    | Lock(u: nat)
    | Fill(u: nat)
    | Modify(u: nat, data: Block)
    | Pin(u: nat)
    | WriteBack(u: nat)
    | Unlock(u: nat)
    | Drop(u: nat)

  // ---- bget's two scans, and brelse's move to the front ----

  predicate InRange(bufs: seq<Buf>, order: seq<nat>) {
    forall i | 0 <= i < |order| :: order[i] < |bufs|
  }

  /** The first buffer of the list holding the block. */
  function Find(bufs: seq<Buf>, order: seq<nat>, key: Key): (r: Option<nat>)
    requires InRange(bufs, order)
    ensures r.Some? ==> r.value in order && r.value < |bufs| && bufs[r.value].key == key
    ensures r.None? ==> forall i | 0 <= i < |order| :: bufs[order[i]].key != key
  {
    if order == [] then None
    else if bufs[order[0]].key == key then Some(order[0])
    else Find(bufs, order[1..], key)
  }

  predicate Recyclable(b: Buf) { b.refcnt == 0 && !b.dirty }

  /** The last buffer of the list that nobody uses and the log has not pinned. */
  function Victim(bufs: seq<Buf>, order: seq<nat>): (r: Option<nat>)
    requires InRange(bufs, order)
    ensures r.Some? ==> r.value in order && r.value < |bufs| && Recyclable(bufs[r.value])
    ensures r.None? ==> forall i | 0 <= i < |order| :: !Recyclable(bufs[order[i]])
  {
    if order == [] then None
    else
      var n := |order| - 1;
      if Recyclable(bufs[order[n]]) then Some(order[n]) else Victim(bufs, order[..n])
  }

  function Without(order: seq<nat>, b: nat): (r: seq<nat>) {
    if order == [] then []
    else if order[0] == b then Without(order[1..], b)
    else [order[0]] + Without(order[1..], b)
  }

  function ToFront(order: seq<nat>, b: nat): seq<nat> { [b] + Without(order, b) }

  // ---- steps ----

  predicate CanGet(s: State, u: nat, key: Key) {
    u < |s.users| && s.users[u].Idle? && key.dev != 0 && key in s.disk && InRange(s.bufs, s.order)
  }

  /** The part of bget under bcache.lock. */
  function GetStep(s: State, u: nat, key: Key): State
    requires CanGet(s, u, key)
  {
    match Find(s.bufs, s.order, key)
    case Some(b) =>
      s.(bufs := s.bufs[b := s.bufs[b].(refcnt := s.bufs[b].refcnt + 1)],
         users := s.users[u := Waiting(b)])
    case None =>
      match Victim(s.bufs, s.order)
      case Some(b) =>
        s.(bufs := s.bufs[b := Buf(key, false, false, 1, s.bufs[b].data)],
           users := s.users[u := Waiting(b)])
      case None => s.(panicked := true)
  }

  predicate HasBuf(s: State, u: nat) {
    u < |s.users| && !s.users[u].Idle? && s.users[u].buf < |s.bufs|
  }

  /** acquiresleep on the buffer: nobody else holds it. */
  predicate CanLock(s: State, u: nat) {
    && HasBuf(s, u) && s.users[u].Waiting?
    && forall v | 0 <= v < |s.users| && s.users[v].Held? :: s.users[v].buf != s.users[u].buf
  }

  function LockStep(s: State, u: nat): State
    requires CanLock(s, u)
  {
    s.(users := s.users[u := Held(s.users[u].buf, false)])
  }

  predicate CanUse(s: State, u: nat) {
    HasBuf(s, u) && s.users[u].Held? && s.bufs[s.users[u].buf].key in s.disk
  }

  /** bread's iderw: B_VALID was clear, so the block is read in. */
  function FillStep(s: State, u: nat): State
    requires CanUse(s, u)
  {
    var b := s.users[u].buf;
    s.(bufs := s.bufs[b := s.bufs[b].(valid := true, data := s.disk[s.bufs[b].key])])
  }

  function ModifyStep(s: State, u: nat, data: Block): State
    requires CanUse(s, u)
  {
    var b := s.users[u].buf;
    s.(bufs := s.bufs[b := s.bufs[b].(data := data)],
       users := s.users[u := Held(b, true)],
       logical := s.logical[s.bufs[b].key := data])
  }

  /** log_write: B_DIRTY keeps the buffer in the cache. */
  function PinStep(s: State, u: nat): State
    requires CanUse(s, u)
  {
    var b := s.users[u].buf;
    s.(bufs := s.bufs[b := s.bufs[b].(dirty := true)], users := s.users[u := Held(b, false)])
  }

  /** bwrite: the block goes to disk and B_DIRTY is cleared. */
  function WriteBackStep(s: State, u: nat): State
    requires CanUse(s, u)
  {
    var b := s.users[u].buf;
    s.(bufs := s.bufs[b := s.bufs[b].(dirty := false, valid := true)],
       users := s.users[u := Held(b, false)],
       disk := s.disk[s.bufs[b].key := s.bufs[b].data])
  }

  /** The releasesleep of brelse. A user hands over its changes first. */
  predicate CanUnlock(s: State, u: nat) { HasBuf(s, u) && s.users[u].Held? && !s.users[u].modified }

  function UnlockStep(s: State, u: nat): State
    requires CanUnlock(s, u)
  {
    s.(users := s.users[u := Releasing(s.users[u].buf)])
  }

  predicate CanDrop(s: State, u: nat) {
    HasBuf(s, u) && s.users[u].Releasing? && s.bufs[s.users[u].buf].refcnt > 0
  }

  /** The part of brelse under bcache.lock. */
  function DropStep(s: State, u: nat): State
    requires CanDrop(s, u)
  {
    var b := s.users[u].buf;
    var n := s.bufs[b].refcnt - 1;
    s.(bufs := s.bufs[b := s.bufs[b].(refcnt := n)],
       users := s.users[u := Idle],
       order := if n == 0 then ToFront(s.order, b) else s.order)
  }

  predicate Enabled(s: State, e: Event) {
    && !s.panicked
    && match e
       case Get(u, key) => CanGet(s, u, key)
       case Lock(u) => CanLock(s, u)
       case Fill(u) => CanUse(s, u) && !s.bufs[s.users[u].buf].valid
       case Modify(u, data) => CanUse(s, u) && s.bufs[s.users[u].buf].valid
       case Pin(u) => CanUse(s, u) && s.bufs[s.users[u].buf].valid
       case WriteBack(u) => CanUse(s, u) && s.bufs[s.users[u].buf].valid
       case Unlock(u) => CanUnlock(s, u) && s.bufs[s.users[u].buf].valid
       case Drop(u) => CanDrop(s, u)
  }

  function Next(s: State, e: Event): State
    requires Enabled(s, e)
  {
    match e
    case Get(u, key) => GetStep(s, u, key)
    case Lock(u) => LockStep(s, u)
    case Fill(u) => FillStep(s, u)
    case Modify(u, data) => ModifyStep(s, u, data)
    case Pin(u) => PinStep(s, u)
    case WriteBack(u) => WriteBackStep(s, u)
    case Unlock(u) => UnlockStep(s, u)
    case Drop(u) => DropStep(s, u)
  }

  function Exec(s: State, es: seq<Event>): (r: Option<State>)
    decreases |es|
  {
    if es == [] then Some(s)
    else if Enabled(s, es[0]) then Exec(Next(s, es[0]), es[1..])
    else None
  }

  /** The order binit leaves: the last buffer linked in is at the front. */
  function InitialOrder(n: nat): (r: seq<nat>)
    ensures |r| == n
    ensures forall i | 0 <= i < n :: r[i] == n - 1 - i
  {
    if n == 0 then [] else [n - 1] + InitialOrder(n - 1)
  }

  /** After binit: all buffers zero, as static data is. */
  function Boot(nbuf: nat, users: nat, disk: map<Key, Block>): State {
    State(seq(nbuf, i => Buf(Key(0, 0), false, false, 0, ZeroBlock())),
          InitialOrder(nbuf), seq(users, i => Idle), disk, disk, false)
  }

  // ---- invariants ----

  function Uses(x: User, b: nat): nat { if !x.Idle? && x.buf == b then 1 else 0 }

  function Refs(users: seq<User>, b: nat): nat {
    if users == [] then 0 else Uses(users[0], b) + Refs(users[1..], b)
  }

  /** The list holds every buffer exactly once. */
  ghost predicate Ring(s: State) {
    && |s.order| == |s.bufs| && InRange(s.bufs, s.order)
    && forall b | 0 <= b < |s.bufs| :: multiset(s.order)[b] == 1
  }

  ghost predicate Unique(bufs: seq<Buf>) {
    forall i, j | 0 <= i < |bufs| && 0 <= j < |bufs| && bufs[i].key.dev != 0 && bufs[i].key == bufs[j].key :: i == j
  }

  ghost predicate RefsInv(s: State) {
    && (forall b | 0 <= b < |s.bufs| :: s.bufs[b].refcnt == Refs(s.users, b))
    && (forall u | 0 <= u < |s.users| && !s.users[u].Idle? ::
          s.users[u].buf < |s.bufs| && s.bufs[s.users[u].buf].key.dev != 0)
    && (forall u, v | 0 <= u < |s.users| && 0 <= v < |s.users| && s.users[u].Held? && s.users[v].Held?
                      && s.users[u].buf == s.users[v].buf :: u == v)
  }

  ghost predicate Clean(s: State, b: nat)
    requires b < |s.bufs|
  {
    !s.bufs[b].dirty && forall u | 0 <= u < |s.users| :: s.users[u] != Held(b, true)
  }

  /** Valid buffers show the latest contents, clean ones agree with the disk, and a
      block nobody caches is on the disk as it should be. */
  ghost predicate DataInv(s: State) {
    && s.disk.Keys == s.logical.Keys
    && (forall b | 0 <= b < |s.bufs| && s.bufs[b].key.dev != 0 :: s.bufs[b].key in s.disk)
    && (forall b | 0 <= b < |s.bufs| && s.bufs[b].key.dev != 0 && s.bufs[b].valid ::
          s.bufs[b].data == s.logical[s.bufs[b].key])
    && (forall b | 0 <= b < |s.bufs| && s.bufs[b].key.dev != 0 && Clean(s, b) ::
          s.disk[s.bufs[b].key] == s.logical[s.bufs[b].key])
    && (forall b | 0 <= b < |s.bufs| && s.bufs[b].dirty :: s.bufs[b].valid && s.bufs[b].key.dev != 0)
    && (forall u | 0 <= u < |s.users| && s.users[u].Held? && s.users[u].modified && s.users[u].buf < |s.bufs| ::
          s.bufs[s.users[u].buf].valid)
    && (forall k | k in s.disk && k.dev != 0 && Uncached(s, k) :: s.disk[k] == s.logical[k])
  }

  ghost predicate Uncached(s: State, k: Key) {
    forall b | 0 <= b < |s.bufs| :: s.bufs[b].key != k
  }

  ghost predicate Inv(s: State) {
    Ring(s) && Unique(s.bufs) && RefsInv(s) && DataInv(s)
  }
}
