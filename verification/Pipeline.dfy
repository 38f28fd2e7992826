/** The transfer pipeline of HW12 as a transition system: one sender, the polling worker and any
    number of blocking readers. Without the mutex a step is one access to memory that others use; under
    it, a step may join accesses of which others can see only one. */
module Pipeline {
  import opened Streams
  import opened Ring

  /** The file, the ring size (`DUMMY_IO_BUFF_SIZE`), the mailbox size (`MEM_SIZE`), the number of
      reading processes, and whether the compiled `rp != wp` loads `rp` first: C leaves that open. */
  datatype Config = Config(file: seq<byte>, n: nat, m: nat, readers: nat, rpFirst: bool)

  /** Sender: line 119; `while (len)`; busy wait; byte `k` of the memcpy (and, when it is done, the
      update of len and buf); size register; flag register. */
  datatype SenderPc =
    | SStart
    | STest
    | SPoll
    | SCopy(count: nat, k: nat)
    | SSize(count: nat)
    | SFlag(count: nat)
    | SDone

  /** Worker: flag test; mutex; size register; space test; giving up; byte `i` of the copy (and,
      when it is done, the unlock); pointer wrap; wake-up; clearing the flag. */
  datatype WorkerPc =
    | WIdle
    | WLock
    | WSize
    | WCheck(size: nat)
    | WGiveUp
    | WStore(i: nat, size: nat)
    | WWrap(i: nat, size: nat)
    | WWake
    | WClear

  /** Reader. `WaitFast` to `Dequeue` are the parts of `wait_event_interruptible`: the test before
      queueing, queueing, the test after queueing, sleeping, leaving the queue. The tests hold no lock
      and load the two indices one after the other; the `Then` steps carry the one already loaded. */
  datatype ReaderPc =
    | Idle
    | WantLock(want: nat)
    | Test(want: nat)
    | EmptyUnlock(want: nat)
    | WaitFast(want: nat)
    | WaitFastThen(want: nat, loaded: nat)
    | Enqueue(want: nat)
    | WaitCheck(want: nat, signalled: bool)
    | WaitCheckThen(want: nat, signalled: bool, loaded: nat)
    | Asleep(want: nat)
    | Dequeue(want: nat)
    | CopyOut(want: nat, count: nat)
    | FaultUnlock
    | Advance(count: nat)
    | WrapRp
    | Unlock

  /** `queued`: on the wait queue and not woken since. */
  datatype Reader = Reader(pc: ReaderPc, queued: bool)

  datatype Lock = Free | ByWorker | ByReader(r: nat)

  datatype Taker = Taker(reader: nat, want: nat)

  /** `slices`, `takers`, `published` and `accepted` are history: the bytes handed to users in lock
      order, who took them, and the chunks that entered and left the mailbox. */
  datatype State = State(
    buf: seq<byte>, rp: nat, wp: nat, lock: Lock,
    mem: seq<byte>, size: nat, ready: bool,
    sender: SenderPc, pos: nat, worker: WorkerPc, readers: seq<Reader>,
    slices: seq<seq<byte>>, takers: seq<Taker>,
    published: seq<seq<byte>>, accepted: seq<seq<byte>>)

  datatype ReaderAct = Call(want: nat) | Go | Signal | CopyFault

  datatype Label = SenderGo | WorkerGo | WorkerInterrupted | ReaderDoes(r: nat, act: ReaderAct)

  predicate Init(c: Config, s: State) {
    && c.n > 0 && c.m > 0
    && |s.buf| == c.n && s.rp == 0 && s.wp == 0 && s.lock == Free
    && |s.mem| == c.m && !s.ready
    && s.sender == SStart && s.pos == 0 && s.worker == WIdle
    && |s.readers| == c.readers
    && (forall r | 0 <= r < |s.readers| :: s.readers[r] == Reader(Idle, false))
    && s.slices == [] && s.takers == [] && s.published == [] && s.accepted == []
  }

  /** The accesses of the next step of every process are inside their buffers. */
  predicate Typed(c: Config, s: State) {
    && c.n > 0 && c.m > 0
    && |s.buf| == c.n && |s.mem| == c.m && |s.readers| == c.readers
    && s.rp <= c.n && s.wp <= c.n && s.pos <= |c.file|
    && (s.sender.SCopy? ==> s.sender.k <= s.sender.count <= c.m && s.pos + s.sender.count <= |c.file|)
    && (s.sender.SFlag? ==> s.sender.count <= c.m)
    && (s.worker.WCheck? ==> s.rp < c.n && s.wp < c.n)
    && (s.worker.WStore? ==> s.worker.i <= s.worker.size <= c.m && s.wp < c.n)
    && (forall r | 0 <= r < |s.readers| :: ReaderTyped(c, s, s.readers[r].pc))
  }

  predicate ReaderTyped(c: Config, s: State, pc: ReaderPc) {
    && (pc.Test? ==> s.rp < c.n && s.wp < c.n)
    && (pc.CopyOut? ==> s.rp + pc.count <= |s.buf|)
    && (pc.Advance? ==> s.rp + pc.count <= c.n)
  }

  function SenderApply(c: Config, s: State): State
    requires Typed(c, s) && !s.sender.SDone?
  {
    match s.sender
    case SStart => s.(ready := false, sender := STest)
    case STest => s.(sender := if s.pos < |c.file| then SPoll else SDone)
    case SPoll => if s.ready then s else s.(sender := SCopy(Min(|c.file| - s.pos, c.m), 0))
    case SCopy(count, k) =>
      if k < count then s.(mem := s.mem[k := c.file[s.pos + k]], sender := SCopy(count, k + 1))
      else s.(pos := s.pos + count, sender := SSize(count))
    case SSize(count) => s.(size := count, sender := SFlag(count))
    case SFlag(count) =>
      s.(ready := true, sender := STest, published := s.published + [s.mem[..count]])
  }

  function WorkerApply(c: Config, s: State): State
    requires Typed(c, s)
  {
    match s.worker
    case WIdle => if s.ready then s.(worker := WLock) else s
    case WLock => s.(lock := ByWorker, worker := WSize)
    case WSize => s.(worker := WCheck(Min(s.size, c.m)))
    case WCheck(size) =>
      if Min(size, SpaceFree(c.n, s.rp, s.wp)) < size then s.(worker := WGiveUp)
      else s.(worker := WStore(0, size))
    case WGiveUp => s.(lock := Free, worker := WIdle)
    case WStore(i, size) =>
      if i < size then s.(buf := s.buf[s.wp := s.mem[i]], wp := s.wp + 1, worker := WWrap(i, size))
      else s.(lock := Free, worker := WWake, accepted := s.accepted + [s.mem[..size]])
    case WWrap(i, size) => s.(wp := Wrap(c.n, s.wp), worker := WStore(i + 1, size))
    case WWake => s.(readers := seq(|s.readers|, r requires 0 <= r < |s.readers| => s.readers[r].(queued := false)),
                     worker := WClear)
    case WClear => s.(ready := false, worker := WIdle)
  }

  function Move(s: State, r: nat, pc: ReaderPc): State
    requires r < |s.readers|
  {
    s.(readers := s.readers[r := s.readers[r].(pc := pc)])
  }

  function MoveQ(s: State, r: nat, pc: ReaderPc, queued: bool): State
    requires r < |s.readers|
  {
    s.(readers := s.readers[r := Reader(pc, queued)])
  }

  predicate ReaderEnabled(s: State, r: nat, act: ReaderAct)
    requires r < |s.readers|
  {
    var pc := s.readers[r].pc;
    match act
    case Call(_) => pc.Idle?
    case Signal => pc.WantLock? || pc.Enqueue? || pc.Asleep?
    case CopyFault => pc.CopyOut?
    case Go => !pc.Idle? && (pc.WantLock? ==> s.lock.Free?) && (pc.Asleep? ==> !s.readers[r].queued)
  }

  /** The indices in the order in which the wait condition loads them. */
  function First(c: Config, s: State): nat {
    if c.rpFirst then s.rp else s.wp
  }

  function Second(c: Config, s: State): nat {
    if c.rpFirst then s.wp else s.rp
  }

  function ReaderGo(c: Config, s: State, r: nat): State
    requires Typed(c, s) && r < |s.readers| && ReaderEnabled(s, r, Go)
  {
    match s.readers[r].pc
    case WantLock(w) => Move(s, r, Test(w)).(lock := ByReader(r))
    case Test(w) =>
      if s.rp == s.wp then Move(s, r, EmptyUnlock(w))
      else Move(s, r, CopyOut(w, ReadLen(c.n, s.rp, s.wp, w)))
    case EmptyUnlock(w) => Move(s, r, WaitFast(w)).(lock := Free)
    case WaitFast(w) => Move(s, r, WaitFastThen(w, First(c, s)))
    case WaitFastThen(w, loaded) => Move(s, r, if loaded != Second(c, s) then WantLock(w) else Enqueue(w))
    case Enqueue(w) => MoveQ(s, r, WaitCheck(w, false), true)
    case WaitCheck(w, signalled) => Move(s, r, WaitCheckThen(w, signalled, First(c, s)))
    case WaitCheckThen(w, signalled, loaded) =>
      Move(s, r, if loaded != Second(c, s) then Dequeue(w) else if signalled then Idle else Asleep(w))
    case Asleep(w) => Move(s, r, Enqueue(w))
    case Dequeue(w) => MoveQ(s, r, WantLock(w), false)
    case CopyOut(w, count) =>
      Move(s, r, Advance(count)).(slices := s.slices + [s.buf[s.rp..s.rp + count]],
                                  takers := s.takers + [Taker(r, w)])
    case FaultUnlock => Move(s, r, Idle).(lock := Free)
    case Advance(count) => Move(s, r, WrapRp).(rp := s.rp + count)
    case WrapRp => Move(s, r, Unlock).(rp := Wrap(c.n, s.rp))
    case Unlock => Move(s, r, Idle).(lock := Free)
  }

  function ReaderApply(c: Config, s: State, r: nat, act: ReaderAct): State
    requires Typed(c, s) && r < |s.readers| && ReaderEnabled(s, r, act)
  {
    match act
    case Call(want) => Move(s, r, WantLock(want))
    case CopyFault => Move(s, r, FaultUnlock)
    case Go => ReaderGo(c, s, r)
    case Signal =>
      var pc := s.readers[r].pc;
      if pc.WantLock? then Move(s, r, Idle)
      else if pc.Enqueue? then MoveQ(s, r, WaitCheck(pc.want, true), false)
      else Move(s, r, Enqueue(pc.want))
  }

  predicate Enabled(s: State, l: Label) {
    match l
    case SenderGo => !s.sender.SDone?
    case WorkerGo => s.worker.WLock? ==> s.lock.Free?
    case WorkerInterrupted => s.worker.WLock?
    case ReaderDoes(r, act) => r < |s.readers| && ReaderEnabled(s, r, act)
  }

  function Apply(c: Config, s: State, l: Label): State
    requires Typed(c, s) && Enabled(s, l)
  {
    match l
    case SenderGo => SenderApply(c, s)
    case WorkerGo => WorkerApply(c, s)
    case WorkerInterrupted => s.(worker := WIdle)
    case ReaderDoes(r, act) => ReaderApply(c, s, r, act)
  }

  /** `Typed` cuts no behaviour off: it holds in every reachable state (`PipelineSafety`). */
  predicate Next(c: Config, s: State, l: Label, s': State) {
    Typed(c, s) && Enabled(s, l) && s' == Apply(c, s, l)
  }

  /** `labels` leads from `s` to `t`. */
  ghost predicate Leads(c: Config, s: State, labels: seq<Label>, t: State)
    decreases |labels|
  {
    if labels == [] then s == t
    else Typed(c, s) && Enabled(s, labels[0]) && Leads(c, Apply(c, s, labels[0]), labels[1..], t)
  }

  ghost predicate Reachable(c: Config, t: State) {
    exists s, labels :: Init(c, s) && Leads(c, s, labels, t)
  }

  function Delivered(s: State): seq<byte> {
    Flatten(s.slices)
  }

  predicate Complete(c: Config, s: State) {
    Delivered(s) == c.file
  }
}
