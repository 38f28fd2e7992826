/** When a transfer can finish: exactly when its first chunk fits into the ring. */
module PipelineProgress {
  import opened Streams
  import opened Ring
  import opened Pipeline
  import opened PipelineSafety
  import opened PipelineTheorems

  /** Every chunk is at most as long as the first one, and the first one fits into an empty ring. */
  predicate Fits(c: Config) {
    Min(|c.file|, c.m) <= c.n - 1
  }

  /** Bytes still to travel, weighted by how far: unsent, in the mailbox, in the ring. */
  function Weight(c: Config, s: State): (w: nat)
    requires Inv(c, s)
    ensures w == 0 ==> Complete(c, s)
  {
    AbstractByPosition(c, s);
    3 * (|c.file| - s.pos) + 2 * OwnedLen(s) + (Appended(s) - |Delivered(s)|)
  }

  /** The steps that move bytes: a chunk out of the file, a byte into the ring, a slice out of it. */
  predicate MovesBytes(s: State, l: Label)
    requires Enabled(s, l)
  {
    match l
    case SenderGo => s.sender.SCopy? && s.sender.k == s.sender.count
    case WorkerGo => s.worker.WStore? && s.worker.i < s.worker.size
    case WorkerInterrupted => false
    case ReaderDoes(r, act) => act.Go? && s.readers[r].pc.CopyOut? && s.readers[r].pc.count > 0
  }

  /** No step makes the weight grow, and it shrinks exactly on the steps that move bytes: no run
      moves bytes more than three times the length of the file. */
  lemma WeightNeverGrows(c: Config, s: State, l: Label)
    requires Reachable(c, s) && Typed(c, s) && Enabled(s, l)
    ensures Inv(c, s) && Inv(c, Apply(c, s, l))
    ensures Weight(c, Apply(c, s, l)) <= Weight(c, s)
    ensures Weight(c, Apply(c, s, l)) < Weight(c, s) <==> MovesBytes(s, l)
  {
    ReachableInv(c, s);
    StepKeeps(c, s, l);
    WeightStep(c, s, l);
  }

  lemma WeightStep(c: Config, s: State, l: Label)
    requires Inv(c, s) && Enabled(s, l) && Inv(c, Apply(c, s, l))
    ensures Weight(c, Apply(c, s, l)) <= Weight(c, s)
    ensures Weight(c, Apply(c, s, l)) < Weight(c, s) <==> MovesBytes(s, l)
  {
    match l
    case SenderGo => SenderCounters(c, s);
    case WorkerGo => WorkerCounters(c, s);
    case WorkerInterrupted =>
    case ReaderDoes(r, act) => ReaderCounters(c, s, r, act);
  }

  // From any reachable state some process has a step that helps.

  predicate ZeroCall(pc: ReaderPc) {
    match pc
    case WantLock(w) => w == 0
    case Test(w) => w == 0
    case EmptyUnlock(w) => w == 0
    case WaitFast(w) => w == 0
    case WaitFastThen(w, _) => w == 0
    case Enqueue(w) => w == 0
    case WaitCheck(w, _) => w == 0
    case WaitCheckThen(w, _, _) => w == 0
    case Asleep(w) => w == 0
    case Dequeue(w) => w == 0
    case CopyOut(w, _) => w == 0
    case _ => false
  }

  /** Whoever holds the mutex; else the worker if it owes a wake-up or the flag; else reader 0 if
      there is something to read; else the worker if a chunk is pending; else the sender. */
  function Helpful(c: Config, s: State): Label
    requires Inv(c, s) && c.readers > 0
  {
    match s.lock
    case ByReader(r) => ReaderDoes(r, Go)
    case ByWorker => WorkerGo
    case Free =>
      if s.worker.WWake? || s.worker.WClear? then WorkerGo
      else if s.rp != s.wp then ReaderDoes(0, if s.readers[0].pc.Idle? then Call(1) else Go)
      else if s.ready then WorkerGo
      else SenderGo
  }

  /** A queued reader is about to see the data; one off the queue (a loaded index may be old) may
      have to go through the wait loop once more. */
  function ReaderRank(c: Config, s: State, r: nat, reader: Reader): nat {
    var high := 30 + c.m;
    match reader.pc
    case WaitFast(_) => 17
    case WaitFastThen(_, _) => 16
    case WaitCheck(_, _) => if reader.queued then 8 else 15
    case WaitCheckThen(_, _, _) => if reader.queued then 7 else 14
    case Asleep(_) => 13
    case Enqueue(_) => 12
    case Idle => 10
    case Dequeue(_) => 6
    case WantLock(_) => 5
    case Test(w) => if s.rp == s.wp then high + 2 else if w > 0 || r == 0 then 2 else high + 5
    case CopyOut(w, count) => if w > 0 || r == 0 then 1 else high + 4
    case Advance(_) => high + 3
    case WrapRp => high + 2
    case Unlock => high + 1
    case EmptyUnlock(_) => high + 1
    case FaultUnlock => high + 1
  }

  function WorkerRank(c: Config, s: State): nat {
    var fits := Used(c.n, s.rp, s.wp) + s.size < c.n;
    match s.worker
    case WIdle => 12
    case WLock => 11
    case WSize => if fits then 10 else c.m + 33
    case WCheck(_) => if fits then 9 else c.m + 32
    case WGiveUp => c.m + 31
    case WStore(i, size) => if i < size then 1 else c.m + 23
    case WWrap(i, size) => if i + 1 < size then 2 else c.m + 24
    case WWake => c.m + 21
    case WClear => c.m + 20
  }

  function SenderRank(c: Config, s: State): nat {
    match s.sender
    case SFlag(_) => 13
    case SSize(_) => 14
    case SCopy(count, k) => if k <= count <= c.m then 15 + count - k else 0
    case SPoll => c.m + 16
    case STest => c.m + 17
    case SStart => c.m + 18
    case SDone => 0
  }

  /** A call that asks for nothing must be over before its reader counts. */
  function Zero(c: Config, pc: ReaderPc): nat {
    if ZeroCall(pc) then 40 + c.m else 0
  }

  /** How many helpful steps are still needed, at most, until bytes move. */
  function Rank(c: Config, s: State): nat
    requires Inv(c, s) && c.readers > 0
  {
    Zero(c, s.readers[0].pc) +
    match s.lock
    case ByReader(r) => ReaderRank(c, s, r, s.readers[r])
    case ByWorker => WorkerRank(c, s)
    case Free =>
      if s.worker.WWake? || s.worker.WClear? then WorkerRank(c, s)
      else if s.rp != s.wp then ReaderRank(c, s, 0, s.readers[0])
      else if s.ready then WorkerRank(c, s)
      else SenderRank(c, s)
  }

  predicate Helps(c: Config, s: State, l: Label)
    requires Inv(c, s) && c.readers > 0
  {
    && Enabled(s, l)
    && Inv(c, Apply(c, s, l))
    && (MovesBytes(s, l) || Rank(c, Apply(c, s, l)) < Rank(c, s))
  }

  /** Outside every critical section the worker is idle, before the mutex or past its copy, and the
      rank is moderate. */
  lemma FreeRankIsLow(c: Config, s: State)
    requires Inv(c, s) && c.readers > 0 && s.lock.Free?
    ensures var zero := Zero(c, s.readers[0].pc);
      && Rank(c, s) <= zero + c.m + 21
      && (!s.worker.WWake? && !s.worker.WClear? ==> Rank(c, s) <= zero + c.m + 18)
  {
  }

  predicate Releases(pc: ReaderPc) {
    pc.EmptyUnlock? || pc.FaultUnlock? || pc.Unlock?
  }

  lemma ReleaseFrame(c: Config, s: State, r: nat)
    requires Typed(c, s) && r < |s.readers| && Releases(s.readers[r].pc)
    ensures var t := ReaderGo(c, s, r);
      && t.lock.Free? && |t.readers| == |s.readers|
      && (forall q | 0 <= q < |s.readers| :: ZeroCall(t.readers[q].pc) == ZeroCall(s.readers[q].pc))
  {
  }

  lemma ReleasingRank(c: Config, s: State)
    requires Inv(c, s) && c.readers > 0 && s.lock.ByReader? && Releases(s.readers[s.lock.r].pc)
    ensures Rank(c, s) == Zero(c, s.readers[0].pc) + c.m + 31
  {
  }

  lemma ReleasingReaderHelps(c: Config, s: State)
    requires Inv(c, s) && c.readers > 0 && s.lock.ByReader? && Releases(s.readers[s.lock.r].pc)
    ensures Helps(c, s, ReaderDoes(s.lock.r, Go))
  {
    ReleasingRank(c, s);
    var r := s.lock.r;
    ReleaseFrame(c, s, r);
    ReaderKeeps(c, s, r, Go);
    var t := Apply(c, s, ReaderDoes(r, Go));
    FreeRankIsLow(c, t);
  }

  /** Inside the critical section, up to the unlock, the holder's rank drops unless it moves bytes. */
  lemma HolderComesCloser(c: Config, s: State, r: nat)
    requires Typed(c, s) && r < |s.readers| && s.lock == ByReader(r)
    requires var pc := s.readers[r].pc;
      ReaderOk(c, s, pc) && (pc.Test? || pc.CopyOut? || pc.Advance? || pc.WrapRp?)
    ensures var t := ReaderGo(c, s, r);
      var pc, pc' := s.readers[r].pc, t.readers[r].pc;
      && t.lock == s.lock && |t.readers| == |s.readers|
      && (r != 0 ==> t.readers[0] == s.readers[0])
      && ((pc.CopyOut? && pc.count > 0)
          || (r == 0 && ReaderRank(c, t, r, t.readers[r]) + Zero(c, pc') < ReaderRank(c, s, r, s.readers[r]) + Zero(c, pc))
          || (r != 0 && ReaderRank(c, t, r, t.readers[r]) < ReaderRank(c, s, r, s.readers[r])))
  {
  }

  lemma HoldingReaderHelps(c: Config, s: State)
    requires Inv(c, s) && c.readers > 0 && s.lock.ByReader?
    requires var pc := s.readers[s.lock.r].pc;
      pc.Test? || pc.CopyOut? || pc.Advance? || pc.WrapRp?
    ensures Helps(c, s, ReaderDoes(s.lock.r, Go))
  {
    var r := s.lock.r;
    assert ReaderOk(c, s, s.readers[r].pc);
    ReaderKeeps(c, s, r, Go);
    HolderComesCloser(c, s, r);
  }

  lemma HolderReaderHelps(c: Config, s: State)
    requires Inv(c, s) && c.readers > 0 && s.lock.ByReader?
    ensures Helps(c, s, ReaderDoes(s.lock.r, Go))
  {
    assert ReaderHolds(s.readers[s.lock.r].pc);
    var pc := s.readers[s.lock.r].pc;
    if Releases(pc) {
      ReleasingReaderHelps(c, s);
    } else {
      HoldingReaderHelps(c, s);
    }
  }

  lemma HoldingWorkerComesCloser(c: Config, s: State)
    requires Typed(c, s) && WorkerOk(c, s) && WorkerHolds(s.worker)
    requires s.ready && 0 < s.size <= c.m && s.rp < c.n && s.lock.ByWorker?
    requires MovesBytes(s, WorkerGo) || WorkerApply(c, s).lock == s.lock
    ensures var t := WorkerApply(c, s);
      && t.readers == s.readers
      && (MovesBytes(s, WorkerGo) || WorkerRank(c, t) < WorkerRank(c, s))
  {
    if s.worker.WCheck? {
      SpaceAccounting(s.buf, s.rp, s.wp);
    }
  }

  lemma HolderWorkerHelps(c: Config, s: State)
    requires Inv(c, s) && c.readers > 0 && s.lock.ByWorker?
    ensures Helps(c, s, WorkerGo)
  {
    var t := WorkerApply(c, s);
    WorkerKeeps(c, s);
    if t.lock.Free? {
      assert t.readers == s.readers && (s.worker.WGiveUp? || s.worker.WStore?);
      FreeRankIsLow(c, t);
    } else {
      HoldingWorkerComesCloser(c, s);
    }
  }

  lemma TailWorkerHelps(c: Config, s: State)
    requires Inv(c, s) && c.readers > 0 && s.lock.Free? && (s.worker.WWake? || s.worker.WClear?)
    ensures Helps(c, s, WorkerGo)
  {
    WorkerKeeps(c, s);
    FreeRankIsLow(c, WorkerApply(c, s));
  }

  /** With data in the ring every step of a reader outside its critical section brings it closer. */
  lemma ReaderComesCloser(c: Config, s: State, act: ReaderAct)
    requires Typed(c, s) && c.readers > 0 && s.rp != s.wp
    requires var pc := s.readers[0].pc;
      !ReaderHolds(pc) && ReaderEnabled(s, 0, act) && act == (if pc.Idle? then Call(1) else Go)
    requires s.readers[0].queued && s.readers[0].pc.WaitCheckThen? ==> s.readers[0].pc.loaded != Second(c, s)
    ensures var t := ReaderApply(c, s, 0, act);
      && t.rp == s.rp && t.wp == s.wp && t.worker == s.worker && t.ready == s.ready
      && (t.lock == s.lock || t.lock == ByReader(0))
      && ReaderRank(c, t, 0, t.readers[0]) < ReaderRank(c, s, 0, s.readers[0])
      && (ZeroCall(t.readers[0].pc) ==> ZeroCall(s.readers[0].pc))
  {
  }

  lemma FreeReaderHelps(c: Config, s: State)
    requires Inv(c, s) && c.readers > 0 && s.lock.Free? && !s.worker.WWake? && !s.worker.WClear?
    requires s.rp != s.wp
    ensures Helps(c, s, Helpful(c, s))
  {
    var reader := s.readers[0];
    assert !ReaderHolds(reader.pc);
    assert Restful(c, s, reader);
    assert reader.pc.Asleep? ==> !reader.queued;
    var act := if reader.pc.Idle? then Call(1) else Go;
    assert ReaderEnabled(s, 0, act);
    ReaderKeeps(c, s, 0, act);
    ReaderComesCloser(c, s, act);
    var t := ReaderApply(c, s, 0, act);
    assert Zero(c, t.readers[0].pc) <= Zero(c, s.readers[0].pc);
    assert Rank(c, t) == Zero(c, t.readers[0].pc) + ReaderRank(c, t, 0, t.readers[0]);
  }

  lemma FreeWorkerHelps(c: Config, s: State)
    requires Inv(c, s) && c.readers > 0 && Fits(c) && s.lock.Free? && !s.worker.WWake? && !s.worker.WClear?
    requires s.rp == s.wp && s.ready
    ensures Helps(c, s, WorkerGo)
  {
    WorkerKeeps(c, s);
    assert s.size < c.n;
  }

  /** With an empty ring and no chunk pending, the sender still has something to send. */
  lemma SenderHasWork(c: Config, s: State)
    requires Inv(c, s) && s.lock.Free? && s.rp == s.wp && !s.ready && !Complete(c, s)
    ensures Enabled(s, SenderGo) && (s.sender.STest? ==> s.pos < |c.file|)
  {
  }

  lemma SenderComesCloser(c: Config, s: State)
    requires Typed(c, s) && MailOk(c, s) && Enabled(s, SenderGo) && !s.ready && (s.sender.STest? ==> s.pos < |c.file|)
    ensures var t := SenderApply(c, s);
      && t.lock == s.lock && t.worker == s.worker && t.readers == s.readers && t.rp == s.rp && t.wp == s.wp
      && (MovesBytes(s, SenderGo) || s.sender.SFlag? || (!t.ready && SenderRank(c, t) < SenderRank(c, s)))
      && (s.sender.SFlag? ==> t.ready)
  {
  }

  lemma FreeSenderHelps(c: Config, s: State)
    requires Inv(c, s) && c.readers > 0 && s.lock.Free? && !s.worker.WWake? && !s.worker.WClear?
    requires s.rp == s.wp && !s.ready && !Complete(c, s)
    ensures Helps(c, s, SenderGo)
  {
    SenderHasWork(c, s);
    SenderKeeps(c, s);
    SenderComesCloser(c, s);
  }

  lemma SomethingHelps(c: Config, s: State)
    requires Inv(c, s) && c.readers > 0 && Fits(c) && !Complete(c, s)
    ensures Helps(c, s, Helpful(c, s))
  {
    if s.lock.ByReader? {
      HolderReaderHelps(c, s);
    } else if s.lock.ByWorker? {
      HolderWorkerHelps(c, s);
    } else if s.worker.WWake? || s.worker.WClear? {
      TailWorkerHelps(c, s);
    } else if s.rp != s.wp {
      FreeReaderHelps(c, s);
    } else if s.ready {
      FreeWorkerHelps(c, s);
    } else {
      FreeSenderHelps(c, s);
    }
  }

  /** From every state that can be reached, in whatever way the processes were interleaved and
      interrupted so far, the transfer can still be completed. */
  lemma {:induction false} CompletionStaysReachable(c: Config, s: State) returns (labels: seq<Label>, t: State)
    requires Inv(c, s) && c.readers > 0 && Fits(c)
    ensures Leads(c, s, labels, t) && Complete(c, t)
    decreases Weight(c, s), Rank(c, s)
  {
    if Complete(c, s) {
      return [], s;
    }
    SomethingHelps(c, s);
    var l := Helpful(c, s);
    var next := Apply(c, s, l);
    WeightStep(c, s, l);
    var rest, last := CompletionStaysReachable(c, next);
    assert ([l] + rest)[1..] == rest;
    return [l] + rest, last;
  }

  // A first chunk that does not fit blocks the pipe for good.

  /** Nothing has entered the ring, and the first chunk is unsent or pending. */
  predicate Blocked(c: Config, s: State) {
    Inv(c, s) && Appended(s) == 0 && (s.pos == 0 || s.pos == Min(|c.file|, c.m))
  }

  lemma BlockedStays(c: Config, s: State, l: Label)
    requires Blocked(c, s) && !Fits(c) && Enabled(s, l)
    ensures Blocked(c, Apply(c, s, l))
  {
    StepKeeps(c, s, l);
    match l
    case SenderGo => SenderCounters(c, s);
    case WorkerGo => WorkerCounters(c, s);
    case WorkerInterrupted =>
    case ReaderDoes(r, act) => ReaderCounters(c, s, r, act);
  }

  lemma {:induction false} BlockedForever(c: Config, s: State, labels: seq<Label>, t: State)
    requires Blocked(c, s) && !Fits(c) && Leads(c, s, labels, t)
    ensures Blocked(c, t)
    decreases |labels|
  {
    if labels != [] {
      BlockedStays(c, s, labels[0]);
      BlockedForever(c, Apply(c, s, labels[0]), labels[1..], t);
    }
  }

  /** If the first chunk does not fit, no reader ever gets a byte. */
  lemma NothingIsEverDelivered(c: Config, t: State)
    requires Reachable(c, t) && !Fits(c)
    ensures Delivered(t) == []
  {
    var s, labels :| Init(c, s) && Leads(c, s, labels, t);
    InitInv(c, s);
    BlockedForever(c, s, labels, t);
  }

  /** A pending chunk longer than `n - 1` is never accepted: whatever happens next, flag, data and
      size stay, and the ring's history does not grow. */
  lemma OversizedChunkStaysPending(c: Config, s: State, l: Label)
    requires Reachable(c, s) && s.ready && s.size > c.n - 1
    requires Typed(c, s) && Enabled(s, l)
    ensures var t := Apply(c, s, l);
      t.ready && t.size == s.size && t.mem == s.mem && t.accepted == s.accepted && Appended(t) == Appended(s)
  {
    ReachableInv(c, s);
    MailboxOwnership(c, s, l);
    assert !s.worker.WStore? && !s.worker.WWrap? && !s.worker.WWake? && !s.worker.WClear?;
    match l
    case SenderGo => SenderCounters(c, s);
    case WorkerGo => WorkerCounters(c, s);
    case WorkerInterrupted =>
    case ReaderDoes(r, act) => ReaderCounters(c, s, r, act); ReaderFrame(c, s, r, act);
  }

  lemma {:induction false} NobodyReads(c: Config, s: State, labels: seq<Label>, t: State)
    requires c.readers == 0 && s.slices == [] && Leads(c, s, labels, t)
    ensures t.slices == []
    decreases |labels|
  {
    if labels != [] {
      NobodyReads(c, Apply(c, s, labels[0]), labels[1..], t);
    }
  }

  /** Some interleaving delivers the whole file. */
  ghost predicate CanComplete(c: Config, s: State) {
    exists labels, t :: Leads(c, s, labels, t) && Complete(c, t)
  }

  /** The exact condition: a transfer can complete if and only if the file is empty, or somebody
      reads and the first chunk leaves one slot of the ring free. */
  lemma CompletesIff(c: Config, s: State)
    requires Init(c, s)
    ensures CanComplete(c, s) <==> c.file == [] || (c.readers > 0 && Fits(c))
  {
    InitInv(c, s);
    if c.file == [] {
      var none: seq<Label> := [];
      assert Complete(c, s) && Leads(c, s, none, s);
    } else if c.readers > 0 && Fits(c) {
      var labels, t := CompletionStaysReachable(c, s);
      assert Leads(c, s, labels, t) && Complete(c, t);
    } else {
      forall labels, t | Leads(c, s, labels, t)
        ensures !Complete(c, t)
      {
        if c.readers == 0 {
          NobodyReads(c, s, labels, t);
        } else {
          assert Reachable(c, t);
          NothingIsEverDelivered(c, t);
        }
      }
    }
  }

  const DUMMY_IO_BUFF_SIZE := 512
  const MEM_SIZE := 0x1000

  /** With the sizes of the repository a non-empty file can arrive if and only if it is shorter than
      the ring. */
  lemma RepositorySizes(c: Config, s: State)
    requires Init(c, s) && c.n == DUMMY_IO_BUFF_SIZE && c.m == MEM_SIZE && c.readers > 0
    ensures CanComplete(c, s) <==> |c.file| < 512
  {
    CompletesIff(c, s);
    assert Fits(c) <==> |c.file| < 512;
  }
}
