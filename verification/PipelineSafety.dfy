/** What every reachable state of the transfer pipeline satisfies. */
module PipelineSafety {
  import opened Streams
  import opened Ring
  import opened Sender
  import opened Pipeline

  predicate WorkerHolds(pc: WorkerPc) {
    pc.WSize? || pc.WCheck? || pc.WGiveUp? || pc.WStore? || pc.WWrap?
  }

  predicate ReaderHolds(pc: ReaderPc) {
    pc.Test? || pc.EmptyUnlock? || pc.CopyOut? || pc.FaultUnlock? || pc.Advance? || pc.WrapRp? || pc.Unlock?
  }

  predicate Unsignalled(pc: ReaderPc) {
    pc.WaitCheck? || pc.WaitCheckThen? ==> !pc.signalled
  }

  /** The worker has begun to copy a chunk and has not yet executed the wake-up behind it. */
  predicate WakePending(pc: WorkerPc) {
    pc.WStore? || pc.WWrap? || pc.WWake?
  }

  /** The mutex is held by exactly the process whose program counter is in its critical section. */
  predicate LockOk(c: Config, s: State) {
    && (s.lock.ByWorker? <==> WorkerHolds(s.worker))
    && (s.lock.ByReader? ==> s.lock.r < |s.readers|)
    && (forall r | 0 <= r < |s.readers| :: ReaderHolds(s.readers[r].pc) <==> s.lock == ByReader(r))
  }

  /** An index stands at the end of the buffer only between an increment and its wrap, and one slot
      of the ring stays free. */
  predicate IndexOk(c: Config, s: State)
    requires Typed(c, s)
  {
    && (s.wp == c.n ==> s.worker.WWrap?)
    && (s.rp == c.n ==> s.lock.ByReader? && s.lock.r < |s.readers| && s.readers[s.lock.r].pc.WrapRp?)
    && Used(c.n, s.rp, s.wp) < c.n
  }

  predicate ReaderOk(c: Config, s: State, pc: ReaderPc) {
    && (pc.CopyOut? ==> s.rp < c.n && s.wp < c.n && s.rp != s.wp && pc.count == ReadLen(c.n, s.rp, s.wp, pc.want))
    && (pc.Advance? ==> s.rp < c.n && s.wp < c.n && s.rp != s.wp && pc.count <= Run(c.n, s.rp, s.wp))
  }

  predicate ReadersOk(c: Config, s: State) {
    forall r | 0 <= r < |s.readers| :: ReaderOk(c, s, s.readers[r].pc)
  }

  /** Past the flag test the flag stays set, and a chunk is copied only if it fits. */
  predicate WorkerOk(c: Config, s: State) {
    && (!s.worker.WIdle? ==> s.ready)
    && (s.worker.WCheck? ==> s.worker.size == s.size)
    && (s.worker.WStore? ==> s.worker.i <= s.worker.size == s.size < c.n
                             && Used(c.n, s.rp, s.wp) + s.worker.size - s.worker.i < c.n)
    && (s.worker.WWrap? ==> s.worker.i < s.worker.size == s.size < c.n
                            && Used(c.n, s.rp, s.wp) + s.worker.size - s.worker.i - 1 < c.n)
    && (s.worker.WWake? || s.worker.WClear? ==> s.size < c.n)
  }

  /** A chunk being prepared is the next piece of the file; a published one is the last piece taken
      off it. */
  predicate MailOk(c: Config, s: State)
    requires Typed(c, s)
  {
    && (s.ready ==> 0 < s.size <= c.m && s.size <= s.pos && s.mem[..s.size] == c.file[s.pos - s.size..s.pos]
                    && (s.sender.STest? || s.sender.SPoll? || s.sender.SDone?))
    && (s.sender.SPoll? ==> s.pos < |c.file|)
    && (s.sender.SDone? ==> s.pos == |c.file|)
    && (s.sender.SCopy? ==> s.pos < |c.file| && s.sender.count == Min(|c.file| - s.pos, c.m)
                            && s.mem[..s.sender.k] == c.file[s.pos..s.pos + s.sender.k])
    && (s.sender.SSize? || s.sender.SFlag? ==>
          0 < s.sender.count <= c.m && s.sender.count <= s.pos
          && s.mem[..s.sender.count] == c.file[s.pos - s.sender.count..s.pos]
          && s.sender.count == Min(|c.file| - (s.pos - s.sender.count), c.m))
    && (s.sender.SFlag? ==> s.size == s.sender.count)
  }

  /** Bytes of the current chunk that have left the sender's buffer but not reached the ring. */
  function OwnedLen(s: State): int {
    if s.sender.SSize? || s.sender.SFlag? then s.sender.count
    else if !s.ready then 0
    else match s.worker
      case WStore(i, size) => size - i
      case WWrap(i, size) => size - i - 1
      case WWake => 0
      case WClear => 0
      case _ => s.size
  }

  /** Bytes appended to the ring since the start. */
  function Appended(s: State): int {
    s.pos - OwnedLen(s)
  }

  /** Bytes handed to a user whose removal from the ring is still to come. */
  function InFlight(s: State): nat {
    if s.lock.ByReader? && s.lock.r < |s.readers| && s.readers[s.lock.r].pc.Advance?
    then s.readers[s.lock.r].pc.count else 0
  }

  /** Delivered bytes and ring contents together are the part of the file appended so far. */
  predicate StreamOk(c: Config, s: State)
    requires Typed(c, s)
  {
    && 0 <= Appended(s) <= s.pos
    && InFlight(s) <= |Contents(s.buf, s.rp, s.wp)|
    && Delivered(s) + Contents(s.buf, s.rp, s.wp)[InFlight(s)..] == c.file[..Appended(s)]
  }

  /** Unless the worker's wake-up is still to come, a reader on the wait queue sleeps only on an empty
      ring, and one about to compare the index it has loaded with the other finds them equal only on
      an empty ring: a `wp` loaded is still the current one, an `rp` may be old. */
  predicate Restful(c: Config, s: State, reader: Reader) {
    reader.queued && !WakePending(s.worker) ==>
      && (reader.pc.WaitCheckThen? && !c.rpFirst ==> reader.pc.loaded == s.wp)
      && (Used(c.n, s.rp, s.wp) > 0 ==>
            !reader.pc.Asleep? && (reader.pc.WaitCheckThen? ==> reader.pc.loaded != Second(c, s)))
  }

  predicate SleepOk(c: Config, s: State) {
    forall r | 0 <= r < |s.readers| :: Restful(c, s, s.readers[r])
  }

  predicate TakerOk(c: Config, slice: seq<byte>, taker: Taker) {
    taker.reader < c.readers && |slice| <= taker.want && (taker.want > 0 ==> slice != [])
  }

  predicate LogOk(c: Config, s: State) {
    |s.takers| == |s.slices| && forall k | 0 <= k < |s.slices| :: TakerOk(c, s.slices[k], s.takers[k])
  }

  predicate HistoryOk(c: Config, s: State)
    requires Typed(c, s) && MailOk(c, s)
  {
    var done := if s.sender.SSize? || s.sender.SFlag? then s.pos - s.sender.count else s.pos;
    && s.published + Chunks(c.file[done..], c.m) == Chunks(c.file, c.m)
    && s.published == if s.ready && !s.worker.WWake? && !s.worker.WClear?
                      then s.accepted + [s.mem[..s.size]] else s.accepted
  }

  predicate Inv(c: Config, s: State) {
    && Typed(c, s) && LockOk(c, s) && IndexOk(c, s) && ReadersOk(c, s) && WorkerOk(c, s) && MailOk(c, s)
    && StreamOk(c, s) && SleepOk(c, s) && LogOk(c, s) && HistoryOk(c, s)
  }

  lemma InitInv(c: Config, s: State)
    requires Init(c, s)
    ensures Inv(c, s)
  {
  }

  // The sender.

  lemma SenderKeepsControl(c: Config, s: State)
    requires Typed(c, s) && LockOk(c, s) && IndexOk(c, s) && ReadersOk(c, s) && MailOk(c, s)
    requires Enabled(s, SenderGo)
    ensures var t := SenderApply(c, s);
      Typed(c, t) && LockOk(c, t) && IndexOk(c, t) && ReadersOk(c, t)
  {
    var t := SenderApply(c, s);
    assert t.readers == s.readers && t.rp == s.rp && t.wp == s.wp && t.lock == s.lock && t.worker == s.worker;
    assert t.buf == s.buf && |t.mem| == |s.mem|;
  }

  lemma SenderKeepsWorker(c: Config, s: State)
    requires Typed(c, s) && WorkerOk(c, s) && MailOk(c, s) && SleepOk(c, s) && LogOk(c, s)
    requires Enabled(s, SenderGo)
    ensures var t := SenderApply(c, s);
      WorkerOk(c, t) && SleepOk(c, t) && LogOk(c, t)
  {
  }

  lemma CopyKeepsMail(c: Config, s: State)
    requires Typed(c, s) && MailOk(c, s) && s.sender.SCopy? && s.sender.k < s.sender.count
    requires Typed(c, SenderApply(c, s))
    ensures MailOk(c, SenderApply(c, s))
  {
  }

  lemma ChunkKeepsMail(c: Config, s: State)
    requires Typed(c, s) && MailOk(c, s) && s.sender.SCopy? && s.sender.k == s.sender.count
    requires Typed(c, SenderApply(c, s))
    ensures MailOk(c, SenderApply(c, s))
  {
  }

  lemma RegistersKeepMail(c: Config, s: State)
    requires Typed(c, s) && MailOk(c, s) && Enabled(s, SenderGo) && !s.sender.SCopy?
    requires Typed(c, SenderApply(c, s))
    ensures MailOk(c, SenderApply(c, s))
  {
    var t := SenderApply(c, s);
    assert t.mem == s.mem && t.pos == s.pos;
    if s.sender.SFlag? {
      assert t.ready && t.size == s.sender.count && t.sender.STest?;
    } else {
      assert t.ready ==> s.ready && t.size == s.size;
    }
  }

  lemma SenderKeepsMail(c: Config, s: State)
    requires Typed(c, s) && MailOk(c, s) && Enabled(s, SenderGo) && Typed(c, SenderApply(c, s))
    ensures MailOk(c, SenderApply(c, s))
  {
    if s.sender.SCopy? && s.sender.k < s.sender.count {
      CopyKeepsMail(c, s);
    } else if s.sender.SCopy? {
      ChunkKeepsMail(c, s);
    } else {
      RegistersKeepMail(c, s);
    }
  }

  lemma SameStream(c: Config, s: State, t: State)
    requires Typed(c, s) && StreamOk(c, s) && Typed(c, t)
    requires t.buf == s.buf && t.rp == s.rp && t.wp == s.wp && t.slices == s.slices
    requires Appended(t) == Appended(s) <= t.pos && InFlight(t) == InFlight(s)
    ensures StreamOk(c, t)
  {
  }

  lemma SenderKeepsStream(c: Config, s: State)
    requires Typed(c, s) && LockOk(c, s) && WorkerOk(c, s) && MailOk(c, s) && StreamOk(c, s)
    requires Enabled(s, SenderGo) && Typed(c, SenderApply(c, s))
    ensures StreamOk(c, SenderApply(c, s))
  {
    var t := SenderApply(c, s);
    assert Appended(t) == Appended(s) && Appended(t) <= t.pos;
    assert InFlight(t) == InFlight(s);
    SameStream(c, s, t);
  }

  lemma PublishKeepsHistory(c: Config, s: State)
    requires Typed(c, s) && WorkerOk(c, s) && MailOk(c, s) && HistoryOk(c, s) && s.sender.SFlag?
    requires Typed(c, SenderApply(c, s)) && MailOk(c, SenderApply(c, s))
    ensures HistoryOk(c, SenderApply(c, s))
  {
    var done := s.pos - s.sender.count;
    PublishingKeepsChunks(s.published, c.file, done, c.m);
  }

  lemma SenderKeepsHistory(c: Config, s: State)
    requires Typed(c, s) && WorkerOk(c, s) && MailOk(c, s) && HistoryOk(c, s) && !s.sender.SFlag?
    requires Enabled(s, SenderGo) && Typed(c, SenderApply(c, s)) && MailOk(c, SenderApply(c, s))
    ensures HistoryOk(c, SenderApply(c, s))
  {
    var t := SenderApply(c, s);
    var done := if s.sender.SSize? then s.pos - s.sender.count else s.pos;
    assert done == if t.sender.SSize? || t.sender.SFlag? then t.pos - t.sender.count else t.pos;
    assert t.worker == s.worker && t.published == s.published && t.accepted == s.accepted;
    assert t.ready == s.ready && (t.ready ==> t.mem == s.mem && t.size == s.size);
  }

  lemma SenderKeeps(c: Config, s: State)
    requires Inv(c, s) && Enabled(s, SenderGo)
    ensures Inv(c, SenderApply(c, s))
  {
    SenderKeepsControl(c, s);
    SenderKeepsWorker(c, s);
    SenderKeepsMail(c, s);
    SenderKeepsStream(c, s);
    if s.sender.SFlag? {
      PublishKeepsHistory(c, s);
    } else {
      SenderKeepsHistory(c, s);
    }
  }

  // The worker.

  lemma WorkerKeepsLock(c: Config, s: State)
    requires Typed(c, s) && LockOk(c, s) && IndexOk(c, s) && ReadersOk(c, s) && WorkerOk(c, s)
    requires s.ready ==> s.size <= c.m
    requires Enabled(s, WorkerGo)
    ensures var t := WorkerApply(c, s);
      Typed(c, t) && LockOk(c, t) && ReadersOk(c, t)
  {
    if s.worker.WSize? {
      assert s.lock.ByWorker?;
    }
  }

  lemma WorkerKeepsIndex(c: Config, s: State)
    requires Typed(c, s) && LockOk(c, s) && IndexOk(c, s) && WorkerOk(c, s)
    requires s.ready ==> s.size <= c.m
    requires Enabled(s, WorkerGo) && Typed(c, WorkerApply(c, s))
    ensures var t := WorkerApply(c, s);
      IndexOk(c, t) && WorkerOk(c, t)
  {
    if s.worker.WCheck? {
      SpaceAccounting(s.buf, s.rp, s.wp);
    }
  }

  lemma WorkerKeepsMail(c: Config, s: State)
    requires Typed(c, s) && WorkerOk(c, s) && MailOk(c, s) && LogOk(c, s)
    requires Enabled(s, WorkerGo) && Typed(c, WorkerApply(c, s))
    ensures MailOk(c, WorkerApply(c, s)) && LogOk(c, WorkerApply(c, s))
  {
    var t := WorkerApply(c, s);
    assert t.sender == s.sender && t.pos == s.pos && t.mem == s.mem && t.size == s.size && (t.ready ==> s.ready);
    assert t.slices == s.slices && t.takers == s.takers;
  }

  lemma StoreKeepsStream(c: Config, s: State)
    requires Typed(c, s) && LockOk(c, s) && IndexOk(c, s) && WorkerOk(c, s) && MailOk(c, s) && StreamOk(c, s)
    requires s.worker.WStore? && s.worker.i < s.worker.size && Typed(c, WorkerApply(c, s))
    ensures StreamOk(c, WorkerApply(c, s))
  {
    var t := WorkerApply(c, s);
    var a, i := Appended(s), s.worker.i;
    assert s.lock.ByWorker?;
    StoreAppends(s.buf, s.rp, s.wp, s.mem[i]);
    var was, now := Contents(s.buf, s.rp, s.wp), Contents(t.buf, t.rp, t.wp);
    assert was[0..] == was && now[0..] == now;
    assert s.mem[i] == s.mem[..s.size][i] == c.file[s.pos - s.size..s.pos][i] == c.file[a];
    assert c.file[..a + 1] == c.file[..a] + [c.file[a]];
    assert Appended(t) == a + 1;
    assert Delivered(t) + now == Delivered(s) + was + [s.mem[i]];
  }

  lemma WorkerKeepsStream(c: Config, s: State)
    requires Typed(c, s) && LockOk(c, s) && IndexOk(c, s) && WorkerOk(c, s) && MailOk(c, s) && StreamOk(c, s)
    requires Enabled(s, WorkerGo) && Typed(c, WorkerApply(c, s))
    requires !(s.worker.WStore? && s.worker.i < s.worker.size)
    ensures StreamOk(c, WorkerApply(c, s))
  {
    var t := WorkerApply(c, s);
    assert Appended(t) == Appended(s);
    assert InFlight(t) == InFlight(s);
    if s.worker.WWrap? {
      assert s.lock.ByWorker?;
      WrapWriteKeeps(s.buf, s.rp, s.wp);
    }
  }

  lemma WorkerKeepsSleep(c: Config, s: State)
    requires Typed(c, s) && LockOk(c, s) && IndexOk(c, s) && WorkerOk(c, s) && SleepOk(c, s)
    requires Enabled(s, WorkerGo)
    ensures SleepOk(c, WorkerApply(c, s))
  {
  }

  lemma WorkerKeepsHistory(c: Config, s: State)
    requires Typed(c, s) && WorkerOk(c, s) && MailOk(c, s) && HistoryOk(c, s)
    requires Enabled(s, WorkerGo) && Typed(c, WorkerApply(c, s)) && MailOk(c, WorkerApply(c, s))
    ensures HistoryOk(c, WorkerApply(c, s))
  {
    var t := WorkerApply(c, s);
    assert t.sender == s.sender && t.pos == s.pos && t.mem == s.mem && t.size == s.size;
    assert t.published == s.published;
  }

  lemma WorkerKeeps(c: Config, s: State)
    requires Inv(c, s) && Enabled(s, WorkerGo)
    ensures Inv(c, WorkerApply(c, s))
  {
    WorkerKeepsLock(c, s);
    WorkerKeepsIndex(c, s);
    WorkerKeepsMail(c, s);
    if s.worker.WStore? && s.worker.i < s.worker.size {
      StoreKeepsStream(c, s);
    } else {
      WorkerKeepsStream(c, s);
    }
    WorkerKeepsSleep(c, s);
    WorkerKeepsHistory(c, s);
  }

  lemma WorkerInterruptKeeps(c: Config, s: State)
    requires Inv(c, s) && Enabled(s, WorkerInterrupted)
    ensures Inv(c, Apply(c, s, WorkerInterrupted))
  {
    var t := Apply(c, s, WorkerInterrupted);
    assert InFlight(t) == InFlight(s) && Appended(t) == Appended(s);
  }

  // The readers.

  /** A reader's step touches neither the mailbox nor the sender nor the worker nor another reader. */
  predicate OnlyReader(s: State, t: State, r: nat)
    requires r < |s.readers|
  {
    r < |t.readers| && t == s.(lock := t.lock, readers := s.readers[r := t.readers[r]], rp := t.rp,
                               slices := t.slices, takers := t.takers)
  }

  lemma HoldingGoFrame(c: Config, s: State, r: nat)
    requires Typed(c, s) && r < |s.readers| && ReaderEnabled(s, r, Go) && ReaderHolds(s.readers[r].pc)
    ensures OnlyReader(s, ReaderGo(c, s, r), r)
    ensures ReaderGo(c, s, r).slices == (if s.readers[r].pc.CopyOut?
                                         then s.slices + [s.buf[s.rp..s.rp + s.readers[r].pc.count]] else s.slices)
  {
  }

  lemma WaitingGoFrame(c: Config, s: State, r: nat)
    requires Typed(c, s) && r < |s.readers| && ReaderEnabled(s, r, Go) && !ReaderHolds(s.readers[r].pc)
    ensures OnlyReader(s, ReaderGo(c, s, r), r) && ReaderGo(c, s, r).slices == s.slices
  {
  }

  lemma ReaderGoFrame(c: Config, s: State, r: nat)
    requires Typed(c, s) && r < |s.readers| && ReaderEnabled(s, r, Go)
    ensures OnlyReader(s, ReaderGo(c, s, r), r)
    ensures ReaderGo(c, s, r).slices == (if s.readers[r].pc.CopyOut?
                                         then s.slices + [s.buf[s.rp..s.rp + s.readers[r].pc.count]] else s.slices)
  {
    if ReaderHolds(s.readers[r].pc) {
      HoldingGoFrame(c, s, r);
    } else {
      WaitingGoFrame(c, s, r);
    }
  }

  lemma ReaderFrame(c: Config, s: State, r: nat, act: ReaderAct)
    requires Typed(c, s) && r < |s.readers| && ReaderEnabled(s, r, act)
    ensures var t := ReaderApply(c, s, r, act);
      && OnlyReader(s, t, r)
      && t.slices == (if act.Go? && s.readers[r].pc.CopyOut?
                      then s.slices + [s.buf[s.rp..s.rp + s.readers[r].pc.count]] else s.slices)
  {
    if act.Go? {
      ReaderGoFrame(c, s, r);
    }
  }

  lemma SameMail(c: Config, s: State, t: State)
    requires Typed(c, s) && MailOk(c, s) && Typed(c, t)
    requires t.mem == s.mem && t.size == s.size && t.ready == s.ready && t.sender == s.sender && t.pos == s.pos
    ensures MailOk(c, t)
  {
  }

  lemma OnlyReaderKeepsMail(c: Config, s: State, t: State, r: nat)
    requires Typed(c, s) && MailOk(c, s) && HistoryOk(c, s)
    requires r < |s.readers| && OnlyReader(s, t, r) && Typed(c, t)
    ensures MailOk(c, t) && HistoryOk(c, t)
  {
    SameMail(c, s, t);
  }

  /** `t` differs from `s` at most in reader `r` and in the mutex, and `r` neither enters nor leaves
      the part of its critical section that moves the read index. */
  predicate QuietMove(c: Config, s: State, t: State, r: nat) {
    && r < |s.readers| == |t.readers|
    && t == s.(lock := t.lock, readers := s.readers[r := t.readers[r]])
    && var pc, pc' := s.readers[r].pc, t.readers[r].pc;
    && !pc.Advance? && !pc'.Advance? && !pc.WrapRp? && !pc'.WrapRp?
    && ReaderTyped(c, s, pc') && ReaderOk(c, s, pc')
    && (ReaderHolds(pc') <==> t.lock == ByReader(r))
    && (t.lock == s.lock || (s.lock.Free? && t.lock == ByReader(r)) || (s.lock == ByReader(r) && t.lock.Free?))
    && Restful(c, s, t.readers[r])
  }

  lemma QuietKeepsControl(c: Config, s: State, t: State, r: nat)
    requires Typed(c, s) && LockOk(c, s) && IndexOk(c, s) && ReadersOk(c, s) && QuietMove(c, s, t, r)
    ensures Typed(c, t) && LockOk(c, t) && IndexOk(c, t) && ReadersOk(c, t)
  {
  }

  lemma QuietKeepsStream(c: Config, s: State, t: State, r: nat)
    requires Typed(c, s) && LockOk(c, s) && StreamOk(c, s) && QuietMove(c, s, t, r) && Typed(c, t)
    ensures StreamOk(c, t)
  {
  }

  lemma QuietKeepsRest(c: Config, s: State, t: State, r: nat)
    requires Typed(c, s) && WorkerOk(c, s) && MailOk(c, s) && SleepOk(c, s) && LogOk(c, s) && HistoryOk(c, s)
    requires QuietMove(c, s, t, r) && Typed(c, t)
    ensures WorkerOk(c, t) && MailOk(c, t) && SleepOk(c, t) && LogOk(c, t) && HistoryOk(c, t)
  {
    assert OnlyReader(s, t, r);
    OnlyReaderKeepsMail(c, s, t, r);
    assert forall q | 0 <= q < |s.readers| && q != r :: t.readers[q] == s.readers[q];
  }

  lemma QuietKeeps(c: Config, s: State, t: State, r: nat)
    requires Inv(c, s) && QuietMove(c, s, t, r)
    ensures Inv(c, t)
  {
    QuietKeepsControl(c, s, t, r);
    QuietKeepsStream(c, s, t, r);
    QuietKeepsRest(c, s, t, r);
  }

  predicate MovesIndex(s: State, r: nat, act: ReaderAct)
    requires r < |s.readers|
  {
    var pc := s.readers[r].pc;
    act.Go? && (pc.CopyOut? || pc.Advance? || pc.WrapRp?)
  }

  /** A move of reader `r` to `pc'` with the mutex in state `lock`. */
  function To(s: State, r: nat, pc': ReaderPc, queued: bool, lock: Lock): State
    requires r < |s.readers|
  {
    s.(lock := lock, readers := s.readers[r := Reader(pc', queued)])
  }

  lemma QuietGoLocked(c: Config, s: State, r: nat)
    requires Typed(c, s) && LockOk(c, s) && IndexOk(c, s) && ReadersOk(c, s) && SleepOk(c, s)
    requires r < |s.readers| && ReaderEnabled(s, r, Go) && !MovesIndex(s, r, Go) && ReaderHolds(s.readers[r].pc)
    ensures QuietMove(c, s, ReaderGo(c, s, r), r)
  {
  }

  lemma QuietGoFree(c: Config, s: State, r: nat)
    requires Typed(c, s) && LockOk(c, s) && IndexOk(c, s) && ReadersOk(c, s) && SleepOk(c, s)
    requires r < |s.readers| && ReaderEnabled(s, r, Go) && !ReaderHolds(s.readers[r].pc)
    ensures QuietMove(c, s, ReaderGo(c, s, r), r)
  {
    var t := ReaderGo(c, s, r);
    assert s.lock != ByReader(r);
    assert t == To(s, r, t.readers[r].pc, t.readers[r].queued, t.lock);
  }

  lemma QuietOther(c: Config, s: State, r: nat, act: ReaderAct)
    requires Typed(c, s) && LockOk(c, s) && IndexOk(c, s) && ReadersOk(c, s) && SleepOk(c, s)
    requires r < |s.readers| && ReaderEnabled(s, r, act) && !act.Go?
    ensures QuietMove(c, s, ReaderApply(c, s, r, act), r)
  {
  }

  /** The three steps that hand out bytes and move the read index. */
  lemma IndexKeepsControl(c: Config, s: State, r: nat)
    requires Typed(c, s) && LockOk(c, s) && IndexOk(c, s) && ReadersOk(c, s)
    requires r < |s.readers| && ReaderEnabled(s, r, Go) && MovesIndex(s, r, Go)
    ensures var t := ReaderGo(c, s, r);
      Typed(c, t) && LockOk(c, t) && IndexOk(c, t) && ReadersOk(c, t)
  {
    var t := ReaderGo(c, s, r);
    assert ReaderTyped(c, s, s.readers[r].pc) && ReaderOk(c, s, s.readers[r].pc);
    assert s.lock == ByReader(r);
    forall q | 0 <= q < |s.readers| && q != r
      ensures t.readers[q] == s.readers[q] && !ReaderHolds(s.readers[q].pc)
    {
    }
  }

  lemma CopyKeepsStream(c: Config, s: State, r: nat)
    requires Typed(c, s) && LockOk(c, s) && ReadersOk(c, s) && StreamOk(c, s)
    requires r < |s.readers| && ReaderEnabled(s, r, Go) && s.readers[r].pc.CopyOut? && Typed(c, ReaderGo(c, s, r))
    ensures StreamOk(c, ReaderGo(c, s, r))
  {
    var t := ReaderGo(c, s, r);
    var count := s.readers[r].pc.count;
    assert s.lock == ByReader(r) && ReaderOk(c, s, s.readers[r].pc);
    var all := Contents(s.buf, s.rp, s.wp);
    CopiedSlice(c, s, r);
    assert t.buf == s.buf && t.rp == s.rp && t.wp == s.wp && t.lock == s.lock && t.readers[r].pc == Advance(count);
    assert t.slices == s.slices + [all[..count]];
    FlattenSnoc(s.slices, all[..count]);
    HandOver(Delivered(s), all, count);
    assert InFlight(s) == 0 && all[0..] == all;
    assert InFlight(t) == count && Appended(t) == Appended(s);
  }

  lemma CopiedSlice(c: Config, s: State, r: nat)
    requires Typed(c, s) && ReadersOk(c, s) && r < |s.readers| && s.readers[r].pc.CopyOut?
    ensures var count := s.readers[r].pc.count;
      var all := Contents(s.buf, s.rp, s.wp);
      count <= |all| && s.buf[s.rp..s.rp + count] == all[..count]
  {
  }

  lemma AdvanceKeepsStream(c: Config, s: State, r: nat)
    requires Typed(c, s) && LockOk(c, s) && ReadersOk(c, s) && StreamOk(c, s)
    requires r < |s.readers| && ReaderEnabled(s, r, Go) && s.readers[r].pc.Advance?
    requires Typed(c, ReaderGo(c, s, r))
    ensures StreamOk(c, ReaderGo(c, s, r))
  {
    var t, count := ReaderGo(c, s, r), s.readers[r].pc.count;
    assert ReaderOk(c, s, s.readers[r].pc);
    assert s.lock == ByReader(r) && InFlight(s) == count && InFlight(t) == 0;
    assert Appended(t) == Appended(s) && Delivered(t) == Delivered(s);
    AdvanceDrops(s.buf, s.rp, s.wp, count);
    assert Contents(t.buf, t.rp, t.wp)[0..] == Contents(t.buf, t.rp, t.wp);
  }

  lemma WrapKeepsStream(c: Config, s: State, r: nat)
    requires Typed(c, s) && LockOk(c, s) && IndexOk(c, s) && StreamOk(c, s)
    requires r < |s.readers| && ReaderEnabled(s, r, Go) && s.readers[r].pc.WrapRp?
    requires Typed(c, ReaderGo(c, s, r))
    ensures StreamOk(c, ReaderGo(c, s, r))
  {
    var t := ReaderGo(c, s, r);
    assert s.lock == ByReader(r) && InFlight(s) == 0 && InFlight(t) == 0;
    assert Appended(t) == Appended(s) && Delivered(t) == Delivered(s);
    assert s.wp < c.n;
    WrapReadKeeps(s.buf, s.rp, s.wp);
  }

  lemma IndexKeepsWorker(c: Config, s: State, r: nat)
    requires Typed(c, s) && LockOk(c, s) && WorkerOk(c, s)
    requires r < |s.readers| && ReaderEnabled(s, r, Go) && MovesIndex(s, r, Go)
    ensures WorkerOk(c, ReaderGo(c, s, r))
  {
  }

  lemma IndexKeepsMail(c: Config, s: State, r: nat)
    requires Typed(c, s) && MailOk(c, s) && HistoryOk(c, s)
    requires r < |s.readers| && ReaderEnabled(s, r, Go) && MovesIndex(s, r, Go) && Typed(c, ReaderGo(c, s, r))
    ensures MailOk(c, ReaderGo(c, s, r)) && HistoryOk(c, ReaderGo(c, s, r))
  {
    ReaderGoFrame(c, s, r);
    OnlyReaderKeepsMail(c, s, ReaderGo(c, s, r), r);
  }

  lemma IndexKeepsLogs(c: Config, s: State, r: nat)
    requires Typed(c, s) && LockOk(c, s) && IndexOk(c, s) && ReadersOk(c, s) && SleepOk(c, s) && LogOk(c, s)
    requires r < |s.readers| && ReaderEnabled(s, r, Go) && MovesIndex(s, r, Go) && Typed(c, ReaderGo(c, s, r))
    ensures var t := ReaderGo(c, s, r);
      SleepOk(c, t) && LogOk(c, t)
  {
  }

  lemma ReaderKeeps(c: Config, s: State, r: nat, act: ReaderAct)
    requires Inv(c, s) && r < |s.readers| && ReaderEnabled(s, r, act)
    ensures Inv(c, ReaderApply(c, s, r, act))
  {
    if !act.Go? {
      QuietOther(c, s, r, act);
      QuietKeeps(c, s, ReaderApply(c, s, r, act), r);
    } else if !MovesIndex(s, r, act) {
      if ReaderHolds(s.readers[r].pc) {
        QuietGoLocked(c, s, r);
      } else {
        QuietGoFree(c, s, r);
      }
      QuietKeeps(c, s, ReaderGo(c, s, r), r);
    } else {
      IndexKeepsControl(c, s, r);
      if s.readers[r].pc.CopyOut? {
        CopyKeepsStream(c, s, r);
      } else if s.readers[r].pc.Advance? {
        AdvanceKeepsStream(c, s, r);
      } else {
        WrapKeepsStream(c, s, r);
      }
      IndexKeepsWorker(c, s, r);
      IndexKeepsMail(c, s, r);
      IndexKeepsLogs(c, s, r);
    }
  }

  lemma StepKeeps(c: Config, s: State, l: Label)
    requires Inv(c, s) && Enabled(s, l)
    ensures Inv(c, Apply(c, s, l))
  {
    match l
    case SenderGo => SenderKeeps(c, s);
    case WorkerGo => WorkerKeeps(c, s);
    case WorkerInterrupted => WorkerInterruptKeeps(c, s);
    case ReaderDoes(r, act) => ReaderKeeps(c, s, r, act);
  }

  lemma {:induction false} LeadsKeeps(c: Config, s: State, labels: seq<Label>, t: State)
    requires Inv(c, s) && Leads(c, s, labels, t)
    ensures Inv(c, t)
    decreases |labels|
  {
    if labels != [] {
      StepKeeps(c, s, labels[0]);
      LeadsKeeps(c, Apply(c, s, labels[0]), labels[1..], t);
    }
  }

  lemma ReachableInv(c: Config, t: State)
    requires Reachable(c, t)
    ensures Inv(c, t)
  {
    var s, labels :| Init(c, s) && Leads(c, s, labels, t);
    InitInv(c, s);
    LeadsKeeps(c, s, labels, t);
  }
}
