/** Liveness of the transfer pipeline: every fair run delivers the whole file, if its first chunk
    fits into the ring. */
module PipelineFairness {
  import opened Ring
  import opened Pipeline
  import opened PipelineSafety
  import opened PipelineTheorems
  import opened PipelineProgress

  // Infinite runs. Every maximal run is infinite: an idle worker keeps polling.

  ghost predicate StepAt(c: Config, st: nat -> State, lb: nat -> Label, i: nat) {
    Next(c, st(i), lb(i), st(i + 1))
  }

  ghost predicate IsRun(c: Config, st: nat -> State, lb: nat -> Label) {
    Init(c, st(0)) && forall i: nat :: StepAt(c, st, lb, i)
  }

  ghost predicate EnabledAfter(st: nat -> State, l: Label, i: nat) {
    exists j: nat :: j >= i && Enabled(st(j), l)
  }

  ghost predicate TakenAfter(lb: nat -> Label, l: Label, i: nat) {
    exists j: nat :: j >= i && lb(j) == l
  }

  /** A step that is possible again and again is taken again and again. */
  ghost predicate StronglyFair(st: nat -> State, lb: nat -> Label, l: Label) {
    (forall i: nat :: EnabledAfter(st, l, i)) ==> forall i: nat :: TakenAfter(lb, l, i)
  }

  predicate Calls(l: Label, r: nat) {
    l.ReaderDoes? && l.r == r && l.act.Call?
  }

  /** Neither a signal nor a failing copy. */
  predicate Calm(l: Label) {
    !l.WorkerInterrupted? && (l.ReaderDoes? ==> !l.act.Signal? && !l.act.CopyFault?)
  }

  /** The scheduler and the mutex are fair to everybody, signals and failing copies cease from `k` on,
      and one reader, `r`, keeps asking for at least one byte. */
  ghost predicate FairRun(c: Config, st: nat -> State, lb: nat -> Label, r: nat, k: nat) {
    && IsRun(c, st, lb)
    && StronglyFair(st, lb, SenderGo) && StronglyFair(st, lb, WorkerGo)
    && (forall q | 0 <= q < c.readers :: StronglyFair(st, lb, ReaderDoes(q, Go)))
    && (forall i: nat | k <= i :: Calm(lb(i)))
    && r < c.readers
    && (forall i: nat | Calls(lb(i), r) :: lb(i).act.want > 0)
    && (forall i: nat :: r < |st(i).readers| && st(i).readers[r].pc.Idle? ==> exists j: nat :: j >= i && Calls(lb(j), r))
  }

  // Descent in the natural numbers.

  ghost predicate DropsAfter(f: nat -> nat, i: nat) {
    exists j: nat :: j >= i && f(j) < f(i)
  }

  lemma {:induction false} NoEndlessDescent(f: nat -> nat, from: nat)
    requires forall i: nat | from <= i :: DropsAfter(f, i)
    ensures false
    decreases f(from)
  {
    assert DropsAfter(f, from);
    var j: nat :| j >= from && f(j) < f(from);
    NoEndlessDescent(f, j);
  }

  ghost predicate FallsAt(f: nat -> nat, i: nat) {
    f(i + 1) <= f(i)
  }

  lemma {:induction false} FallsFar(f: nat -> nat, i: nat, j: nat)
    requires i <= j && forall m: nat | i <= m < j :: FallsAt(f, m)
    ensures f(j) <= f(i)
    decreases j - i
  {
    if i < j {
      FallsFar(f, i, j - 1);
      assert FallsAt(f, j - 1);
    }
  }

  /** A sequence that never rises is constant from some point on. */
  lemma {:induction false} Stabilizes(f: nat -> nat, from: nat) returns (k: nat)
    requires forall i: nat :: FallsAt(f, i)
    ensures k >= from && forall j: nat | j >= k :: f(j) == f(k)
    decreases f(from)
  {
    if DropsAfter(f, from) {
      var j: nat :| j >= from && f(j) < f(from);
      k := Stabilizes(f, j);
    } else {
      k := from;
      forall j: nat | j >= k ensures f(j) == f(k) {
        FallsFar(f, k, j);
      }
    }
  }

  lemma StepIs(c: Config, st: nat -> State, lb: nat -> Label, i: nat)
    requires IsRun(c, st, lb)
    ensures Typed(c, st(i)) && Enabled(st(i), lb(i)) && st(i + 1) == Apply(c, st(i), lb(i))
  {
    assert StepAt(c, st, lb, i);
  }

  lemma RunInvStep(c: Config, st: nat -> State, lb: nat -> Label, i: nat)
    requires IsRun(c, st, lb) && Inv(c, st(i))
    ensures Inv(c, st(i + 1))
  {
    StepIs(c, st, lb, i);
    StepKeeps(c, st(i), lb(i));
  }

  lemma {:induction false} RunInv(c: Config, st: nat -> State, lb: nat -> Label, i: nat)
    requires IsRun(c, st, lb)
    ensures Inv(c, st(i))
  {
    if i == 0 {
      InitInv(c, st(0));
    } else {
      RunInv(c, st, lb, i - 1);
      RunInvStep(c, st, lb, i - 1);
    }
  }

  // The mutex is free again and again.

  function HoldRank(s: State): nat {
    match s.lock
    case Free => 0
    case ByReader(q) =>
      if q >= |s.readers| then 0 else
        (match s.readers[q].pc
         case Test(_) => 5
         case CopyOut(_, _) => 4
         case Advance(_) => 3
         case WrapRp => 2
         case _ => 1)
    case ByWorker =>
      match s.worker
      case WSize => 2 * |s.mem| + 5
      case WCheck(_) => 2 * |s.mem| + 4
      case WStore(i, size) => if i <= size then 2 * (size - i) + 2 else 0
      case WWrap(i, size) => if i <= size then 2 * (size - i) + 1 else 0
      case _ => 1
  }

  function HolderLabel(s: State): Label
    requires !s.lock.Free?
  {
    if s.lock.ByWorker? then WorkerGo else ReaderDoes(s.lock.r, Go)
  }

  lemma HoldStepWorker(c: Config, s: State)
    requires Inv(c, s) && !s.lock.Free? && Enabled(s, WorkerGo)
    ensures var t := WorkerApply(c, s);
      t.lock.Free? || (t.lock == s.lock && HoldRank(t) <= HoldRank(s) && (s.lock.ByWorker? ==> HoldRank(t) < HoldRank(s)))
  {
  }

  lemma HolderHoldStep(c: Config, s: State, q: nat, act: ReaderAct)
    requires Typed(c, s) && Enabled(s, ReaderDoes(q, act)) && s.lock == ByReader(q) && ReaderHolds(s.readers[q].pc)
    ensures var t := ReaderApply(c, s, q, act);
      t.lock.Free? || (t.lock == s.lock && HoldRank(t) < HoldRank(s))
  {
  }

  lemma HoldStepReader(c: Config, s: State, q: nat, act: ReaderAct)
    requires Inv(c, s) && !s.lock.Free? && Enabled(s, ReaderDoes(q, act))
    ensures var t := ReaderApply(c, s, q, act);
      t.lock.Free? || (t.lock == s.lock && HoldRank(t) <= HoldRank(s) && (s.lock == ByReader(q) ==> HoldRank(t) < HoldRank(s)))
  {
    assert ReaderHolds(s.readers[q].pc) <==> s.lock == ByReader(q);
    ReaderFrame(c, s, q, act);
    if s.lock == ByReader(q) {
      HolderHoldStep(c, s, q, act);
    } else {
      var t := ReaderApply(c, s, q, act);
      assert t.lock == s.lock && t.worker == s.worker && t.mem == s.mem;
      assert s.lock.ByReader? ==> t.readers[s.lock.r] == s.readers[s.lock.r];
    }
  }

  lemma HoldStep(c: Config, s: State, l: Label)
    requires Inv(c, s) && !s.lock.Free? && Enabled(s, l)
    ensures var t := Apply(c, s, l);
      t.lock.Free? || (t.lock == s.lock && HoldRank(t) <= HoldRank(s) && (l == HolderLabel(s) ==> HoldRank(t) < HoldRank(s)))
  {
    match l
    case SenderGo => assert SenderApply(c, s).lock == s.lock && SenderApply(c, s).worker == s.worker;
    case WorkerGo => HoldStepWorker(c, s);
    case WorkerInterrupted =>
    case ReaderDoes(q, act) => HoldStepReader(c, s, q, act);
  }

  ghost function HoldRanks(st: nat -> State): nat -> nat {
    (i: nat) => HoldRank(st(i))
  }

  ghost predicate HeldFrom(st: nat -> State, i: nat) {
    forall j: nat | i <= j :: !st(j).lock.Free?
  }

  lemma HeldStep(c: Config, st: nat -> State, lb: nat -> Label, i: nat)
    requires IsRun(c, st, lb) && !st(i).lock.Free? && !st(i + 1).lock.Free?
    ensures st(i + 1).lock == st(i).lock && FallsAt(HoldRanks(st), i)
    ensures lb(i) == HolderLabel(st(i)) ==> HoldRank(st(i + 1)) < HoldRank(st(i))
    ensures Enabled(st(i), HolderLabel(st(i)))
  {
    RunInv(c, st, lb, i);
    StepIs(c, st, lb, i);
    HoldStep(c, st(i), lb(i));
  }

  lemma {:induction false} HolderStays(c: Config, st: nat -> State, lb: nat -> Label, i: nat, j: nat)
    requires IsRun(c, st, lb) && HeldFrom(st, i) && i <= j
    ensures st(j).lock == st(i).lock
    decreases j - i
  {
    if i < j {
      HolderStays(c, st, lb, i, j - 1);
      HeldStep(c, st, lb, j - 1);
    }
  }

  lemma HolderDrops(c: Config, st: nat -> State, lb: nat -> Label, r: nat, k: nat, i: nat)
    requires FairRun(c, st, lb, r, k) && HeldFrom(st, i)
    ensures DropsAfter(HoldRanks(st), i)
  {
    var holder := HolderLabel(st(i));
    forall m: nat ensures EnabledAfter(st, holder, m) {
      var j := if m > i then m else i;
      HolderStays(c, st, lb, i, j);
      HeldStep(c, st, lb, j);
      assert Enabled(st(j), holder);
    }
    RunInv(c, st, lb, i);
    assert StronglyFair(st, lb, holder);
    assert TakenAfter(lb, holder, i);
    var j: nat :| j >= i && lb(j) == holder;
    forall m: nat | i <= m < j ensures FallsAt(HoldRanks(st), m) {
      HeldStep(c, st, lb, m);
    }
    FallsFar(HoldRanks(st), i, j);
    HolderStays(c, st, lb, i, j);
    HeldStep(c, st, lb, j);
    assert HoldRanks(st)(j + 1) < HoldRanks(st)(i);
  }

  lemma FreeAfter(c: Config, st: nat -> State, lb: nat -> Label, r: nat, k: nat, i: nat) returns (j: nat)
    requires FairRun(c, st, lb, r, k)
    ensures j >= i && st(j).lock.Free?
  {
    if HeldFrom(st, i) {
      forall m: nat | i <= m ensures DropsAfter(HoldRanks(st), m) {
        assert HeldFrom(st, m);
        HolderDrops(c, st, lb, r, k, m);
      }
      NoEndlessDescent(HoldRanks(st), i);
    }
    j :| j >= i && st(j).lock.Free?;
  }

  // Bytes stop moving at some point; nothing the ring holds changes after that.

  /** Bytes in the ring that have not been handed out. */
  function RingLen(s: State): int {
    Appended(s) - |Delivered(s)|
  }

  ghost function Weights(c: Config, st: nat -> State): nat -> nat {
    (i: nat) => if Inv(c, st(i)) then Weight(c, st(i)) else 0
  }

  ghost predicate StillFrom(st: nat -> State, lb: nat -> Label, k: nat) {
    forall i: nat | k <= i :: Enabled(st(i), lb(i)) && !MovesBytes(st(i), lb(i))
  }

  lemma WeightFalls(c: Config, st: nat -> State, lb: nat -> Label, i: nat)
    requires IsRun(c, st, lb)
    ensures FallsAt(Weights(c, st), i)
    ensures Enabled(st(i), lb(i)) && (MovesBytes(st(i), lb(i)) ==> Weights(c, st)(i + 1) != Weights(c, st)(i))
  {
    RunInv(c, st, lb, i);
    RunInv(c, st, lb, i + 1);
    StepIs(c, st, lb, i);
    WeightStep(c, st(i), lb(i));
  }

  lemma EventuallyStill(c: Config, st: nat -> State, lb: nat -> Label, from: nat) returns (k: nat)
    requires IsRun(c, st, lb)
    ensures k >= from && StillFrom(st, lb, k)
  {
    forall i: nat ensures FallsAt(Weights(c, st), i) {
      WeightFalls(c, st, lb, i);
    }
    k := Stabilizes(Weights(c, st), from);
    forall i: nat | k <= i ensures Enabled(st(i), lb(i)) && !MovesBytes(st(i), lb(i)) {
      WeightFalls(c, st, lb, i);
    }
  }

  lemma NoMoveSameRing(c: Config, s: State, l: Label)
    requires Inv(c, s) && Enabled(s, l) && !MovesBytes(s, l)
    ensures RingLen(Apply(c, s, l)) == RingLen(s)
  {
    match l
    case SenderGo => SenderCounters(c, s);
    case WorkerGo => WorkerCounters(c, s);
    case WorkerInterrupted =>
    case ReaderDoes(q, act) => ReaderCounters(c, s, q, act);
  }

  lemma RingStep(c: Config, st: nat -> State, lb: nat -> Label, i: nat)
    requires IsRun(c, st, lb) && StillFrom(st, lb, i)
    ensures RingLen(st(i + 1)) == RingLen(st(i))
  {
    RunInv(c, st, lb, i);
    StepIs(c, st, lb, i);
    NoMoveSameRing(c, st(i), lb(i));
  }

  lemma {:induction false} RingStandsStill(c: Config, st: nat -> State, lb: nat -> Label, k: nat, i: nat)
    requires IsRun(c, st, lb) && StillFrom(st, lb, k) && k <= i
    ensures RingLen(st(i)) == RingLen(st(k))
    decreases i - k
  {
    if k < i {
      RingStandsStill(c, st, lb, k, i - 1);
      assert StillFrom(st, lb, i - 1);
      RingStep(c, st, lb, i - 1);
    }
  }

  /** With undelivered bytes in the ring the indices differ, whoever looks at them. */
  lemma RingShows(c: Config, s: State)
    requires Inv(c, s) && RingLen(s) > 0
    ensures s.rp != s.wp && Used(c.n, s.rp, s.wp) > 0
  {
  }

  // Undelivered bytes in the ring: the asking reader cannot be kept from them.

  /** A queued reader is ahead of one off the queue, whose loaded index may be old. */
  function AskRank(reader: Reader): nat {
    match reader.pc
    case Advance(_) => 20
    case WrapRp => 19
    case Unlock => 18
    case FaultUnlock => 18
    case EmptyUnlock(_) => 18
    case WaitFast(_) => 17
    case WaitFastThen(_, _) => 16
    case WaitCheck(_, signalled) => if reader.queued && !signalled then 8 else 15
    case WaitCheckThen(_, signalled, _) => if reader.queued && !signalled then 7 else 14
    case Asleep(_) => if reader.queued then 3 else 13
    case Enqueue(_) => 12
    case Idle => 10
    case Dequeue(_) => 6
    case WantLock(_) => 5
    case Test(_) => 2
    case CopyOut(_, _) => 1
  }

  /** The wake-up, which takes a queued reader off the queue, comes without another byte moving. */
  predicate WakeAtOnce(pc: WorkerPc) {
    || pc.WWake?
    || (pc.WStore? && pc.i == pc.size)
    || (pc.WWrap? && pc.i + 1 == pc.size)
  }

  function AskMeasure(s: State, r: nat): nat {
    if r < |s.readers| then AskRank(s.readers[r]) + if WakeAtOnce(s.worker) then 20 else 0 else 0
  }

  predicate DoneBy(l: Label, r: nat) {
    l.ReaderDoes? && l.r == r
  }

  lemma ReaderLeavesAlone(c: Config, s: State, q: nat, act: ReaderAct, r: nat)
    requires Typed(c, s) && q < |s.readers| && ReaderEnabled(s, q, act) && r < |s.readers| && q != r
    ensures var t := ReaderApply(c, s, q, act);
      |t.readers| == |s.readers| && t.readers[r] == s.readers[r]
  {
    ReaderFrame(c, s, q, act);
  }

  lemma OthersLeaveAlone(c: Config, s: State, l: Label, r: nat)
    requires Typed(c, s) && Enabled(s, l) && r < |s.readers| && !DoneBy(l, r)
    ensures var t := Apply(c, s, l);
      && |t.readers| == |s.readers| && t.readers[r].pc == s.readers[r].pc
      && (t.readers[r].queued ==> s.readers[r].queued)
      && (t.readers[r].queued == s.readers[r].queued || (l.WorkerGo? && s.worker.WWake?))
  {
    if l.ReaderDoes? {
      ReaderLeavesAlone(c, s, l.r, l.act, r);
    }
  }

  lemma AskHolding(c: Config, s: State, r: nat)
    requires Typed(c, s) && s.rp != s.wp && r < |s.readers| && ReaderHolds(s.readers[r].pc)
    requires !MovesBytes(s, ReaderDoes(r, Go))
    requires ReaderOk(c, s, s.readers[r].pc) && !ZeroCall(s.readers[r].pc)
    ensures AskRank(ReaderGo(c, s, r).readers[r]) < AskRank(s.readers[r])
  {
  }

  lemma AskStep(c: Config, s: State, act: ReaderAct, r: nat)
    requires Typed(c, s) && s.rp != s.wp && r < |s.readers| && ReaderEnabled(s, r, act)
    requires !act.Signal? && !act.CopyFault? && !MovesBytes(s, ReaderDoes(r, act))
    requires ReaderOk(c, s, s.readers[r].pc) && !ZeroCall(s.readers[r].pc)
    ensures AskMeasure(ReaderApply(c, s, r, act), r) < AskMeasure(s, r)
  {
    ReaderFrame(c, s, r, act);
    if ReaderHolds(s.readers[r].pc) {
      AskHolding(c, s, r);
    }
  }

  lemma AskOthers(c: Config, s: State, l: Label, r: nat)
    requires Inv(c, s) && Enabled(s, l) && Calm(l) && !MovesBytes(s, l) && r < |s.readers| && !DoneBy(l, r)
    ensures AskMeasure(Apply(c, s, l), r) <= AskMeasure(s, r)
  {
    OthersLeaveAlone(c, s, l, r);
    var t := Apply(c, s, l);
    match l
    case SenderGo => assert t.worker == s.worker;
    case WorkerGo =>
      assert s.worker.WCheck? ==> s.worker.size == s.size > 0;
      assert WakeAtOnce(t.worker) ==> WakeAtOnce(s.worker);
      assert s.worker.WWake? ==> !WakeAtOnce(t.worker);
    case WorkerInterrupted =>
    case ReaderDoes(q, act) => ReaderFrame(c, s, q, act);
  }

  lemma ZeroCallGo(c: Config, s: State, r: nat)
    requires Typed(c, s) && r < |s.readers| && ReaderEnabled(s, r, Go) && !ZeroCall(s.readers[r].pc)
    ensures !ZeroCall(ReaderGo(c, s, r).readers[r].pc)
  {
    var pc, pc' := s.readers[r].pc, ReaderGo(c, s, r).readers[r].pc;
    assert pc.Test? ==> pc' == EmptyUnlock(pc.want) || pc' == CopyOut(pc.want, ReadLen(c.n, s.rp, s.wp, pc.want));
    assert pc.WaitFastThen? ==> pc' == WantLock(pc.want) || pc' == Enqueue(pc.want);
    assert pc.WaitCheckThen? ==> pc' == Dequeue(pc.want) || pc' == Idle || pc' == Asleep(pc.want);
  }

  lemma ZeroCallStep(c: Config, s: State, act: ReaderAct, r: nat)
    requires Typed(c, s) && r < |s.readers| && ReaderEnabled(s, r, act)
    requires !ZeroCall(s.readers[r].pc) && (act.Call? ==> act.want > 0)
    ensures !ZeroCall(ReaderApply(c, s, r, act).readers[r].pc)
  {
    if act.Go? {
      ZeroCallGo(c, s, r);
    }
  }

  lemma AsksStep(c: Config, st: nat -> State, lb: nat -> Label, r: nat, k: nat, i: nat)
    requires FairRun(c, st, lb, r, k) && |st(i).readers| == c.readers && !ZeroCall(st(i).readers[r].pc)
    requires |st(i + 1).readers| == c.readers
    ensures !ZeroCall(st(i + 1).readers[r].pc)
  {
    StepIs(c, st, lb, i);
    if DoneBy(lb(i), r) {
      ZeroCallStep(c, st(i), lb(i).act, r);
    } else {
      OthersLeaveAlone(c, st(i), lb(i), r);
    }
  }

  lemma NobodyAsksAtFirst(c: Config, s: State, r: nat)
    requires Init(c, s) && r < c.readers
    ensures |s.readers| == c.readers && !ZeroCall(s.readers[r].pc)
  {
    assert s.readers[r] == Reader(Idle, false);
  }

  lemma {:induction false} AlwaysAsks(c: Config, st: nat -> State, lb: nat -> Label, r: nat, k: nat, i: nat)
    requires FairRun(c, st, lb, r, k)
    ensures |st(i).readers| == c.readers && !ZeroCall(st(i).readers[r].pc)
  {
    if i == 0 {
      NobodyAsksAtFirst(c, st(0), r);
    } else {
      RunInv(c, st, lb, i);
      AlwaysAsks(c, st, lb, r, k, i - 1);
      AsksStep(c, st, lb, r, k, i - 1);
    }
  }

  ghost function AskRanks(st: nat -> State, r: nat): nat -> nat {
    (i: nat) => AskMeasure(st(i), r)
  }

  lemma AskFalls(c: Config, st: nat -> State, lb: nat -> Label, r: nat, k: nat, i: nat)
    requires FairRun(c, st, lb, r, k) && k <= i && StillFrom(st, lb, i) && RingLen(st(i)) > 0
    ensures FallsAt(AskRanks(st, r), i)
    ensures DoneBy(lb(i), r) ==> AskRanks(st, r)(i + 1) < AskRanks(st, r)(i)
  {
    RunInv(c, st, lb, i);
    AlwaysAsks(c, st, lb, r, k, i);
    AlwaysAsks(c, st, lb, r, k, i + 1);
    StepIs(c, st, lb, i);
    RingShows(c, st(i));
    assert ReaderOk(c, st(i), st(i).readers[r].pc);
    assert Calm(lb(i));
    if DoneBy(lb(i), r) {
      AskStep(c, st(i), lb(i).act, r);
    } else {
      AskOthers(c, st(i), lb(i), r);
    }
  }

  ghost predicate Quiet(lb: nat -> Label, r: nat, i: nat) {
    forall j: nat | i <= j :: !DoneBy(lb(j), r)
  }

  lemma {:induction false} QuietMeansFixed(c: Config, st: nat -> State, lb: nat -> Label, r: nat, i: nat, j: nat)
    requires IsRun(c, st, lb) && Quiet(lb, r, i) && r < c.readers && i <= j
    ensures |st(i).readers| == |st(j).readers| == c.readers
    ensures st(j).readers[r].pc == st(i).readers[r].pc
    ensures st(j).readers[r].queued ==> st(i).readers[r].queued
    decreases j - i
  {
    RunInv(c, st, lb, i);
    if i < j {
      QuietMeansFixed(c, st, lb, r, i, j - 1);
      StepIs(c, st, lb, j - 1);
      OthersLeaveAlone(c, st(j - 1), lb(j - 1), r);
    }
  }

  ghost predicate FreeLater(st: nat -> State, m: nat) {
    exists j: nat :: j >= m && st(j).lock.Free?
  }

  ghost predicate FreeOften(st: nat -> State) {
    forall m: nat :: FreeLater(st, m)
  }

  ghost predicate AlwaysLater(st: nat -> State, l: Label) {
    forall m: nat :: EnabledAfter(st, l, m)
  }

  /** A reader stuck anywhere but idle or asleep on the queue would be able to move again and again. */
  lemma StuckStaysEnabled(c: Config, st: nat -> State, lb: nat -> Label, r: nat, i: nat)
    requires IsRun(c, st, lb) && FreeOften(st) && r < c.readers && r < |st(i).readers|
    requires var reader := st(i).readers[r];
      !reader.pc.Idle? && !(reader.pc.Asleep? && reader.queued)
    ensures Quiet(lb, r, i) ==> AlwaysLater(st, ReaderDoes(r, Go))
  {
    if Quiet(lb, r, i) {
      forall m: nat ensures EnabledAfter(st, ReaderDoes(r, Go), m) {
        var from := if m > i then m else i;
        assert FreeLater(st, from);
        var j: nat :| j >= from && st(j).lock.Free?;
        QuietMeansFixed(c, st, lb, r, i, j);
        assert Enabled(st(j), ReaderDoes(r, Go));
      }
    }
  }

  /** So a reader that never moves again is asleep on the queue: from everywhere else, fairness moves
      it. */
  lemma QuietMeansAsleep(c: Config, st: nat -> State, lb: nat -> Label, r: nat, k: nat, i: nat)
    requires FairRun(c, st, lb, r, k)
    ensures r < |st(i).readers|
    ensures Quiet(lb, r, i) ==> st(i).readers[r].pc.Asleep? && st(i).readers[r].queued
  {
    RunInv(c, st, lb, i);
    var reader := st(i).readers[r];
    if reader.pc.Idle? {
      var j: nat :| j >= i && Calls(lb(j), r);
      assert DoneBy(lb(j), r);
    } else if !reader.pc.Asleep? || !reader.queued {
      forall m: nat ensures FreeLater(st, m) {
        var j := FreeAfter(c, st, lb, r, k, m);
      }
      StuckStaysEnabled(c, st, lb, r, i);
      if AlwaysLater(st, ReaderDoes(r, Go)) {
        assert StronglyFair(st, lb, ReaderDoes(r, Go));
        assert TakenAfter(lb, ReaderDoes(r, Go), i);
        var j: nat :| j >= i && lb(j) == ReaderDoes(r, Go);
        assert DoneBy(lb(j), r);
      }
    }
  }

  // Nobody sleeps for good on a non-empty ring.

  function WakeRank(pc: WorkerPc): nat {
    match pc
    case WStore(i, size) => if i <= size then 2 * (size - i) + 2 else 0
    case WWrap(i, size) => if i <= size then 2 * (size - i) + 1 else 0
    case _ => 0
  }

  ghost function WakeRanks(st: nat -> State): nat -> nat {
    (i: nat) => WakeRank(st(i).worker)
  }

  lemma WakeStep(c: Config, s: State, l: Label)
    requires Inv(c, s) && Enabled(s, l) && WakePending(s.worker) && WakePending(Apply(c, s, l).worker)
    ensures var t := Apply(c, s, l);
      WakeRank(t.worker) <= WakeRank(s.worker) && (l.WorkerGo? ==> WakeRank(t.worker) < WakeRank(s.worker))
  {
    if l.ReaderDoes? {
      ReaderFrame(c, s, l.r, l.act);
    }
  }

  ghost predicate PendingFrom(st: nat -> State, i: nat) {
    forall j: nat | i <= j :: WakePending(st(j).worker)
  }

  lemma WakeFalls(c: Config, st: nat -> State, lb: nat -> Label, i: nat)
    requires IsRun(c, st, lb) && WakePending(st(i).worker) && WakePending(st(i + 1).worker)
    ensures FallsAt(WakeRanks(st), i)
    ensures lb(i).WorkerGo? ==> WakeRanks(st)(i + 1) < WakeRanks(st)(i)
  {
    RunInv(c, st, lb, i);
    StepIs(c, st, lb, i);
    WakeStep(c, st(i), lb(i));
  }

  lemma WakeComes(c: Config, st: nat -> State, lb: nat -> Label, r: nat, k: nat, i: nat)
    requires FairRun(c, st, lb, r, k)
    ensures !PendingFrom(st, i)
  {
    if PendingFrom(st, i) {
      forall m: nat | i <= m ensures DropsAfter(WakeRanks(st), m) {
        forall p: nat ensures EnabledAfter(st, WorkerGo, p) {
          assert Enabled(st(if p > i then p else i), WorkerGo);
        }
        assert TakenAfter(lb, WorkerGo, m);
        var j: nat :| j >= m && lb(j) == WorkerGo;
        forall p: nat | m <= p < j ensures FallsAt(WakeRanks(st), p) {
          WakeFalls(c, st, lb, p);
        }
        FallsFar(WakeRanks(st), m, j);
        WakeFalls(c, st, lb, j);
        assert WakeRanks(st)(j + 1) < WakeRanks(st)(m);
      }
      NoEndlessDescent(WakeRanks(st), i);
    }
  }

  lemma NeverQuiet(c: Config, st: nat -> State, lb: nat -> Label, r: nat, k: nat, i: nat)
    requires FairRun(c, st, lb, r, k) && StillFrom(st, lb, i) && RingLen(st(i)) > 0
    ensures !Quiet(lb, r, i)
  {
    if Quiet(lb, r, i) {
      forall j: nat | i <= j ensures WakePending(st(j).worker) {
        assert Quiet(lb, r, j);
        QuietMeansAsleep(c, st, lb, r, k, j);
        RunInv(c, st, lb, j);
        RingStandsStill(c, st, lb, i, j);
        RingShows(c, st(j));
        assert Restful(c, st(j), st(j).readers[r]);
      }
      WakeComes(c, st, lb, r, k, i);
    }
  }

  lemma AskDrops(c: Config, st: nat -> State, lb: nat -> Label, r: nat, k: nat, i: nat)
    requires FairRun(c, st, lb, r, k) && k <= i && StillFrom(st, lb, i) && RingLen(st(i)) > 0
    ensures DropsAfter(AskRanks(st, r), i)
  {
    NeverQuiet(c, st, lb, r, k, i);
    var j: nat :| i <= j && DoneBy(lb(j), r);
    forall m: nat | i <= m <= j ensures FallsAt(AskRanks(st, r), m) {
      RingStandsStill(c, st, lb, i, m);
      assert StillFrom(st, lb, m);
      AskFalls(c, st, lb, r, k, m);
    }
    FallsFar(AskRanks(st, r), i, j);
    RingStandsStill(c, st, lb, i, j);
    assert StillFrom(st, lb, j);
    AskFalls(c, st, lb, r, k, j);
    assert AskRanks(st, r)(j + 1) < AskRanks(st, r)(i);
  }

  /** As long as the ring holds undelivered bytes, bytes keep moving. */
  lemma FullRingMoves(c: Config, st: nat -> State, lb: nat -> Label, r: nat, k: nat, i: nat)
    requires FairRun(c, st, lb, r, k) && k <= i && StillFrom(st, lb, i)
    ensures RingLen(st(i)) <= 0
  {
    if RingLen(st(i)) > 0 {
      forall m: nat | i <= m ensures DropsAfter(AskRanks(st, r), m) {
        RingStandsStill(c, st, lb, i, m);
        assert StillFrom(st, lb, m);
        AskDrops(c, st, lb, r, k, m);
      }
      NoEndlessDescent(AskRanks(st, r), i);
    }
  }

  // An empty ring: sender and worker bring the next chunk.

  function FeedRank(c: Config, s: State): nat {
    if !s.ready then 40 + SenderRank(c, s)
    else
      match s.worker
      case WStore(i, size) => if i < size then 5 else c.m + 103
      case WWrap(i, size) => if i + 1 < size then 6 else c.m + 104
      case WWake => c.m + 102
      case WClear => c.m + 101
      case WGiveUp => 21
      case WIdle => 20
      case WLock => 19
      case WSize => 18
      case WCheck(_) => 17
  }

  /** Which process brings the next chunk closer. */
  function Feeder(s: State): Label {
    if s.ready then WorkerGo else SenderGo
  }

  lemma UnreadySenderGoes(c: Config, s: State)
    requires Inv(c, s) && RingLen(s) <= 0 && !Complete(c, s) && !s.ready
    ensures Enabled(s, SenderGo)
    ensures s.sender.STest? ==> s.pos < |c.file|
  {
  }

  lemma SenderFeeds(c: Config, s: State)
    requires Typed(c, s) && MailOk(c, s) && Enabled(s, SenderGo) && !MovesBytes(s, SenderGo)
    requires !s.ready && s.worker.WIdle? && (s.sender.STest? ==> s.pos < |c.file|)
    ensures FeedRank(c, SenderApply(c, s)) < FeedRank(c, s)
  {
  }

  lemma ReadySenderKeeps(c: Config, s: State)
    requires Typed(c, s) && MailOk(c, s) && Enabled(s, SenderGo) && s.ready
    ensures FeedRank(c, SenderApply(c, s)) == FeedRank(c, s)
  {
  }

  lemma WorkerFeeds(c: Config, s: State)
    requires Inv(c, s) && RingLen(s) <= 0 && Fits(c) && Enabled(s, WorkerGo) && !MovesBytes(s, WorkerGo)
    ensures FeedRank(c, WorkerApply(c, s)) <= FeedRank(c, s)
    ensures s.ready ==> FeedRank(c, WorkerApply(c, s)) < FeedRank(c, s)
  {
    if s.worker.WCheck? {
      assert InFlight(s) == 0 && |Contents(s.buf, s.rp, s.wp)| == RingLen(s);
      SpaceAccounting(s.buf, s.rp, s.wp);
    }
  }

  lemma ReaderKeepsFeed(c: Config, s: State, q: nat, act: ReaderAct)
    requires Typed(c, s) && q < |s.readers| && ReaderEnabled(s, q, act)
    ensures FeedRank(c, ReaderApply(c, s, q, act)) == FeedRank(c, s)
  {
    ReaderFrame(c, s, q, act);
  }

  lemma SenderKeepsFeed(c: Config, s: State)
    requires Inv(c, s) && RingLen(s) <= 0 && !Complete(c, s) && Enabled(s, SenderGo) && !MovesBytes(s, SenderGo)
    ensures FeedRank(c, SenderApply(c, s)) <= FeedRank(c, s)
    ensures !s.ready ==> FeedRank(c, SenderApply(c, s)) < FeedRank(c, s)
  {
    if s.ready {
      ReadySenderKeeps(c, s);
    } else {
      UnreadySenderGoes(c, s);
      SenderFeeds(c, s);
    }
  }

  lemma FeedStep(c: Config, s: State, l: Label)
    requires Inv(c, s) && RingLen(s) <= 0 && Fits(c) && !Complete(c, s)
    requires Enabled(s, l) && Calm(l) && !MovesBytes(s, l)
    ensures FeedRank(c, Apply(c, s, l)) <= FeedRank(c, s)
    ensures l == Feeder(s) ==> FeedRank(c, Apply(c, s, l)) < FeedRank(c, s)
  {
    match l
    case SenderGo => SenderKeepsFeed(c, s);
    case WorkerGo => WorkerFeeds(c, s);
    case WorkerInterrupted =>
    case ReaderDoes(q, act) => ReaderKeepsFeed(c, s, q, act);
  }

  ghost function FeedRanks(c: Config, st: nat -> State): nat -> nat {
    (i: nat) => FeedRank(c, st(i))
  }

  ghost predicate NeverComplete(c: Config, st: nat -> State) {
    forall i: nat :: !Complete(c, st(i))
  }

  lemma FeedFalls(c: Config, st: nat -> State, lb: nat -> Label, r: nat, k: nat, i: nat)
    requires FairRun(c, st, lb, r, k) && Fits(c) && NeverComplete(c, st)
    requires k <= i && StillFrom(st, lb, i)
    ensures FallsAt(FeedRanks(c, st), i)
    ensures lb(i) == Feeder(st(i)) ==> FeedRanks(c, st)(i + 1) < FeedRanks(c, st)(i)
    ensures !st(i).ready ==> Enabled(st(i), SenderGo)
  {
    RunInv(c, st, lb, i);
    StepIs(c, st, lb, i);
    FullRingMoves(c, st, lb, r, k, i);
    if !st(i).ready {
      UnreadySenderGoes(c, st(i));
    }
    FeedStep(c, st(i), lb(i));
  }

  /** The rank tells whether the flag is set. */
  lemma SameRankSameFeeder(c: Config, s: State, t: State)
    requires Inv(c, s) && Inv(c, t) && FeedRank(c, s) == FeedRank(c, t)
    ensures Feeder(s) == Feeder(t)
  {
  }

  lemma {:induction false} FeedFallsFar(c: Config, st: nat -> State, lb: nat -> Label, r: nat, k: nat, i: nat, j: nat)
    requires FairRun(c, st, lb, r, k) && Fits(c) && NeverComplete(c, st)
    requires k <= i <= j && StillFrom(st, lb, i)
    ensures FeedRanks(c, st)(j) <= FeedRanks(c, st)(i)
  {
    forall p: nat | i <= p < j ensures FallsAt(FeedRanks(c, st), p) {
      assert StillFrom(st, lb, p);
      FeedFalls(c, st, lb, r, k, p);
    }
    FallsFar(FeedRanks(c, st), i, j);
  }

  ghost predicate SameFeederFrom(st: nat -> State, i: nat) {
    forall m: nat | i <= m :: Feeder(st(m)) == Feeder(st(i))
  }

  lemma SameFeederUnlessDrop(c: Config, st: nat -> State, lb: nat -> Label, r: nat, k: nat, i: nat)
    requires FairRun(c, st, lb, r, k) && Fits(c) && NeverComplete(c, st)
    requires k <= i && StillFrom(st, lb, i)
    ensures DropsAfter(FeedRanks(c, st), i) || SameFeederFrom(st, i)
  {
    if !DropsAfter(FeedRanks(c, st), i) {
      forall m: nat | i <= m ensures Feeder(st(m)) == Feeder(st(i)) {
        FeedFallsFar(c, st, lb, r, k, i, m);
        assert FeedRanks(c, st)(m) == FeedRanks(c, st)(i);
        RunInv(c, st, lb, i);
        RunInv(c, st, lb, m);
        SameRankSameFeeder(c, st(i), st(m));
      }
    }
  }

  lemma SameFeederIsTaken(c: Config, st: nat -> State, lb: nat -> Label, r: nat, k: nat, i: nat)
    requires FairRun(c, st, lb, r, k) && Fits(c) && NeverComplete(c, st)
    requires k <= i && StillFrom(st, lb, i) && SameFeederFrom(st, i)
    ensures DropsAfter(FeedRanks(c, st), i)
  {
    var feeder := Feeder(st(i));
    forall m: nat ensures EnabledAfter(st, feeder, m) {
      var j := FreeAfter(c, st, lb, r, k, if m > i then m else i);
      assert StillFrom(st, lb, j) && Feeder(st(j)) == feeder;
      FeedFalls(c, st, lb, r, k, j);
      assert Enabled(st(j), feeder);
    }
    assert TakenAfter(lb, feeder, i);
    var j: nat :| j >= i && lb(j) == feeder;
    assert StillFrom(st, lb, j) && Feeder(st(j)) == feeder;
    FeedFalls(c, st, lb, r, k, j);
    FeedFallsFar(c, st, lb, r, k, i, j);
    assert FeedRanks(c, st)(j + 1) < FeedRanks(c, st)(i);
  }

  lemma FeedDrops(c: Config, st: nat -> State, lb: nat -> Label, r: nat, k: nat, i: nat)
    requires FairRun(c, st, lb, r, k) && Fits(c) && NeverComplete(c, st)
    requires k <= i && StillFrom(st, lb, i)
    ensures DropsAfter(FeedRanks(c, st), i)
  {
    SameFeederUnlessDrop(c, st, lb, r, k, i);
    if SameFeederFrom(st, i) {
      SameFeederIsTaken(c, st, lb, r, k, i);
    }
  }

  /** Liveness: every fair run reaches a state in which the whole file has been delivered. */
  lemma FairRunDelivers(c: Config, st: nat -> State, lb: nat -> Label, r: nat, k: nat)
    requires FairRun(c, st, lb, r, k) && Fits(c)
    ensures exists i: nat :: Complete(c, st(i))
  {
    if NeverComplete(c, st) {
      var from := EventuallyStill(c, st, lb, k);
      forall i: nat | from <= i ensures DropsAfter(FeedRanks(c, st), i) {
        assert StillFrom(st, lb, i);
        FeedDrops(c, st, lb, r, k, i);
      }
      NoEndlessDescent(FeedRanks(c, st), from);
    }
  }

  lemma BlockedRunStep(c: Config, st: nat -> State, lb: nat -> Label, i: nat)
    requires IsRun(c, st, lb) && !Fits(c) && Blocked(c, st(i))
    ensures Blocked(c, st(i + 1))
  {
    StepIs(c, st, lb, i);
    BlockedStays(c, st(i), lb(i));
  }

  lemma BlockedAtFirst(c: Config, s: State)
    requires Init(c, s)
    ensures Blocked(c, s)
  {
    InitInv(c, s);
  }

  lemma {:induction false} RunStaysBlocked(c: Config, st: nat -> State, lb: nat -> Label, i: nat)
    requires IsRun(c, st, lb) && !Fits(c)
    ensures Blocked(c, st(i))
  {
    if i == 0 {
      BlockedAtFirst(c, st(0));
    } else {
      RunStaysBlocked(c, st, lb, i - 1);
      BlockedRunStep(c, st, lb, i - 1);
    }
  }

  /** The dichotomy: a fair run delivers the file if the first chunk leaves one slot of the ring free,
      and not a single byte of it otherwise. */
  lemma FairRunDeliversIff(c: Config, st: nat -> State, lb: nat -> Label, r: nat, k: nat)
    requires FairRun(c, st, lb, r, k)
    ensures (exists i: nat :: Complete(c, st(i))) <==> Fits(c)
    ensures !Fits(c) ==> forall i: nat :: Delivered(st(i)) == []
  {
    if Fits(c) {
      FairRunDelivers(c, st, lb, r, k);
    } else {
      forall i: nat ensures Delivered(st(i)) == [] {
        RunStaysBlocked(c, st, lb, i);
      }
    }
  }
}
