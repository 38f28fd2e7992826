/** Fair runs exist: for every file whose first chunk fits, some schedule is fair to everybody, so
    the liveness theorem is about something. */
module PipelineFairRuns {
  import opened Ring
  import opened Pipeline
  import opened PipelineSafety
  import opened PipelineTheorems
  import opened PipelineProgress
  import opened PipelineFairness

  /** The steps of a schedule in which only reader 0 reads, a byte at a time, undisturbed. */
  predicate Steady(l: Label) {
    l == SenderGo || l == WorkerGo || l == ReaderDoes(0, Go) || l == ReaderDoes(0, Call(1))
  }

  predicate Alone(c: Config, s: State) {
    && |s.readers| == c.readers > 0
    && (forall q | 1 <= q < |s.readers| :: s.readers[q] == Reader(Idle, false))
    && !ZeroCall(s.readers[0].pc)
    && Unsignalled(s.readers[0].pc)
  }

  lemma HolderLeavesNoCheck(c: Config, s: State, act: ReaderAct)
    requires Typed(c, s) && s.readers != [] && ReaderHolds(s.readers[0].pc) && ReaderEnabled(s, 0, act)
    ensures var pc := ReaderApply(c, s, 0, act).readers[0].pc;
      !pc.WaitCheck? && !pc.WaitCheckThen?
  {
  }

  lemma StaysUnsignalled(c: Config, s: State, act: ReaderAct)
    requires Typed(c, s) && s.readers != [] && Unsignalled(s.readers[0].pc)
    requires !act.Signal? && ReaderEnabled(s, 0, act)
    ensures Unsignalled(ReaderApply(c, s, 0, act).readers[0].pc)
  {
    var pc := s.readers[0].pc;
    if ReaderHolds(pc) {
      HolderLeavesNoCheck(c, s, act);
    }
  }

  lemma AloneReader(c: Config, s: State, act: ReaderAct)
    requires Typed(c, s) && Alone(c, s) && Steady(ReaderDoes(0, act)) && ReaderEnabled(s, 0, act)
    ensures Alone(c, ReaderApply(c, s, 0, act))
  {
    ReaderFrame(c, s, 0, act);
    ZeroCallStep(c, s, act, 0);
    StaysUnsignalled(c, s, act);
  }

  lemma AloneStep(c: Config, s: State, l: Label)
    requires Typed(c, s) && Alone(c, s) && Steady(l) && Enabled(s, l)
    ensures Alone(c, Apply(c, s, l))
  {
    if l.ReaderDoes? {
      AloneReader(c, s, l.act);
    }
  }

  lemma OnlyZeroHolds(c: Config, s: State)
    requires Inv(c, s) && Alone(c, s)
    ensures s.lock.ByReader? ==> s.lock.r == 0
  {
    assert s.lock.ByReader? ==> ReaderHolds(s.readers[s.lock.r].pc);
  }

  lemma HelpfulIsSteady(c: Config, s: State)
    requires Inv(c, s) && Alone(c, s)
    ensures Steady(Helpful(c, s))
  {
    OnlyZeroHolds(c, s);
  }

  // After completion everybody comes to rest.

  /** Everything is sent and read, and reader 0 sleeps on the empty ring. */
  predicate Settled(c: Config, s: State) {
    && Inv(c, s) && Alone(c, s)
    && s.sender.SDone? && s.worker.WIdle? && !s.ready
    && s.readers[0].pc.Asleep? && s.readers[0].queued
  }

  function Settling(c: Config, s: State): Label
    requires Inv(c, s) && Alone(c, s)
  {
    if !s.worker.WIdle? && !s.lock.ByReader? then WorkerGo
    else if !s.sender.SDone? then SenderGo
    else ReaderDoes(0, if s.readers[0].pc.Idle? then Call(1) else Go)
  }

  /** A loaded index that differs from the other sends the reader through the wait loop once more. */
  function ReaderRest(second: nat, reader: Reader): nat {
    match reader.pc
    case CopyOut(_, _) => 24
    case Advance(_) => 23
    case WrapRp => 22
    case Unlock => 21
    case FaultUnlock => 21
    case Idle => 19
    case Dequeue(_) => 18
    case WantLock(_) => 17
    case Test(_) => 16
    case EmptyUnlock(_) => 15
    case WaitFast(_) => 14
    case WaitFastThen(_, loaded) => if loaded == second then 13 else 20
    case Enqueue(_) => 9
    case WaitCheck(_, _) => if reader.queued then 8 else 12
    case WaitCheckThen(_, _, loaded) => if loaded != second then 20 else if reader.queued then 7 else 11
    case Asleep(_) => if reader.queued then 0 else 10
  }

  function WorkerRest(s: State): nat {
    match s.worker
    case WWrap(_, _) => 4
    case WStore(_, _) => 3
    case WWake => 2
    case WClear => 1
    case _ => 0
  }

  function SenderRest(s: State): nat {
    match s.sender
    case SStart => 2
    case STest => 1
    case _ => 0
  }

  function Unrest(c: Config, s: State): nat
    requires s.readers != []
  {
    30 * WorkerRest(s) + 30 * SenderRest(s) + ReaderRest(Second(c, s), s.readers[0])
  }

  /** When everything is delivered, the sender is past its last chunk, the worker at most in the tail
      of one, and the ring is empty. */
  lemma CompleteShape(c: Config, s: State)
    requires Inv(c, s) && Alone(c, s) && Complete(c, s)
    ensures s.sender.SStart? || s.sender.STest? || s.sender.SDone?
    ensures s.pos == |c.file|
    ensures s.ready ==> s.worker.WWake? || s.worker.WClear?
                        || (s.worker.WStore? && s.worker.i == s.worker.size)
                        || (s.worker.WWrap? && s.worker.i + 1 == s.worker.size)
    ensures InFlight(s) == 0 ==> Used(c.n, s.rp, s.wp) == 0
    ensures !s.readers[0].pc.CopyOut?
  {
    AbstractByPosition(c, s);
    assert OwnedLen(s) == 0 && RingLen(s) == 0;
    assert |Contents(s.buf, s.rp, s.wp)| == InFlight(s);
    var pc := s.readers[0].pc;
    assert ReaderOk(c, s, pc) && (ReaderHolds(pc) <==> s.lock == ByReader(0));
  }

  lemma CompleteStays(c: Config, s: State, l: Label)
    requires Inv(c, s) && Complete(c, s) && Enabled(s, l)
    ensures Inv(c, Apply(c, s, l)) && Complete(c, Apply(c, s, l))
  {
    StepKeeps(c, s, l);
    CountersMoveAlone(c, s, l);
    AbstractByPosition(c, s);
    AbstractByPosition(c, Apply(c, s, l));
    assert c.file[..|c.file|] == c.file;
  }

  lemma RestingHolder(c: Config, s: State)
    requires Typed(c, s) && Alone(c, s) && !s.readers[0].pc.CopyOut? && ReaderHolds(s.readers[0].pc)
    requires s.readers[0].pc.Test? ==> s.rp == s.wp
    ensures var t := ReaderGo(c, s, 0);
      ReaderRest(Second(c, t), t.readers[0]) < ReaderRest(Second(c, s), s.readers[0])
  {
  }

  lemma RestingReader(c: Config, s: State)
    requires Typed(c, s) && Alone(c, s) && !s.readers[0].pc.CopyOut? && !s.lock.ByWorker?
    requires s.readers[0].pc.Test? || s.readers[0].pc.WaitFast? || s.readers[0].pc.WaitCheck? ==> s.rp == s.wp
    requires !(s.readers[0].pc.Asleep? && s.readers[0].queued)
    requires s.lock.Free? || ReaderHolds(s.readers[0].pc)
    ensures var act := if s.readers[0].pc.Idle? then Call(1) else Go;
      && ReaderEnabled(s, 0, act)
      && var t := ReaderApply(c, s, 0, act);
      ReaderRest(Second(c, t), t.readers[0]) < ReaderRest(Second(c, s), s.readers[0])
  {
    if ReaderHolds(s.readers[0].pc) {
      RestingHolder(c, s);
    }
  }

  lemma RestingWorker(c: Config, s: State)
    requires Inv(c, s) && Alone(c, s) && Complete(c, s) && !s.worker.WIdle? && !s.lock.ByReader?
    ensures Enabled(s, WorkerGo) && Unrest(c, WorkerApply(c, s)) < Unrest(c, s)
  {
    CompleteShape(c, s);
    assert s.ready;
  }

  lemma RestingSender(c: Config, s: State)
    requires Inv(c, s) && Alone(c, s) && Complete(c, s) && !s.sender.SDone?
    ensures Enabled(s, SenderGo) && Unrest(c, SenderApply(c, s)) < Unrest(c, s)
  {
    CompleteShape(c, s);
  }

  lemma ReaderActs(c: Config, s: State)
    requires Inv(c, s) && Alone(c, s) && Complete(c, s) && !Settled(c, s)
    requires s.sender.SDone? && (s.worker.WIdle? || s.lock.ByReader?)
    ensures var act := if s.readers[0].pc.Idle? then Call(1) else Go;
      && ReaderEnabled(s, 0, act)
      && var t := ReaderApply(c, s, 0, act);
      ReaderRest(Second(c, t), t.readers[0]) < ReaderRest(Second(c, s), s.readers[0])
  {
    CompleteShape(c, s);
    var pc := s.readers[0].pc;
    assert ReaderHolds(pc) <==> s.lock == ByReader(0);
    OnlyZeroHolds(c, s);
    if pc.Test? || pc.WaitFast? || pc.WaitCheck? {
      assert InFlight(s) == 0 && s.rp < c.n;
    }
    RestingReader(c, s);
  }

  lemma ReaderSettles(c: Config, s: State)
    requires Inv(c, s) && Alone(c, s) && Complete(c, s) && !Settled(c, s)
    requires s.sender.SDone? && (s.worker.WIdle? || s.lock.ByReader?)
    ensures var act := if s.readers[0].pc.Idle? then Call(1) else Go;
      ReaderEnabled(s, 0, act) && Unrest(c, ReaderApply(c, s, 0, act)) < Unrest(c, s)
  {
    ReaderActs(c, s);
    ReaderFrame(c, s, 0, if s.readers[0].pc.Idle? then Call(1) else Go);
  }

  lemma SettlingStep(c: Config, s: State)
    requires Inv(c, s) && Alone(c, s) && Complete(c, s) && !Settled(c, s)
    ensures var l := Settling(c, s);
      && Steady(l) && Enabled(s, l)
      && var t := Apply(c, s, l);
      Inv(c, t) && Alone(c, t) && Complete(c, t) && Unrest(c, t) < Unrest(c, s)
  {
    var l := Settling(c, s);
    if l.WorkerGo? {
      RestingWorker(c, s);
    } else if l.SenderGo? {
      RestingSender(c, s);
    } else {
      ReaderSettles(c, s);
    }
    CompleteStays(c, s, l);
    AloneStep(c, s, l);
  }

  ghost predicate AllSteady(labels: seq<Label>) {
    forall l | l in labels :: Steady(l)
  }

  lemma {:induction false} SettlesFrom(c: Config, s: State) returns (labels: seq<Label>, q: State)
    requires Inv(c, s) && Alone(c, s) && Complete(c, s)
    ensures Leads(c, s, labels, q) && Settled(c, q) && AllSteady(labels)
    decreases Unrest(c, s)
  {
    if Settled(c, s) {
      return [], s;
    }
    SettlingStep(c, s);
    var l := Settling(c, s);
    var rest, last := SettlesFrom(c, Apply(c, s, l));
    assert ([l] + rest)[1..] == rest;
    return [l] + rest, last;
  }

  /** A steady schedule that delivers the file and then comes to rest. */
  lemma {:induction false} DeliversAndSettles(c: Config, s: State) returns (labels: seq<Label>, q: State)
    requires Inv(c, s) && Alone(c, s) && Fits(c)
    ensures Leads(c, s, labels, q) && Settled(c, q) && AllSteady(labels)
    decreases Weight(c, s), Rank(c, s)
  {
    if Complete(c, s) {
      labels, q := SettlesFrom(c, s);
      return;
    }
    SomethingHelps(c, s);
    var l := Helpful(c, s);
    HelpfulIsSteady(c, s);
    AloneStep(c, s, l);
    WeightStep(c, s, l);
    var rest, last := DeliversAndSettles(c, Apply(c, s, l));
    assert ([l] + rest)[1..] == rest;
    return [l] + rest, last;
  }

  // A finite schedule that ends at rest, continued by idle polls, is a fair run.

  ghost function StateAt(c: Config, s: State, labels: seq<Label>, i: nat): State
    decreases i
  {
    if i == 0 || labels == [] || !Typed(c, s) || !Enabled(s, labels[0]) then s
    else StateAt(c, Apply(c, s, labels[0]), labels[1..], i - 1)
  }

  function LabelAt(labels: seq<Label>, i: nat): Label {
    if i < |labels| then labels[i] else WorkerGo
  }

  lemma {:induction false} StateAtEnd(c: Config, s: State, labels: seq<Label>, q: State, i: nat)
    requires Leads(c, s, labels, q) && i >= |labels|
    ensures StateAt(c, s, labels, i) == q
    decreases i
  {
    if labels != [] {
      StateAtEnd(c, Apply(c, s, labels[0]), labels[1..], q, i - 1);
    }
  }

  lemma {:induction false} StateAtStep(c: Config, s: State, labels: seq<Label>, q: State, i: nat)
    requires Leads(c, s, labels, q) && Settled(c, q)
    ensures Next(c, StateAt(c, s, labels, i), LabelAt(labels, i), StateAt(c, s, labels, i + 1))
    decreases i
  {
    if i >= |labels| {
      StateAtEnd(c, s, labels, q, i);
      StateAtEnd(c, s, labels, q, i + 1);
    } else if i > 0 {
      StateAtStep(c, Apply(c, s, labels[0]), labels[1..], q, i - 1);
      assert LabelAt(labels[1..], i - 1) == LabelAt(labels, i);
    }
  }

  ghost function States(c: Config, s: State, labels: seq<Label>): nat -> State {
    (i: nat) => StateAt(c, s, labels, i)
  }

  ghost function Labels(labels: seq<Label>): nat -> Label {
    (i: nat) => LabelAt(labels, i)
  }

  lemma PaddedIsRun(c: Config, s: State, labels: seq<Label>, q: State)
    requires Init(c, s) && Leads(c, s, labels, q) && Settled(c, q)
    ensures IsRun(c, States(c, s, labels), Labels(labels))
  {
    forall i: nat ensures StepAt(c, States(c, s, labels), Labels(labels), i) {
      StateAtStep(c, s, labels, q, i);
    }
  }

  /** A label that is impossible at rest is not possible again and again. */
  lemma RestIsFair(c: Config, s: State, labels: seq<Label>, q: State, l: Label)
    requires Leads(c, s, labels, q) && (l == WorkerGo || !Enabled(q, l))
    ensures StronglyFair(States(c, s, labels), Labels(labels), l)
  {
    var st, lb := States(c, s, labels), Labels(labels);
    if l == WorkerGo {
      forall i: nat ensures TakenAfter(lb, l, i) {
        assert lb(i + |labels|) == WorkerGo;
      }
    } else {
      forall j: nat | j >= |labels| ensures !Enabled(st(j), l) {
        StateAtEnd(c, s, labels, q, j);
      }
      assert !EnabledAfter(st, l, |labels|);
    }
  }

  lemma IdleUntilCall(c: Config, st: nat -> State, lb: nat -> Label, r: nat, i: nat)
    requires IsRun(c, st, lb) && r < |st(i).readers| && st(i).readers[r].pc.Idle? && !Calls(lb(i), r)
    ensures r < |st(i + 1).readers| && st(i + 1).readers[r].pc.Idle?
  {
    StepIs(c, st, lb, i);
    OthersLeaveAloneIdle(c, st(i), lb(i), r);
  }

  /** A reader that is idle now and not at the end has called in between. */
  lemma {:induction false} IdleCalls(c: Config, st: nat -> State, lb: nat -> Label, r: nat, i: nat, end: nat) returns (j: nat)
    requires IsRun(c, st, lb) && i <= end
    requires r < |st(i).readers| && st(i).readers[r].pc.Idle?
    requires r < |st(end).readers| && !st(end).readers[r].pc.Idle?
    ensures j >= i && Calls(lb(j), r)
    decreases end - i
  {
    if Calls(lb(i), r) {
      return i;
    }
    IdleUntilCall(c, st, lb, r, i);
    j := IdleCalls(c, st, lb, r, i + 1, end);
  }

  lemma OthersLeaveAloneIdle(c: Config, s: State, l: Label, r: nat)
    requires Typed(c, s) && Enabled(s, l) && r < |s.readers| && s.readers[r].pc.Idle? && !Calls(l, r)
    ensures |Apply(c, s, l).readers| == |s.readers| && Apply(c, s, l).readers[r].pc.Idle?
  {
    if !DoneBy(l, r) {
      OthersLeaveAlone(c, s, l, r);
    }
  }

  lemma PaddedKeepsCalling(c: Config, s: State, labels: seq<Label>, q: State, i: nat)
    requires Init(c, s) && Leads(c, s, labels, q) && Settled(c, q)
    requires var st := States(c, s, labels);
      0 < |st(i).readers| && st(i).readers[0].pc.Idle?
    ensures exists j: nat :: j >= i && Calls(Labels(labels)(j), 0)
  {
    PaddedIsRun(c, s, labels, q);
    StateAtEnd(c, s, labels, q, |labels|);
    if i >= |labels| {
      StateAtEnd(c, s, labels, q, i);
    } else {
      var j := IdleCalls(c, States(c, s, labels), Labels(labels), 0, i, |labels|);
    }
  }

  lemma PaddedIsSteady(labels: seq<Label>, i: nat)
    requires AllSteady(labels)
    ensures Steady(Labels(labels)(i))
  {
    if i < |labels| {
      assert labels[i] in labels;
    }
  }

  lemma PaddedIsFair(c: Config, s: State, labels: seq<Label>, q: State)
    requires Init(c, s) && Leads(c, s, labels, q) && Settled(c, q) && AllSteady(labels)
    ensures FairRun(c, States(c, s, labels), Labels(labels), 0, 0)
  {
    var st, lb := States(c, s, labels), Labels(labels);
    PaddedIsRun(c, s, labels, q);
    RestIsFair(c, s, labels, q, SenderGo);
    RestIsFair(c, s, labels, q, WorkerGo);
    forall p | 0 <= p < c.readers ensures StronglyFair(st, lb, ReaderDoes(p, Go)) {
      assert !Enabled(q, ReaderDoes(p, Go));
      RestIsFair(c, s, labels, q, ReaderDoes(p, Go));
    }
    forall i: nat ensures Calm(lb(i)) && (Calls(lb(i), 0) ==> lb(i).act.want > 0) {
      PaddedIsSteady(labels, i);
    }
    forall i: nat | 0 < |st(i).readers| && st(i).readers[0].pc.Idle? ensures exists j: nat :: j >= i && Calls(lb(j), 0) {
      PaddedKeepsCalling(c, s, labels, q, i);
    }
  }

  /** For every configuration with a reader and a first chunk that fits, there is a fair run. */
  lemma FairRunsExist(c: Config, s: State)
    requires Init(c, s) && c.readers > 0 && Fits(c)
    ensures exists st, lb :: FairRun(c, st, lb, 0, 0)
  {
    InitInv(c, s);
    var labels, q := DeliversAndSettles(c, s);
    PaddedIsFair(c, s, labels, q);
  }
}
