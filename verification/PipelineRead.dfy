/** One `plat_dummy_read` on the step system: what a call does from its first step to its last when
    nothing interferes, and that over every run nobody is handed more than asked for. */
module PipelineRead {
  import opened Streams
  import opened Ring
  import opened Pipeline
  import opened PipelineSafety
  import opened PipelineFairness
  import opened PipelinePoll

  predicate OnlyGo(labels: seq<Label>, r: nat) {
    forall l | l in labels :: l == ReaderDoes(r, Go)
  }

  /** Steps of reader `r` alone, without signals and faults, lead from `s` to `t`. */
  ghost predicate Runs(c: Config, s: State, r: nat, labels: seq<Label>, t: State) {
    Leads(c, s, labels, t) && OnlyGo(labels, r)
  }

  lemma LeadsThen(c: Config, s: State, l: Label, rest: seq<Label>, t: State)
    requires Typed(c, s) && Enabled(s, l) && Leads(c, Apply(c, s, l), rest, t)
    ensures Leads(c, s, [l] + rest, t)
  {
    assert ([l] + rest)[1..] == rest;
  }

  lemma GoThen(c: Config, s: State, r: nat, rest: seq<Label>, t: State)
    requires Inv(c, s) && r < |s.readers| && ReaderEnabled(s, r, Go)
    requires Runs(c, ReaderGo(c, s, r), r, rest, t)
    ensures Runs(c, s, r, [ReaderDoes(r, Go)] + rest, t)
  {
    LeadsThen(c, s, ReaderDoes(r, Go), rest, t);
  }

  lemma One(c: Config, s: State, r: nat) returns (labels: seq<Label>)
    requires Inv(c, s) && r < |s.readers| && ReaderEnabled(s, r, Go)
    ensures Inv(c, ReaderGo(c, s, r)) && Runs(c, s, r, labels, ReaderGo(c, s, r))
  {
    ReaderKeeps(c, s, r, Go);
    var t := ReaderGo(c, s, r);
    assert Runs(c, t, r, [], t);
    GoThen(c, s, r, [], t);
    labels := [ReaderDoes(r, Go)] + [];
  }

  lemma RunsOn(c: Config, s: State, r: nat, first: seq<Label>, t: State, second: seq<Label>, u: State)
    requires Runs(c, s, r, first, t) && Runs(c, t, r, second, u)
    ensures Runs(c, s, r, first + second, u)
  {
    LeadsOn(c, s, first, t, second, u);
  }

  // On the way into the mutex.

  /** Between the call and the mutex. */
  predicate Awaits(pc: ReaderPc) {
    !ReaderHolds(pc) && !pc.Idle?
  }

  predicate CanGo(reader: Reader) {
    Awaits(reader.pc) && Unsignalled(reader.pc) && !(reader.pc.Asleep? && reader.queued)
  }

  lemma AwaitStep(c: Config, s: State, r: nat)
    requires Typed(c, s) && r < |s.readers| && s.lock.Free? && s.rp != s.wp && CanGo(s.readers[r])
    requires s.readers[r].queued && s.readers[r].pc.WaitCheckThen? ==> s.readers[r].pc.loaded != Second(c, s)
    ensures ReaderEnabled(s, r, Go)
    ensures var t := ReaderGo(c, s, r);
      var pc, pc' := s.readers[r].pc, t.readers[r].pc;
      && t == To(s, r, pc', t.readers[r].queued, t.lock)
      && if pc.WantLock? then t.lock == ByReader(r) && t.readers[r] == Reader(Test(pc.want), s.readers[r].queued)
         else t.lock.Free? && CanGo(t.readers[r]) && pc'.want == pc.want && AskRank(t.readers[r]) < AskRank(s.readers[r])
  {
  }

  lemma ToTo(s: State, r: nat, a: Reader, lock: Lock, b: Reader, lock': Lock)
    requires r < |s.readers|
    ensures To(To(s, r, a.pc, a.queued, lock), r, b.pc, b.queued, lock') == To(s, r, b.pc, b.queued, lock')
  {
    assert s.readers[r := a][r := b] == s.readers[r := b];
  }

  /** With data in the ring a waiting reader gets to the test under the mutex, wherever it waits, and
      has not changed anything but its own place. */
  lemma {:induction false} ReachesTest(c: Config, s: State, r: nat) returns (labels: seq<Label>, t: State)
    requires Inv(c, s) && r < |s.readers| && s.lock.Free? && s.rp != s.wp
    requires CanGo(s.readers[r]) && (WakePending(s.worker) ==> s.readers[r].pc.WantLock?)
    ensures Runs(c, s, r, labels, t) && Inv(c, t)
    ensures t == To(s, r, Test(s.readers[r].pc.want), t.readers[r].queued, ByReader(r))
    ensures s.readers[r].pc.WantLock? ==> t.readers[r].queued == s.readers[r].queued
    decreases AskRank(s.readers[r])
  {
    assert Restful(c, s, s.readers[r]);
    AwaitStep(c, s, r);
    labels := One(c, s, r);
    t := ReaderGo(c, s, r);
    if !s.readers[r].pc.WantLock? {
      var next := t;
      var rest;
      rest, t := ReachesTest(c, next, r);
      ToTo(s, r, next.readers[r], next.lock, t.readers[r], t.lock);
      RunsOn(c, s, r, labels, next, rest, t);
      labels := labels + rest;
    }
  }

  // Inside the mutex.

  /** `t` is `s` after reader `r` was handed the first `k` bytes of the stream on a request for `want`. */
  predicate HandedOut(s: State, t: State, r: nat, want: nat, k: nat) {
    && k <= |Stream(s)|
    && t == s.(lock := Free, readers := t.readers, rp := t.rp, slices := t.slices, takers := t.takers)
    && t.slices == s.slices + [Stream(s)[..k]]
    && t.takers == s.takers + [Taker(r, want)]
    && Stream(t) == Stream(s)[k..]
  }

  /** As many bytes as were asked for, but not beyond the end of the buffer. */
  function Share(c: Config, s: State, want: nat): int {
    var contiguous := if s.wp > s.rp then s.wp - s.rp else c.n - s.rp;
    if want <= contiguous then want else contiguous
  }

  lemma LeavingStep(c: Config, s: State, r: nat)
    requires Typed(c, s) && r < |s.readers| && (s.readers[r].pc.Unlock? || s.readers[r].pc.FaultUnlock?)
    ensures ReaderEnabled(s, r, Go) && ReaderGo(c, s, r) == To(s, r, Idle, s.readers[r].queued, Free)
  {
  }

  lemma WrappingStep(c: Config, s: State, r: nat)
    requires Typed(c, s) && r < |s.readers| && s.readers[r].pc.WrapRp?
    ensures ReaderEnabled(s, r, Go)
    ensures ReaderGo(c, s, r) == To(s, r, Unlock, s.readers[r].queued, s.lock).(rp := Wrap(c.n, s.rp))
  {
  }

  lemma AdvancingStep(c: Config, s: State, r: nat)
    requires Typed(c, s) && r < |s.readers| && s.readers[r].pc.Advance?
    ensures ReaderEnabled(s, r, Go)
    ensures ReaderGo(c, s, r) == To(s, r, WrapRp, s.readers[r].queued, s.lock).(rp := s.rp + s.readers[r].pc.count)
  {
  }

  lemma FromUnlock(c: Config, s: State, r: nat) returns (labels: seq<Label>, t: State)
    requires Inv(c, s) && r < |s.readers| && (s.readers[r].pc.Unlock? || s.readers[r].pc.FaultUnlock?)
    ensures Runs(c, s, r, labels, t) && Inv(c, t)
    ensures t == To(s, r, Idle, s.readers[r].queued, Free)
  {
    LeavingStep(c, s, r);
    labels := One(c, s, r);
    t := To(s, r, Idle, s.readers[r].queued, Free);
  }

  lemma FromWrap(c: Config, s: State, r: nat) returns (labels: seq<Label>, t: State)
    requires Inv(c, s) && r < |s.readers| && s.readers[r].pc.WrapRp?
    ensures Runs(c, s, r, labels, t) && Inv(c, t)
    ensures t == To(s, r, Idle, s.readers[r].queued, Free).(rp := Wrap(c.n, s.rp))
  {
    WrappingStep(c, s, r);
    var first := One(c, s, r);
    var next := To(s, r, Unlock, s.readers[r].queued, s.lock).(rp := Wrap(c.n, s.rp));
    var rest;
    rest, t := FromUnlock(c, next, r);
    RunsOn(c, s, r, first, next, rest, t);
    labels := first + rest;
  }

  lemma FromAdvance(c: Config, s: State, r: nat) returns (labels: seq<Label>, t: State)
    requires Inv(c, s) && r < |s.readers| && s.readers[r].pc.Advance?
    ensures Runs(c, s, r, labels, t) && Inv(c, t)
    ensures t == To(s, r, Idle, s.readers[r].queued, Free).(rp := Wrap(c.n, s.rp + s.readers[r].pc.count))
  {
    AdvancingStep(c, s, r);
    var first := One(c, s, r);
    var next := To(s, r, WrapRp, s.readers[r].queued, s.lock).(rp := s.rp + s.readers[r].pc.count);
    var rest;
    rest, t := FromWrap(c, next, r);
    RunsOn(c, s, r, first, next, rest, t);
    labels := first + rest;
  }

  lemma SliceTaken(c: Config, s: State, pc: ReaderPc)
    requires Typed(c, s) && ReaderOk(c, s, pc) && pc.CopyOut?
    ensures pc.count <= |Stream(s)| && s.rp + pc.count <= c.n
    ensures s.buf[s.rp..s.rp + pc.count] == Stream(s)[..pc.count]
    ensures Contents(s.buf, Wrap(c.n, s.rp + pc.count), s.wp) == Stream(s)[pc.count..]
  {
    RemovesPrefix(s.buf, s.rp, s.wp, pc.count);
  }

  function Copied(s: State, r: nat): State
    requires r < |s.readers| && s.readers[r].pc.CopyOut? && s.rp + s.readers[r].pc.count <= |s.buf|
  {
    var want, k := s.readers[r].pc.want, s.readers[r].pc.count;
    To(s, r, Advance(k), s.readers[r].queued, s.lock)
    .(slices := s.slices + [s.buf[s.rp..s.rp + k]], takers := s.takers + [Taker(r, want)])
  }

  lemma CopyingStep(c: Config, s: State, r: nat)
    requires Typed(c, s) && r < |s.readers| && s.readers[r].pc.CopyOut?
    ensures ReaderEnabled(s, r, Go) && s.rp + s.readers[r].pc.count <= |s.buf|
    ensures ReaderGo(c, s, r) == Copied(s, r)
  {
  }

  lemma IsHandedOut(c: Config, s: State, r: nat)
    requires Typed(c, s) && r < |s.readers| && s.readers[r].pc.CopyOut? && ReaderOk(c, s, s.readers[r].pc)
    ensures var pc := s.readers[r].pc;
      && s.rp + pc.count <= |s.buf|
      && HandedOut(s, To(Copied(s, r), r, Idle, s.readers[r].queued, Free).(rp := Wrap(c.n, s.rp + pc.count)),
                   r, pc.want, pc.count)
  {
    SliceTaken(c, s, s.readers[r].pc);
  }

  lemma CopiedOut(c: Config, s: State, r: nat) returns (labels: seq<Label>, t: State)
    requires Inv(c, s) && r < |s.readers| && s.readers[r].pc.CopyOut?
    ensures Runs(c, s, r, labels, t) && Inv(c, t)
    ensures s.rp + s.readers[r].pc.count <= |s.buf|
    ensures t == To(Copied(s, r), r, Idle, s.readers[r].queued, Free).(rp := Wrap(c.n, s.rp + s.readers[r].pc.count))
  {
    CopyingStep(c, s, r);
    labels := One(c, s, r);
    var next := Copied(s, r);
    var rest;
    rest, t := FromAdvance(c, next, r);
    RunsOn(c, s, r, labels, next, rest, t);
    labels := labels + rest;
  }

  lemma TestingStep(c: Config, s: State, r: nat)
    requires Inv(c, s) && r < |s.readers| && s.readers[r].pc.Test? && s.rp != s.wp
    ensures ReaderEnabled(s, r, Go)
    ensures var want := s.readers[r].pc.want;
      0 <= Share(c, s, want) && ReaderGo(c, s, r) == To(s, r, CopyOut(want, Share(c, s, want)), s.readers[r].queued, s.lock)
  {
  }

  lemma FromTest(c: Config, s: State, r: nat) returns (labels: seq<Label>, t: State)
    requires Inv(c, s) && r < |s.readers| && s.readers[r].pc.Test? && s.rp != s.wp
    ensures Runs(c, s, r, labels, t) && Inv(c, t)
    ensures var want := s.readers[r].pc.want;
      0 <= Share(c, s, want) && HandedOut(s, t, r, want, Share(c, s, want))
    ensures t.readers == s.readers[r := Reader(Idle, s.readers[r].queued)]
  {
    TestingStep(c, s, r);
    labels := One(c, s, r);
    var want := s.readers[r].pc.want;
    var next := To(s, r, CopyOut(want, Share(c, s, want)), s.readers[r].queued, s.lock);
    assert ReaderOk(c, next, next.readers[r].pc);
    IsHandedOut(c, next, r);
    var rest;
    rest, t := CopiedOut(c, next, r);
    RunsOn(c, s, r, labels, next, rest, t);
    labels := labels + rest;
  }

  lemma HandedOutBefore(c: Config, s: State, testing: State, t: State, r: nat, want: nat)
    requires r < |s.readers| == |testing.readers|
    requires testing == To(s, r, Test(want), testing.readers[r].queued, ByReader(r))
    requires 0 <= Share(c, testing, want) && HandedOut(testing, t, r, want, Share(c, testing, want))
    requires t.readers == testing.readers[r := Reader(Idle, testing.readers[r].queued)]
    ensures 0 <= Share(c, s, want) && HandedOut(s, t, r, want, Share(c, s, want))
    ensures t.readers == s.readers[r := Reader(Idle, testing.readers[r].queued)]
  {
    assert Stream(testing) == Stream(s);
  }

  /** A waiting reader, left alone with data in the ring, is handed exactly the front of the stream, as
      much as it asked for or as lies in one piece, and is done. */
  lemma WaitingReadCompletes(c: Config, s: State, r: nat) returns (labels: seq<Label>, t: State)
    requires Inv(c, s) && r < |s.readers| && s.lock.Free? && Stream(s) != []
    requires CanGo(s.readers[r]) && (WakePending(s.worker) ==> s.readers[r].pc.WantLock?)
    ensures Runs(c, s, r, labels, t) && Inv(c, t)
    ensures var want := s.readers[r].pc.want;
      0 <= Share(c, s, want) && HandedOut(s, t, r, want, Share(c, s, want))
    ensures t.readers == s.readers[r := Reader(Idle, t.readers[r].queued)]
    ensures s.readers[r].pc.WantLock? ==> t.readers[r].queued == s.readers[r].queued
  {
    var first, testing := ReachesTest(c, s, r);
    var rest;
    rest, t := FromTest(c, testing, r);
    HandedOutBefore(c, s, testing, t, r, s.readers[r].pc.want);
    RunsOn(c, s, r, first, testing, rest, t);
    labels := first + rest;
  }

  lemma CallStep(c: Config, s: State, r: nat, want: nat)
    requires Inv(c, s) && r < |s.readers| && s.readers[r].pc.Idle?
    ensures var t := To(s, r, WantLock(want), s.readers[r].queued, s.lock);
      ReaderApply(c, s, r, Call(want)) == t && Inv(c, t)
  {
    ReaderKeeps(c, s, r, Call(want));
  }

  lemma HandedOutToCaller(c: Config, s: State, called: State, t: State, r: nat, want: nat)
    requires r < |s.readers| && s.readers[r].pc.Idle? && s.lock.Free?
    requires called == To(s, r, WantLock(want), s.readers[r].queued, Free)
    requires 0 <= Share(c, called, want) && HandedOut(called, t, r, want, Share(c, called, want))
    requires t.readers == called.readers[r := Reader(Idle, s.readers[r].queued)]
    ensures 0 <= Share(c, s, want) && HandedOut(s, t, r, want, Share(c, s, want)) && t.readers == s.readers
  {
    assert Stream(called) == Stream(s);
  }

  /** A whole `plat_dummy_read` of a ring that is not empty. */
  lemma UndisturbedRead(c: Config, s: State, r: nat, want: nat) returns (labels: seq<Label>, t: State)
    requires Reachable(c, s) && r < |s.readers| && s.readers[r].pc.Idle?
    requires s.lock.Free? && Stream(s) != []
    ensures Inv(c, s) && Inv(c, t)
    ensures OnlyGo(labels, r) && Leads(c, s, [ReaderDoes(r, Call(want))] + labels, t)
    ensures 0 <= Share(c, s, want) && HandedOut(s, t, r, want, Share(c, s, want))
    ensures t.readers == s.readers
  {
    ReachableInv(c, s);
    CallStep(c, s, r, want);
    var called := To(s, r, WantLock(want), s.readers[r].queued, Free);
    labels, t := WaitingReadCompletes(c, called, r);
    LeadsThen(c, s, ReaderDoes(r, Call(want)), labels, t);
    HandedOutToCaller(c, s, called, t, r, want);
  }

  // On an empty ring.

  /** The places a reader passes on its way to sleep. */
  function SleepRank(s: State, r: nat): nat
    requires r < |s.readers|
  {
    match s.readers[r].pc
    case WantLock(_) => 8
    case Test(_) => 7
    case EmptyUnlock(_) => 6
    case WaitFast(_) => 5
    case WaitFastThen(_, _) => 4
    case Enqueue(_) => 3
    case WaitCheck(_, _) => 2
    case WaitCheckThen(_, _, _) => 1
    case _ => 0
  }

  predicate OnItsWay(c: Config, s: State, r: nat)
    requires r < |s.readers|
  {
    var pc := s.readers[r].pc;
    && (if pc.Test? || pc.EmptyUnlock? then s.lock == ByReader(r) else s.lock.Free?)
    && (pc.WaitFastThen? || pc.WaitCheckThen? ==> pc.loaded == Second(c, s))
    && (pc.WaitCheck? || pc.WaitCheckThen? ==> !pc.signalled && s.readers[r].queued)
    && (SleepRank(s, r) > 0 || (pc.Asleep? && s.readers[r].queued))
  }

  lemma SleepStep(c: Config, s: State, r: nat)
    requires Typed(c, s) && r < |s.readers| && s.rp == s.wp && OnItsWay(c, s, r) && !s.readers[r].pc.Asleep?
    ensures ReaderEnabled(s, r, Go)
    ensures var t := ReaderGo(c, s, r);
      && t == To(s, r, t.readers[r].pc, t.readers[r].queued, t.lock)
      && OnItsWay(c, t, r) && t.readers[r].pc.want == s.readers[r].pc.want && SleepRank(t, r) < SleepRank(s, r)
  {
  }

  lemma {:induction false} FallsAsleep(c: Config, s: State, r: nat) returns (labels: seq<Label>, t: State)
    requires Inv(c, s) && r < |s.readers| && s.rp == s.wp && OnItsWay(c, s, r)
    ensures Runs(c, s, r, labels, t) && Inv(c, t)
    ensures t == To(s, r, Asleep(s.readers[r].pc.want), true, Free)
    decreases SleepRank(s, r)
  {
    if s.readers[r].pc.Asleep? {
      assert s.readers[r := s.readers[r]] == s.readers;
      return [], s;
    }
    SleepStep(c, s, r);
    labels := One(c, s, r);
    var next := ReaderGo(c, s, r);
    var rest;
    rest, t := FallsAsleep(c, next, r);
    ToTo(s, r, next.readers[r], next.lock, t.readers[r], Free);
    RunsOn(c, s, r, labels, next, rest, t);
    labels := labels + rest;
  }

  /** A whole `plat_dummy_read` of an empty ring: nothing changes but that the reader is on the wait
      queue, asleep. */
  lemma EmptyReadSleeps(c: Config, s: State, r: nat, want: nat) returns (labels: seq<Label>, t: State)
    requires Reachable(c, s) && r < |s.readers| && s.readers[r].pc.Idle? && s.lock.Free? && Stream(s) == []
    ensures OnlyGo(labels, r) && Leads(c, s, [ReaderDoes(r, Call(want))] + labels, t)
    ensures t == s.(readers := s.readers[r := Reader(Asleep(want), true)])
  {
    ReachableInv(c, s);
    CallStep(c, s, r, want);
    var called := To(s, r, WantLock(want), s.readers[r].queued, Free);
    assert s.rp == s.wp;
    labels, t := FallsAsleep(c, called, r);
    LeadsThen(c, s, ReaderDoes(r, Call(want)), labels, t);
    ToTo(s, r, called.readers[r], Free, t.readers[r], Free);
  }

  // Reads that end without data.

  lemma OneAct(c: Config, s: State, r: nat, act: ReaderAct, t: State)
    requires Inv(c, s) && r < |s.readers| && ReaderEnabled(s, r, act) && ReaderApply(c, s, r, act) == t
    ensures Inv(c, t) && Leads(c, s, [ReaderDoes(r, act)], t)
  {
    ReaderKeeps(c, s, r, act);
    assert Leads(c, t, [ReaderDoes(r, act)][1..], t);
  }

  /** A signal while waiting for the mutex: the call is over and has changed nothing. */
  lemma InterruptedAtMutex(c: Config, s: State, r: nat, want: nat)
    requires Reachable(c, s) && r < |s.readers| && s.readers[r].pc.Idle?
    ensures Leads(c, s, [ReaderDoes(r, Call(want)), ReaderDoes(r, Signal)], s)
  {
    ReachableInv(c, s);
    CallStep(c, s, r, want);
    var called := ReaderApply(c, s, r, Call(want));
    assert s.readers[r := called.readers[r]][r := s.readers[r]] == s.readers;
    OneAct(c, called, r, Signal, s);
    LeadsThen(c, s, ReaderDoes(r, Call(want)), [ReaderDoes(r, Signal)], s);
  }

  lemma SignalAsleep(c: Config, s: State, r: nat) returns (t: State)
    requires Inv(c, s) && r < |s.readers| && s.readers[r].pc.Asleep?
    ensures t == s.(readers := s.readers[r := Reader(WaitCheck(s.readers[r].pc.want, true), false)])
    ensures Inv(c, t) && Leads(c, s, [ReaderDoes(r, Signal), ReaderDoes(r, Signal)], t)
  {
    var want := s.readers[r].pc.want;
    var queueing := s.(readers := s.readers[r := Reader(Enqueue(want), s.readers[r].queued)]);
    t := s.(readers := s.readers[r := Reader(WaitCheck(want, true), false)]);
    assert t.readers == queueing.readers[r := t.readers[r]];
    OneAct(c, s, r, Signal, queueing);
    OneAct(c, queueing, r, Signal, t);
    LeadsOn(c, s, [ReaderDoes(r, Signal)], queueing, [ReaderDoes(r, Signal)], t);
    assert [ReaderDoes(r, Signal)] + [ReaderDoes(r, Signal)] == [ReaderDoes(r, Signal), ReaderDoes(r, Signal)];
  }

  lemma SignalledCheckEnds(c: Config, s: State, r: nat) returns (t: State)
    requires Inv(c, s) && r < |s.readers| && s.readers[r].pc.WaitCheck? && s.readers[r].pc.signalled && s.rp == s.wp
    ensures t == s.(readers := s.readers[r := Reader(Idle, s.readers[r].queued)])
    ensures Leads(c, s, [ReaderDoes(r, Go), ReaderDoes(r, Go)], t)
  {
    var want, queued := s.readers[r].pc.want, s.readers[r].queued;
    var comparing := s.(readers := s.readers[r := Reader(WaitCheckThen(want, true, First(c, s)), queued)]);
    t := s.(readers := s.readers[r := Reader(Idle, queued)]);
    assert t.readers == comparing.readers[r := t.readers[r]];
    OneAct(c, s, r, Go, comparing);
    OneAct(c, comparing, r, Go, t);
    LeadsOn(c, s, [ReaderDoes(r, Go)], comparing, [ReaderDoes(r, Go)], t);
    assert [ReaderDoes(r, Go)] + [ReaderDoes(r, Go)] == [ReaderDoes(r, Go), ReaderDoes(r, Go)];
  }

  /** A signal while asleep on an empty ring: the call is over, the reader is off the queue, and nothing
      else has changed. */
  lemma InterruptedAsleep(c: Config, s: State, r: nat)
    requires Reachable(c, s) && r < |s.readers| && s.readers[r].pc.Asleep? && s.rp == s.wp
    ensures Leads(c, s, [ReaderDoes(r, Signal), ReaderDoes(r, Signal)] + [ReaderDoes(r, Go), ReaderDoes(r, Go)],
                  s.(readers := s.readers[r := Reader(Idle, false)]))
  {
    ReachableInv(c, s);
    var mid := SignalAsleep(c, s, r);
    var t := SignalledCheckEnds(c, mid, r);
    LeadsOn(c, s, [ReaderDoes(r, Signal), ReaderDoes(r, Signal)], mid, [ReaderDoes(r, Go), ReaderDoes(r, Go)], t);
    assert t.readers == s.readers[r := Reader(Idle, false)];
  }

  lemma FaultEnds(c: Config, s: State, r: nat) returns (t: State)
    requires Inv(c, s) && r < |s.readers| && s.readers[r].pc.CopyOut?
    ensures t == To(s, r, Idle, s.readers[r].queued, Free)
    ensures Leads(c, s, [ReaderDoes(r, CopyFault), ReaderDoes(r, Go)], t)
  {
    var faulted := To(s, r, FaultUnlock, s.readers[r].queued, s.lock);
    OneAct(c, s, r, CopyFault, faulted);
    LeavingStep(c, faulted, r);
    t := To(s, r, Idle, s.readers[r].queued, Free);
    assert t.readers == faulted.readers[r := t.readers[r]];
    OneAct(c, faulted, r, Go, t);
    LeadsOn(c, s, [ReaderDoes(r, CopyFault)], faulted, [ReaderDoes(r, Go)], t);
    assert [ReaderDoes(r, CopyFault)] + [ReaderDoes(r, Go)] == [ReaderDoes(r, CopyFault), ReaderDoes(r, Go)];
  }

  lemma CallAndTest(c: Config, s: State, r: nat, want: nat) returns (t: State)
    requires Inv(c, s) && r < |s.readers| && s.readers[r].pc.Idle? && s.lock.Free?
    ensures t == To(s, r, Test(want), s.readers[r].queued, ByReader(r)) && Inv(c, t)
    ensures Leads(c, s, [ReaderDoes(r, Call(want)), ReaderDoes(r, Go)], t)
  {
    CallStep(c, s, r, want);
    var called := To(s, r, WantLock(want), s.readers[r].queued, Free);
    t := To(s, r, Test(want), s.readers[r].queued, ByReader(r));
    assert t.readers == called.readers[r := t.readers[r]];
    OneAct(c, s, r, Call(want), called);
    OneAct(c, called, r, Go, t);
    LeadsOn(c, s, [ReaderDoes(r, Call(want))], called, [ReaderDoes(r, Go)], t);
    assert [ReaderDoes(r, Call(want))] + [ReaderDoes(r, Go)] == [ReaderDoes(r, Call(want)), ReaderDoes(r, Go)];
  }

  lemma TestedFault(c: Config, s: State, r: nat) returns (t: State)
    requires Inv(c, s) && r < |s.readers| && s.readers[r].pc.Test? && s.rp != s.wp
    ensures t == To(s, r, Idle, s.readers[r].queued, Free)
    ensures Leads(c, s, [ReaderDoes(r, Go)] + [ReaderDoes(r, CopyFault), ReaderDoes(r, Go)], t)
  {
    TestingStep(c, s, r);
    var want := s.readers[r].pc.want;
    var copying := To(s, r, CopyOut(want, Share(c, s, want)), s.readers[r].queued, s.lock);
    OneAct(c, s, r, Go, copying);
    t := FaultEnds(c, copying, r);
    LeadsOn(c, s, [ReaderDoes(r, Go)], copying, [ReaderDoes(r, CopyFault), ReaderDoes(r, Go)], t);
    ToTo(s, r, copying.readers[r], s.lock, t.readers[r], Free);
  }

  /** A failing copy: the call is over, nothing was handed out, and the ring is as before. */
  lemma FaultedRead(c: Config, s: State, r: nat, want: nat)
    requires Reachable(c, s) && r < |s.readers| && s.readers[r].pc.Idle? && s.lock.Free? && Stream(s) != []
    ensures Leads(c, s, [ReaderDoes(r, Call(want)), ReaderDoes(r, Go)] +
                        ([ReaderDoes(r, Go)] + [ReaderDoes(r, CopyFault), ReaderDoes(r, Go)]), s)
  {
    ReachableInv(c, s);
    var testing := CallAndTest(c, s, r, want);
    var t := TestedFault(c, testing, r);
    assert t.readers == s.readers;
    LeadsOn(c, s, [ReaderDoes(r, Call(want)), ReaderDoes(r, Go)], testing,
            [ReaderDoes(r, Go)] + [ReaderDoes(r, CopyFault), ReaderDoes(r, Go)], s);
  }

  // Over a whole run: what was asked for.

  datatype Asked = NoCall | Asked(want: nat)

  /** The argument of the last call of reader `r`. */
  function LastCall(labels: seq<Label>, r: nat): Asked {
    if labels == [] then NoCall
    else
      var l := labels[|labels| - 1];
      if l.ReaderDoes? && l.r == r && l.act.Call? then Asked(l.act.want) else LastCall(labels[..|labels| - 1], r)
  }

  predicate Wants(pc: ReaderPc) {
    Awaits(pc) || pc.Test? || pc.EmptyUnlock? || pc.CopyOut?
  }

  /** What every reader works on is what its last call asked for. */
  predicate CallsOk(past: seq<Label>, s: State) {
    forall r | 0 <= r < |s.readers| && Wants(s.readers[r].pc) :: LastCall(past, r) == Asked(s.readers[r].pc.want)
  }

  /** Slice `k` was taken by step `i`, a step of the reader it was taken for, on a request as large as
      that reader's last call before. */
  predicate TakenBy(past: seq<Label>, s: State, k: nat, i: nat)
    requires k < |s.takers|
  {
    && i < |past| && past[i] == ReaderDoes(s.takers[k].reader, Go)
    && LastCall(past[..i], s.takers[k].reader) == Asked(s.takers[k].want)
  }

  predicate TakesOk(past: seq<Label>, s: State, at: seq<nat>) {
    && |at| == |s.takers|
    && (forall k | 0 <= k < |at| :: TakenBy(past, s, k, at[k]))
    && (forall j, k | 0 <= j < k < |at| :: at[j] < at[k])
  }

  lemma LastCallSnoc(past: seq<Label>, l: Label, r: nat)
    ensures LastCall(past + [l], r) ==
            if l.ReaderDoes? && l.r == r && l.act.Call? then Asked(l.act.want) else LastCall(past, r)
  {
    assert (past + [l])[..|past|] == past;
  }

  lemma WantGoHolding(c: Config, s: State, r: nat)
    requires Typed(c, s) && r < |s.readers| && ReaderEnabled(s, r, Go) && ReaderHolds(s.readers[r].pc)
    ensures var pc, pc' := s.readers[r].pc, ReaderGo(c, s, r).readers[r].pc;
      Wants(pc') ==> Wants(pc) && pc'.want == pc.want
  {
  }

  lemma WantGo(c: Config, s: State, r: nat)
    requires Typed(c, s) && r < |s.readers| && ReaderEnabled(s, r, Go)
    ensures var pc, pc' := s.readers[r].pc, ReaderGo(c, s, r).readers[r].pc;
      Wants(pc') ==> Wants(pc) && pc'.want == pc.want
  {
    if ReaderHolds(s.readers[r].pc) {
      WantGoHolding(c, s, r);
    }
  }

  lemma CallsStep(c: Config, past: seq<Label>, s: State, l: Label)
    requires Typed(c, s) && Enabled(s, l) && CallsOk(past, s)
    ensures CallsOk(past + [l], Apply(c, s, l))
  {
    var t := Apply(c, s, l);
    if l.ReaderDoes? && l.act.Go? {
      WantGo(c, s, l.r);
    }
    forall r | 0 <= r < |t.readers| && Wants(t.readers[r].pc)
      ensures LastCall(past + [l], r) == Asked(t.readers[r].pc.want)
    {
      LastCallSnoc(past, l, r);
      if !DoneBy(l, r) {
        OthersLeaveAlone(c, s, l, r);
      }
    }
  }

  /** `slice` is not longer than `r` asked for last, and empty only if it asked for nothing. */
  predicate WithinCall(past: seq<Label>, r: nat, slice: seq<byte>) {
    var call := LastCall(past, r);
    call.Asked? && |slice| <= call.want && (call.want > 0 ==> slice != [])
  }

  lemma AtSnoc(past: seq<Label>, s: State, at: seq<nat>, l: Label, t: State)
    requires TakesOk(past, s, at) && t.takers == s.takers
    ensures TakesOk(past + [l], t, at)
  {
    forall k | 0 <= k < |at| ensures TakenBy(past + [l], t, k, at[k]) {
      assert TakenBy(past, s, k, at[k]);
      assert (past + [l])[..at[k]] == past[..at[k]];
    }
  }

  lemma AtTake(past: seq<Label>, s: State, at: seq<nat>, r: nat, want: nat, t: State)
    requires TakesOk(past, s, at) && t.takers == s.takers + [Taker(r, want)] && LastCall(past, r) == Asked(want)
    ensures TakesOk(past + [ReaderDoes(r, Go)], t, at + [|past|])
  {
    var l := ReaderDoes(r, Go);
    assert (past + [l])[..|past|] == past;
    forall k | 0 <= k < |at| + 1 ensures TakenBy(past + [l], t, k, (at + [|past|])[k]) {
      if k < |at| {
        assert TakenBy(past, s, k, at[k]);
        assert (past + [l])[..at[k]] == past[..at[k]];
      }
    }
    forall k | 0 <= k < |at| ensures at[k] < |past| {
      assert TakenBy(past, s, k, at[k]);
    }
  }

  lemma TakersStep(c: Config, s: State, l: Label)
    requires Typed(c, s) && Enabled(s, l)
    ensures var t := Apply(c, s, l);
      t.takers == if l.ReaderDoes? && l.act.Go? && s.readers[l.r].pc.CopyOut?
                  then s.takers + [Taker(l.r, s.readers[l.r].pc.want)] else s.takers
  {
  }

  lemma {:induction false} RunTakes(c: Config, past: seq<Label>, s: State, labels: seq<Label>, t: State, at: seq<nat>)
    returns (at': seq<nat>)
    requires Leads(c, s, labels, t) && CallsOk(past, s) && TakesOk(past, s, at)
    ensures TakesOk(past + labels, t, at')
    decreases |labels|
  {
    if labels == [] {
      assert past + labels == past;
      return at;
    }
    var l, next := labels[0], Apply(c, s, labels[0]);
    TakersStep(c, s, l);
    CallsStep(c, past, s, l);
    if l.ReaderDoes? && l.act.Go? && s.readers[l.r].pc.CopyOut? {
      AtTake(past, s, at, l.r, s.readers[l.r].pc.want, next);
      at' := RunTakes(c, past + [l], next, labels[1..], t, at + [|past|]);
    } else {
      AtSnoc(past, s, at, l, next);
      at' := RunTakes(c, past + [l], next, labels[1..], t, at);
    }
    assert past + [l] + labels[1..] == past + labels;
  }

  /** Over every run: the slices were handed out one after the other by steps `at` of the readers they
      are logged for, and none is longer than that reader asked for in its last call before; what is
      empty was asked to be. */
  lemma NobodyGetsMoreThanAsked(c: Config, s: State, labels: seq<Label>, t: State) returns (at: seq<nat>)
    requires Init(c, s) && Leads(c, s, labels, t)
    ensures |t.slices| == |t.takers| == |at|
    ensures forall k | 0 <= k < |at| :: at[k] < |labels|
    ensures forall j, k | 0 <= j < k < |at| :: at[j] < at[k]
    ensures forall k | 0 <= k < |at| :: TakenBy(labels, t, k, at[k])
    ensures forall k | 0 <= k < |at| :: WithinCall(labels[..at[k]], t.takers[k].reader, t.slices[k])
  {
    assert TakesOk([], s, []);
    at := RunTakes(c, [], s, labels, t, []);
    assert [] + labels == labels;
    forall k | 0 <= k < |at| ensures at[k] < |labels| {
      assert TakenBy(labels, t, k, at[k]);
    }
    assert Reachable(c, t);
    ReachableInv(c, t);
    forall k | 0 <= k < |at| ensures WithinCall(labels[..at[k]], t.takers[k].reader, t.slices[k]) {
      assert TakenBy(labels, t, k, at[k]);
      assert TakerOk(c, t.slices[k], t.takers[k]);
    }
  }
}
