/** What single steps and whole calls of the HW16 driver do, and where every event of a history comes
    from. */
module Hw3Calls {
  import opened CInt
  import opened Hw3Device
  import opened Hw3System

  // One critical section at a time, in every reachable state.

  predicate Accepted(buf: string) {
    buf != "" && '0' <= buf[0] <= '9'
  }

  /** A write sets the LED to whether its first character is another digit than 0; without a digit it
      changes nothing. */
  lemma WriteStep(k: nat, s: State, buf: string)
    requires Reachable(k, s)
    ensures var v := if buf != "" && buf[0] == '0' then 0 else 1;
      Apply(s, WriteBuf(buf)) ==
      if Accepted(buf) then s.(dev := s.dev.(ledOn := v, ledLine := v), h := s.h + [Set(v)]) else s
  {
    ReachableInv(k, s);
  }

  /** The handler stores the level, marks the data ready and, on a press under kernel control, toggles
      the LED. */
  lemma InterruptStep(k: nat, s: State, level: int)
    requires Reachable(k, s) && !s.wakeDue
    ensures var led := if level != 0 && ControlOn(s.h) then 1 - s.dev.ledOn else s.dev.ledOn;
      Apply(s, IsrEnter(level)) ==
      s.(dev := Dev(led, level, s.dev.control, true, led), wakeDue := true, h := s.h + [Irq(level)])
  {
    ReachableInv(k, s);
  }

  /** KERN_CONTROL and the two sections of SETLED, for every argument. */
  lemma IoctlSteps(k: nat, s: State, i: nat, val: int)
    requires Reachable(k, s) && i < |s.callers|
    ensures var bit := if val != 0 then 1 else 0;
      && Apply(s, IoctlControl(val)) == s.(dev := s.dev.(control := bit), h := s.h + [Control(bit)])
      && (s.callers[i].Resting? ==>
            && Apply(s, CallerDoes(i, CallGetLed)) == s.(h := s.h + [Got(i, s.dev.ledLine)])
            && var t := Apply(s, CallerDoes(i, CallSetLed(val)));
            && t.dev == s.dev.(ledOn := bit, ledLine := bit) && t.h == s.h + [Set(bit)]
            && t.readers == s.readers && t.callers == s.callers[i := ReadBack(val, |t.h|)])
      && (s.callers[i].ReadBack? ==>
            var pc := s.callers[i];
            Apply(s, CallerDoes(i, FallThrough)) ==
            s.(h := s.h + [Echo(i, pc.val, pc.from, s.dev.ledLine)], callers := s.callers[i := Resting]))
  {
    ReachableInv(k, s);
  }

  /** A poll reports POLLIN if and only if an interrupt followed the last consuming read, and changes
      nothing. */
  lemma PollStep(k: nat, s: State)
    requires Reachable(k, s)
    ensures Apply(s, Poll) == s.(h := s.h + if s.dev.dataReady then [PollIn] else [])
    ensures Apply(s, Poll).h != s.h <==> Pending(s.h)
  {
    ReachableInv(k, s);
  }

  /** The locked test of a read: it consumes if data is ready, fails with -EAGAIN if not and the file
      is O_NONBLOCK, and otherwise starts to wait, having changed nothing. */
  lemma TestStep(s: State, r: nat)
    requires r < |s.readers| && s.readers[r].pc.Test?
    ensures var t := Apply(s, ReaderDoes(r, Go));
      var nonblock, c := s.readers[r].pc.nonblock, if s.dev.btnOn != 0 then '1' else '0';
      && t.wakeDue == s.wakeDue && t.callers == s.callers
      && t.readers == s.readers[r := Reader(t.readers[r].pc, s.readers[r].queued)]
      && if s.dev.dataReady then
           t.dev == s.dev.(dataReady := false) && t.h == s.h + [Took(r, c)] && t.readers[r].pc == CopyOut(c)
         else
           && t.dev == s.dev
           && t.h == s.h + (if nonblock then [Event.Again(r)] else [])
           && t.readers[r].pc == if nonblock then Idle else WaitFast
  {
  }

  // Whole calls.

  lemma LeadsThen(s: State, l: Label, rest: seq<Label>, t: State)
    requires Enabled(s, l) && Leads(Apply(s, l), rest, t)
    ensures Leads(s, [l] + rest, t)
  {
    assert ([l] + rest)[1..] == rest;
  }

  lemma {:induction false} LeadsOn(s: State, a: seq<Label>, t: State, b: seq<Label>, u: State)
    requires Leads(s, a, t) && Leads(t, b, u)
    ensures Leads(s, a + b, u)
    decreases |a|
  {
    if a == [] {
      assert a + b == b;
    } else {
      LeadsOn(Apply(s, a[0]), a[1..], t, b, u);
      assert (a + b)[1..] == a[1..] + b;
    }
  }

  predicate OnlyGo(labels: seq<Label>, r: nat) {
    forall l | l in labels :: l == ReaderDoes(r, Go)
  }

  ghost predicate Runs(s: State, r: nat, labels: seq<Label>, t: State) {
    Leads(s, labels, t) && OnlyGo(labels, r)
  }

  lemma GoThen(s: State, r: nat, rest: seq<Label>, t: State)
    requires Enabled(s, ReaderDoes(r, Go)) && Runs(Apply(s, ReaderDoes(r, Go)), r, rest, t)
    ensures Runs(s, r, [ReaderDoes(r, Go)] + rest, t)
  {
    LeadsThen(s, ReaderDoes(r, Go), rest, t);
  }

  /** Steps left with data ready. */
  function ToData(pc: ReaderPc): nat {
    match pc
    case Idle => 0
    case CopyOut(_) => 1
    case Test(_) => 2
    case WaitFast => 3
    case Dequeue => 3
    case WaitCheck(_) => 4
    case Enqueue => 5
    case Asleep => 6
  }

  /** In the middle of a read, nothing taken yet. */
  predicate CanTake(reader: Reader) {
    !reader.pc.Idle? && !reader.pc.CopyOut? && !(reader.pc.Asleep? && reader.queued)
  }

  lemma CloserToData(s: State, r: nat)
    requires r < |s.readers| && s.dev.dataReady && CanTake(s.readers[r]) && !s.readers[r].pc.Test?
    ensures Enabled(s, ReaderDoes(r, Go))
    ensures var t := Apply(s, ReaderDoes(r, Go));
      && t == s.(readers := s.readers[r := t.readers[r]])
      && CanTake(t.readers[r]) && ToData(t.readers[r].pc) < ToData(s.readers[r].pc)
  {
  }

  /** With data ready a read that is under way, left alone, takes the level and is over: from the locked
      test and from everywhere in the wait loop. */
  lemma {:induction false} ReadTakes(s: State, r: nat) returns (labels: seq<Label>, t: State)
    requires r < |s.readers| && s.dev.dataReady && CanTake(s.readers[r])
    ensures Runs(s, r, labels, t) && |t.readers| == |s.readers|
    ensures t == s.(dev := s.dev.(dataReady := false), readers := s.readers[r := Reader(Idle, t.readers[r].queued)],
                    h := s.h + [Took(r, if s.dev.btnOn != 0 then '1' else '0')])
    decreases ToData(s.readers[r].pc)
  {
    var next := Apply(s, ReaderDoes(r, Go));
    if s.readers[r].pc.Test? {
      t := Apply(next, ReaderDoes(r, Go));
      assert Runs(t, r, [], t);
      GoThen(next, r, [], t);
      GoThen(s, r, [ReaderDoes(r, Go)] + [], t);
      labels := [ReaderDoes(r, Go)] + ([ReaderDoes(r, Go)] + []);
      assert t.readers == s.readers[r := t.readers[r]];
    } else {
      CloserToData(s, r);
      var rest;
      rest, t := ReadTakes(next, r);
      GoThen(s, r, rest, t);
      labels := [ReaderDoes(r, Go)] + rest;
      assert t.readers == s.readers[r := t.readers[r]];
    }
  }

  /** Steps left to sleep on a quiet device. */
  function ToSleep(pc: ReaderPc): nat {
    match pc
    case Test(_) => 4
    case WaitFast => 3
    case Enqueue => 2
    case WaitCheck(_) => 1
    case _ => 0
  }

  predicate GoesToSleep(reader: Reader) {
    || reader.pc == Test(false) || reader.pc.WaitFast? || reader.pc.Enqueue?
    || (reader.pc == WaitCheck(false) && reader.queued) || (reader.pc.Asleep? && reader.queued)
  }

  lemma CloserToSleep(s: State, r: nat)
    requires r < |s.readers| && !s.dev.dataReady && GoesToSleep(s.readers[r]) && !s.readers[r].pc.Asleep?
    ensures Enabled(s, ReaderDoes(r, Go))
    ensures var t := Apply(s, ReaderDoes(r, Go));
      && t == s.(readers := s.readers[r := t.readers[r]])
      && GoesToSleep(t.readers[r]) && ToSleep(t.readers[r].pc) < ToSleep(s.readers[r].pc)
  {
  }

  lemma {:induction false} FallsAsleep(s: State, r: nat) returns (labels: seq<Label>, t: State)
    requires r < |s.readers| && !s.dev.dataReady && GoesToSleep(s.readers[r])
    ensures Runs(s, r, labels, t)
    ensures t == s.(readers := s.readers[r := Reader(Asleep, true)])
    decreases ToSleep(s.readers[r].pc)
  {
    if s.readers[r].pc.Asleep? {
      assert s.readers[r := s.readers[r]] == s.readers;
      return [], s;
    }
    CloserToSleep(s, r);
    var next := Apply(s, ReaderDoes(r, Go));
    var rest;
    rest, t := FallsAsleep(next, r);
    GoThen(s, r, rest, t);
    labels := [ReaderDoes(r, Go)] + rest;
    assert t.readers == s.readers[r := t.readers[r]];
  }

  /** A blocking read on a quiet device sleeps, having changed nothing; the next interrupt and its
      wake-up let it go on, and it takes the level of that interrupt. */
  lemma BlockingReadWaits(s: State, r: nat, level: int)
    returns (down: seq<Label>, up: seq<Label>, asleep: State, t: State)
    requires r < |s.readers| && s.readers[r].pc.Idle? && !s.dev.dataReady && !s.wakeDue
    ensures OnlyGo(down, r) && OnlyGo(up, r)
    ensures Leads(s, [ReaderDoes(r, Call(false))] + down, asleep)
    ensures asleep == s.(readers := s.readers[r := Reader(Asleep, true)])
    ensures Leads(asleep, [IsrEnter(level)] + ([IsrWake] + up), t)
    ensures t.h == s.h + [Irq(level), Took(r, if level != 0 then '1' else '0')]
    ensures !t.dev.dataReady && |t.readers| == |s.readers| && t.readers[r].pc.Idle?
  {
    var called := Apply(s, ReaderDoes(r, Call(false)));
    down, asleep := FallsAsleep(called, r);
    LeadsThen(s, ReaderDoes(r, Call(false)), down, asleep);
    assert asleep.readers == s.readers[r := asleep.readers[r]];
    var raised := Apply(asleep, IsrEnter(level));
    var woken := Apply(raised, IsrWake);
    up, t := ReadTakes(woken, r);
    LeadsThen(raised, IsrWake, up, t);
    LeadsThen(asleep, IsrEnter(level), [IsrWake] + up, t);
  }

  /** A read under O_NONBLOCK on a quiet device fails at once, having changed nothing. */
  lemma NonblockingReadFails(s: State, r: nat)
    requires r < |s.readers| && s.readers[r].pc.Idle? && !s.dev.dataReady
    ensures Leads(s, [ReaderDoes(r, Call(true)), ReaderDoes(r, Go)], s.(h := s.h + [Event.Again(r)]))
  {
    var called := Apply(s, ReaderDoes(r, Call(true)));
    var t := s.(h := s.h + [Event.Again(r)]);
    assert called.readers[r := s.readers[r]] == s.readers;
    assert Apply(called, ReaderDoes(r, Go)) == t;
    assert Leads(t, [], t);
    LeadsThen(called, ReaderDoes(r, Go), [], t);
    LeadsThen(s, ReaderDoes(r, Call(true)), [ReaderDoes(r, Go)] + [], t);
    assert [ReaderDoes(r, Call(true))] + ([ReaderDoes(r, Go)] + []) == [ReaderDoes(r, Call(true)), ReaderDoes(r, Go)];
  }

  /** A signal ends the sleep of a read on a quiet device: the call is over, the reader off the queue,
      and nothing else has changed. */
  lemma SignalEndsSleep(s: State, r: nat)
    requires r < |s.readers| && s.readers[r].pc.Asleep? && !s.dev.dataReady
    ensures Leads(s, [ReaderDoes(r, Signal)] + ([ReaderDoes(r, Signal)] + ([ReaderDoes(r, Go)] + [])),
                  s.(readers := s.readers[r := Reader(Idle, false)]))
  {
    var queueing := Apply(s, ReaderDoes(r, Signal));
    var checking := Apply(queueing, ReaderDoes(r, Signal));
    var t := s.(readers := s.readers[r := Reader(Idle, false)]);
    assert checking.readers == s.readers[r := Reader(WaitCheck(true), false)];
    assert Apply(checking, ReaderDoes(r, Go)).readers == t.readers;
    assert Leads(t, [], t);
    LeadsThen(checking, ReaderDoes(r, Go), [], t);
    LeadsThen(queueing, ReaderDoes(r, Signal), [ReaderDoes(r, Go)] + [], t);
    LeadsThen(s, ReaderDoes(r, Signal), [ReaderDoes(r, Signal)] + ([ReaderDoes(r, Go)] + []), t);
  }

  // Where the events of a history come from.

  datatype Asked = NoCall | Asked(nonblock: bool)

  /** How reader `r` made its last call. */
  function LastCall(labels: seq<Label>, r: nat): Asked {
    if labels == [] then NoCall
    else
      var l := labels[|labels| - 1];
      if l.ReaderDoes? && l.r == r && l.act.Call? then Asked(l.act.nonblock)
      else LastCall(labels[..|labels| - 1], r)
  }

  /** A reader at its test tests for what its last call asked, and only a blocking call waits. */
  predicate CallsOk(past: seq<Label>, s: State) {
    forall r | 0 <= r < |s.readers| && !s.readers[r].pc.Idle? && !s.readers[r].pc.CopyOut? ::
      LastCall(past, r) == Asked(if s.readers[r].pc.Test? then s.readers[r].pc.nonblock else false)
  }

  /** Step `i` is the one to log `e`. */
  predicate LoggedBy(past: seq<Label>, i: nat, e: Event) {
    && i < |past|
    && match e
       case Irq(level) => past[i] == IsrEnter(level)
       case Took(r, _) => past[i] == ReaderDoes(r, Go) && LastCall(past[..i], r).Asked?
       case Again(r) => past[i] == ReaderDoes(r, Go) && LastCall(past[..i], r) == Asked(true)
       case Set(v) =>
         || (past[i].WriteBuf? && Accepted(past[i].buf) && v == if past[i].buf[0] == '0' then 0 else 1)
         || (past[i].CallerDoes? && past[i].op.CallSetLed? && v == if past[i].op.val != 0 then 1 else 0)
       case Control(v) => past[i].IoctlControl? && v == if past[i].val != 0 then 1 else 0
       case PollIn => past[i].Poll?
       case Got(caller, _) => past[i] == CallerDoes(caller, CallGetLed)
       case Echo(caller, _, _, _) => past[i] == CallerDoes(caller, FallThrough)
  }

  /** Steps that are logged whatever the state. */
  predicate AlwaysLogged(l: Label) {
    l.IsrEnter? || (l.WriteBuf? && Accepted(l.buf)) || l.CallerDoes? || l.IoctlControl?
  }

  predicate HistoryOk(past: seq<Label>, s: State, at: seq<nat>) {
    && |at| == |s.h|
    && (forall j | 0 <= j < |at| :: LoggedBy(past, at[j], s.h[j]))
    && (forall i, j | 0 <= i < j < |at| :: at[i] < at[j])
    && (forall i | 0 <= i < |past| && AlwaysLogged(past[i]) :: i in at)
  }

  lemma CallsStep(past: seq<Label>, s: State, l: Label)
    requires Enabled(s, l) && CallsOk(past, s)
    ensures CallsOk(past + [l], Apply(s, l))
  {
    var t := Apply(s, l);
    assert (past + [l])[..|past|] == past;
    forall r | 0 <= r < |t.readers| && !t.readers[r].pc.Idle? && !t.readers[r].pc.CopyOut?
      ensures LastCall(past + [l], r) == Asked(if t.readers[r].pc.Test? then t.readers[r].pc.nonblock else false)
    {
      assert LastCall(past, r).Asked? || t.readers[r].pc.Test?;
    }
  }

  /** What a step adds to the history. */
  lemma LoggedStep(past: seq<Label>, s: State, l: Label) returns (added: seq<Event>)
    requires Enabled(s, l) && CallsOk(past, s)
    ensures Apply(s, l).h == s.h + added && |added| <= 1
    ensures added != [] ==> LoggedBy(past + [l], |past|, added[0])
    ensures AlwaysLogged(l) ==> added != []
  {
    assert (past + [l])[..|past|] == past;
    added := if |Apply(s, l).h| > |s.h| then [Apply(s, l).h[|s.h|]] else [];
  }

  lemma HistoryGrows(past: seq<Label>, s: State, at: seq<nat>, l: Label, t: State, added: seq<Event>)
    requires HistoryOk(past, s, at) && t.h == s.h + added && |added| <= 1
    requires added != [] ==> LoggedBy(past + [l], |past|, added[0])
    requires AlwaysLogged(l) ==> added != []
    ensures HistoryOk(past + [l], t, if added == [] then at else at + [|past|])
  {
    var at' := if added == [] then at else at + [|past|];
    forall j | 0 <= j < |at'| ensures LoggedBy(past + [l], at'[j], t.h[j]) {
      if j < |at| {
        assert LoggedBy(past, at[j], s.h[j]);
        assert (past + [l])[..at[j]] == past[..at[j]];
      }
    }
    forall j | 0 <= j < |at| ensures at[j] < |past| {
      assert LoggedBy(past, at[j], s.h[j]);
    }
    forall i | 0 <= i < |past + [l]| && AlwaysLogged((past + [l])[i]) ensures i in at' {
      if i == |past| {
        assert at'[|at|] == i;
      } else {
        assert i in at;
      }
    }
  }

  lemma StepHistory(past: seq<Label>, s: State, at: seq<nat>, l: Label) returns (at': seq<nat>)
    requires Enabled(s, l) && CallsOk(past, s) && HistoryOk(past, s, at)
    ensures HistoryOk(past + [l], Apply(s, l), at') && CallsOk(past + [l], Apply(s, l))
  {
    var added := LoggedStep(past, s, l);
    CallsStep(past, s, l);
    HistoryGrows(past, s, at, l, Apply(s, l), added);
    at' := if added == [] then at else at + [|past|];
  }

  lemma {:induction false} RunHistory(past: seq<Label>, s: State, labels: seq<Label>, t: State, at: seq<nat>)
    returns (at': seq<nat>)
    requires Leads(s, labels, t) && CallsOk(past, s) && HistoryOk(past, s, at)
    ensures HistoryOk(past + labels, t, at') && CallsOk(past + labels, t)
    decreases |labels|
  {
    if labels == [] {
      assert past + labels == past;
      return at;
    }
    var l := labels[0];
    var next := StepHistory(past, s, at, l);
    at' := RunHistory(past + [l], Apply(s, l), labels[1..], t, next);
    assert past + [l] + labels[1..] == past + labels;
  }

  /** The history is what happened: every event was logged by a step of its kind with the same
      arguments, in the order of the steps, and no interrupt, accepted write or ioctl is missing. A
      -EAGAIN belongs to a call under O_NONBLOCK, and a reader that waits to one without. */
  lemma HistoryIsWhatHappened(k: nat, s: State, labels: seq<Label>, t: State) returns (at: seq<nat>)
    requires Init(k, s) && Leads(s, labels, t)
    ensures HistoryOk(labels, t, at) && CallsOk(labels, t)
  {
    at := RunHistory([], s, labels, t, []);
    assert [] + labels == labels;
  }
}
