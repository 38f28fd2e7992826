/** The driver of HW16/module3/hw3.c under interleaving: the interrupt handler, any number of
    readers with the parts of `wait_event_interruptible` as separate steps, any number of callers of
    the LED ioctls, whose SETLED is two sections, and any number of writers, pollers and callers of
    the control ioctl. A section under the spinlock is one step. */
module Hw3System {
  import opened CInt
  import opened Hw3Device

  datatype ReaderPc =
    | Idle
    | Test(nonblock: bool)
    | WaitFast
    | Enqueue
    | WaitCheck(signalled: bool)
    | Asleep
    | Dequeue
    | CopyOut(c: char)

  datatype Reader = Reader(pc: ReaderPc, queued: bool)

  /** `ReadBack`: SETLED has left its first section and falls through to GETLED; `from` is the length
      of the history at that moment. */
  datatype CallerPc =
    | Resting
    | ReadBack(val: int, from: nat)

  /** History. `Set` is a write or the first section of a SETLED; `Got` and `Echo` are the values that
      GETLED and SETLED hand back. */
  datatype Event =
    | Irq(level: int)
    | Took(r: nat, c: char)
    | Set(val: int)
    | Control(val: int)
    | PollIn
    | Again(r: nat)
    | Got(caller: nat, value: int)
    | Echo(caller: nat, val: int, from: nat, value: int)

  /** `wakeDue`: the handler has left its critical section and not yet called the wake-up. */
  datatype State = State(
    dev: Dev, wakeDue: bool, readers: seq<Reader>, callers: seq<CallerPc>, h: seq<Event>)

  datatype ReaderAct = Call(nonblock: bool) | Go | Signal

  datatype CallerAct = CallSetLed(val: int) | CallGetLed | FallThrough

  datatype Label =
    | IsrEnter(level: int)
    | IsrWake
    | ReaderDoes(r: nat, act: ReaderAct)
    | WriteBuf(buf: string)
    | CallerDoes(i: nat, op: CallerAct)
    | IoctlControl(val: int)
    | Poll

  predicate Init(k: nat, s: State) {
    && s.dev == PROBED && !s.wakeDue && |s.readers| == k && s.h == []
    && (forall r | 0 <= r < k :: s.readers[r] == Reader(Idle, false))
    && (forall i | 0 <= i < |s.callers| :: s.callers[i] == Resting)
  }

  predicate ReaderEnabled(s: State, r: nat, act: ReaderAct)
    requires r < |s.readers|
  {
    var pc := s.readers[r].pc;
    match act
    case Call(_) => pc.Idle?
    case Signal => pc.Enqueue? || pc.Asleep?
    case Go => !pc.Idle? && (pc.Asleep? ==> !s.readers[r].queued)
  }

  /** The interrupt line does not interrupt its own handler. */
  predicate Enabled(s: State, l: Label) {
    match l
    case IsrEnter(_) => !s.wakeDue
    case IsrWake => s.wakeDue
    case ReaderDoes(r, act) => r < |s.readers| && ReaderEnabled(s, r, act)
    case CallerDoes(i, op) => i < |s.callers| && (op.FallThrough? <==> s.callers[i].ReadBack?)
    case _ => true
  }

  function Move(s: State, r: nat, pc: ReaderPc, queued: bool): State
    requires r < |s.readers|
  {
    s.(readers := s.readers[r := Reader(pc, queued)])
  }

  function ReaderApply(s: State, r: nat, act: ReaderAct): State
    requires r < |s.readers| && ReaderEnabled(s, r, act)
  {
    var reader := s.readers[r];
    match act
    case Call(nonblock) => Move(s, r, Test(nonblock), reader.queued)
    case Signal =>
      if reader.pc.Enqueue? then Move(s, r, WaitCheck(true), false) else Move(s, r, Enqueue, reader.queued)
    case Go =>
      match reader.pc
      case Test(nonblock) =>
        if s.dev.dataReady then
          Move(s, r, CopyOut(Shown(s.dev)), reader.queued).(dev := Take(s.dev), h := s.h + [Took(r, Shown(s.dev))])
        else if nonblock then Move(s, r, Idle, reader.queued).(h := s.h + [Event.Again(r)])
        else Move(s, r, WaitFast, reader.queued)
      case WaitFast => Move(s, r, if s.dev.dataReady then Test(false) else Enqueue, reader.queued)
      case Enqueue => Move(s, r, WaitCheck(false), true)
      case WaitCheck(signalled) =>
        Move(s, r, if s.dev.dataReady then Dequeue else if signalled then Idle else Asleep, reader.queued)
      case Asleep => Move(s, r, Enqueue, reader.queued)
      case Dequeue => Move(s, r, Test(false), false)
      case CopyOut(_) => Move(s, r, Idle, reader.queued)
  }

  function CallerApply(s: State, i: nat, op: CallerAct): State
    requires Enabled(s, CallerDoes(i, op))
  {
    match op
    case CallSetLed(val) =>
      s.(dev := SetLed(s.dev, val), h := s.h + [Set(Bool(val))],
         callers := s.callers[i := ReadBack(val, |s.h| + 1)])
    case CallGetLed => s.(h := s.h + [Got(i, s.dev.ledOn)])
    case FallThrough =>
      var pc := s.callers[i];
      s.(h := s.h + [Echo(i, pc.val, pc.from, s.dev.ledOn)], callers := s.callers[i := Resting])
  }

  function Apply(s: State, l: Label): State
    requires Enabled(s, l)
  {
    match l
    case IsrEnter(level) => s.(dev := Isr(s.dev, level), wakeDue := true, h := s.h + [Irq(level)])
    case IsrWake =>
      s.(wakeDue := false,
         readers := seq(|s.readers|, r requires 0 <= r < |s.readers| => s.readers[r].(queued := false)))
    case ReaderDoes(r, act) => ReaderApply(s, r, act)
    case WriteBuf(buf) =>
      if ParseFirst(buf).Invalid? then s
      else s.(dev := Write(s.dev, buf), h := s.h + [Set(Bool(ParseFirst(buf).val))])
    case CallerDoes(i, op) => CallerApply(s, i, op)
    case IoctlControl(val) => s.(dev := SetControl(s.dev, val), h := s.h + [Control(Bool(val))])
    case Poll => if s.dev.dataReady then s.(h := s.h + [PollIn]) else s
  }

  ghost predicate Leads(s: State, labels: seq<Label>, t: State)
    decreases |labels|
  {
    if labels == [] then s == t
    else Enabled(s, labels[0]) && Leads(Apply(s, labels[0]), labels[1..], t)
  }

  ghost predicate Reachable(k: nat, t: State) {
    exists s, labels :: Init(k, s) && Leads(s, labels, t)
  }

  // What a history means, read off its events.

  /** The latest interrupt is at `i` and nobody has taken it. */
  predicate PendingAt(h: seq<Event>, i: int) {
    && 0 <= i < |h| && h[i].Irq?
    && forall j | i < j < |h| :: !h[j].Irq? && !h[j].Took?
  }

  /** An interrupt has occurred since the last consuming read. */
  ghost predicate Pending(h: seq<Event>) {
    exists i :: PendingAt(h, i)
  }

  function Count(h: seq<Event>, irqs: bool): nat {
    if h == [] then 0
    else Count(h[..|h| - 1], irqs) +
         (if irqs && h[|h| - 1].Irq? then 1 else if !irqs && h[|h| - 1].Took? then 1 else 0)
  }

  /** Kernel control as last set; it is on after probe. */
  function ControlOn(h: seq<Event>): bool {
    if h == [] then true
    else if h[|h| - 1].Control? then h[|h| - 1].val != 0
    else ControlOn(h[..|h| - 1])
  }

  /** Events up to and including the last `Set`. */
  function UpToSet(h: seq<Event>): (n: nat)
    ensures n <= |h|
    ensures n > 0 ==> h[n - 1].Set?
    ensures forall i | n <= i < |h| :: !h[i].Set?
  {
    if h == [] then 0 else if h[|h| - 1].Set? then |h| else UpToSet(h[..|h| - 1])
  }

  /** Press interrupts from position `from` on that were taken while kernel control was on. */
  function Presses(h: seq<Event>, from: nat): nat {
    if |h| <= from then 0
    else
      var rest, e := h[..|h| - 1], h[|h| - 1];
      Presses(rest, from) + if e.Irq? && e.level != 0 && ControlOn(rest) then 1 else 0
  }

  /** The LED as the history says it must be. */
  function LedOf(h: seq<Event>): int {
    var n := UpToSet(h);
    ((if n == 0 then 0 else h[n - 1].val) + Presses(h, n)) % 2
  }

  predicate LedOk(s: State) {
    && s.dev.ledOn == s.dev.ledLine == LedOf(s.h)
    && (s.dev.control != 0 <==> ControlOn(s.h))
    && forall i | 0 <= i < |s.h| && s.h[i].Set? :: s.h[i].val == 0 || s.h[i].val == 1
  }

  /** The `from`th event set the LED to `val`. */
  predicate SetBefore(h: seq<Event>, val: int, from: nat) {
    0 < from <= |h| && h[from - 1] == Set(Bool(val))
  }

  /** Event `k` of the history is in order with what went before it. */
  ghost predicate InOrder(h: seq<Event>, k: nat)
    requires k < |h|
  {
    match h[k]
    case Took(_, c) =>
      exists i :: PendingAt(h[..k], i) && c == (if h[i].level != 0 then '1' else '0')
    case PollIn => Pending(h[..k])
    case Again(_) => !Pending(h[..k])
    case Got(_, value) => value == LedOf(h[..k])
    case Echo(_, val, from, value) => SetBefore(h, val, from) && from <= k && value == LedOf(h[..k])
    case _ => true
  }

  ghost predicate DataOk(s: State) {
    && (s.dev.dataReady <==> Pending(s.h))
    && (forall i | PendingAt(s.h, i) :: s.dev.btnOn == s.h[i].level)
    && Count(s.h, false) + (if s.dev.dataReady then 1 else 0) <= Count(s.h, true)
    && forall k | 0 <= k < |s.h| :: InOrder(s.h, k)
  }

  predicate SleepOk(s: State) {
    forall r | 0 <= r < |s.readers| ::
      s.readers[r].pc.Asleep? && s.readers[r].queued && s.dev.dataReady ==> s.wakeDue
  }

  predicate CallersOk(s: State) {
    forall i | 0 <= i < |s.callers| && s.callers[i].ReadBack? :: SetBefore(s.h, s.callers[i].val, s.callers[i].from)
  }

  ghost predicate Inv(s: State) {
    LedOk(s) && DataOk(s) && SleepOk(s) && CallersOk(s)
  }

  // One event at a time.

  lemma PendingSnoc(h: seq<Event>, e: Event)
    ensures e.Irq? ==> PendingAt(h + [e], |h|)
    ensures e.Irq? ==> forall i | PendingAt(h + [e], i) :: i == |h|
    ensures e.Took? ==> !Pending(h + [e])
    ensures !e.Irq? && !e.Took? ==> forall i :: PendingAt(h + [e], i) <==> PendingAt(h, i)
  {
    var g := h + [e];
    forall i | PendingAt(g, i) ensures e.Irq? ==> i == |h| {
      assert i < |h| ==> g[|h|] == e;
    }
    if e.Took? {
      forall i ensures !PendingAt(g, i) {
        assert g[|h|] == e;
      }
    }
    if !e.Irq? && !e.Took? {
      forall i ensures PendingAt(g, i) <==> PendingAt(h, i) {
        if i < |h| && PendingAt(h, i) {
          forall j | i < j < |g| ensures !g[j].Irq? && !g[j].Took? {
            assert j < |h| ==> g[j] == h[j];
          }
        }
        if PendingAt(g, i) {
          assert i < |h| && g[i] == h[i];
          forall j | i < j < |h| ensures !h[j].Irq? && !h[j].Took? {
            assert g[j] == h[j];
          }
        }
      }
    }
  }

  lemma CountSnoc(h: seq<Event>, e: Event, irqs: bool)
    ensures Count(h + [e], irqs) ==
            Count(h, irqs) + (if irqs && e.Irq? then 1 else if !irqs && e.Took? then 1 else 0)
  {
  }

  lemma InOrderSnoc(h: seq<Event>, e: Event)
    requires forall k | 0 <= k < |h| :: InOrder(h, k)
    requires InOrder(h + [e], |h|)
    ensures forall k | 0 <= k < |h + [e]| :: InOrder(h + [e], k)
  {
    forall k | 0 <= k < |h| ensures InOrder(h + [e], k) {
      assert InOrder(h, k);
      assert (h + [e])[..k] == h[..k];
      assert forall i | 0 <= i < |h| :: (h + [e])[i] == h[i];
    }
  }

  lemma SnocKeepsLed(s: State, t: State, e: Event)
    requires LedOk(s) && t.h == s.h + [e] && (e.Set? ==> e.val == 0 || e.val == 1)
    requires t.dev.ledOn == t.dev.ledLine
    requires t.dev.ledOn == if e.Set? then e.val
                            else if e.Irq? && e.level != 0 && s.dev.control != 0 then Xor1(s.dev.ledOn)
                            else s.dev.ledOn
    requires t.dev.control == if e.Control? then e.val else s.dev.control
    ensures LedOk(t)
  {
  }

  lemma SnocKeepsData(s: State, t: State, e: Event)
    requires DataOk(s) && t.h == s.h + [e] && InOrder(t.h, |s.h|)
    requires t.dev.dataReady == if e.Irq? then true else if e.Took? then false else s.dev.dataReady
    requires t.dev.btnOn == if e.Irq? then e.level else s.dev.btnOn
    requires e.Took? ==> s.dev.dataReady
    ensures DataOk(t)
  {
    PendingSnoc(s.h, e);
    CountSnoc(s.h, e, true);
    CountSnoc(s.h, e, false);
    InOrderSnoc(s.h, e);
    if e.Irq? {
      assert t.h[|s.h|] == e;
    } else if !e.Took? {
      assert forall i | PendingAt(s.h, i) :: t.h[i] == s.h[i];
      if Pending(s.h) {
        var i :| PendingAt(s.h, i);
        assert PendingAt(t.h, i);
      }
    }
  }

  /** An event that is in order by itself. */
  lemma PlainInOrder(s: State, e: Event)
    requires DataOk(s) && s.dev.ledOn == LedOf(s.h)
    requires e.Took? ==> s.dev.dataReady && e.c == Shown(s.dev)
    requires e.PollIn? ==> s.dev.dataReady
    requires e.Again? ==> !s.dev.dataReady
    requires e.Got? || e.Echo? ==> e.value == s.dev.ledOn
    requires e.Echo? ==> SetBefore(s.h, e.val, e.from)
    ensures InOrder(s.h + [e], |s.h|)
  {
    assert (s.h + [e])[..|s.h|] == s.h;
  }

  lemma EventKeeps(s: State, t: State, e: Event)
    requires Inv(s) && t.h == s.h + [e] && SleepOk(t) && CallersOk(t) && (e.Set? ==> e.val == 0 || e.val == 1)
    requires t.dev.ledOn == t.dev.ledLine
    requires t.dev.ledOn == if e.Set? then e.val
                            else if e.Irq? && e.level != 0 && s.dev.control != 0 then Xor1(s.dev.ledOn)
                            else s.dev.ledOn
    requires t.dev.control == if e.Control? then e.val else s.dev.control
    requires t.dev.dataReady == if e.Irq? then true else if e.Took? then false else s.dev.dataReady
    requires t.dev.btnOn == if e.Irq? then e.level else s.dev.btnOn
    requires e.Took? ==> s.dev.dataReady && e.c == Shown(s.dev)
    requires e.PollIn? ==> s.dev.dataReady
    requires e.Again? ==> !s.dev.dataReady
    requires e.Got? || e.Echo? ==> e.value == s.dev.ledOn
    requires e.Echo? ==> SetBefore(s.h, e.val, e.from)
    ensures Inv(t)
  {
    SnocKeepsLed(s, t, e);
    PlainInOrder(s, e);
    SnocKeepsData(s, t, e);
  }

  lemma SleepKeeps(s: State, l: Label)
    requires SleepOk(s) && Enabled(s, l)
    ensures SleepOk(Apply(s, l))
  {
  }

  lemma CallersKeep(s: State, l: Label)
    requires CallersOk(s) && Enabled(s, l)
    ensures CallersOk(Apply(s, l))
  {
  }

  lemma CallerStepKeeps(s: State, i: nat, op: CallerAct)
    requires Inv(s) && Enabled(s, CallerDoes(i, op))
    requires SleepOk(CallerApply(s, i, op)) && CallersOk(CallerApply(s, i, op))
    ensures Inv(CallerApply(s, i, op))
  {
    var t := CallerApply(s, i, op);
    match op
    case CallSetLed(val) => SetStepKeeps(s, t, val);
    case CallGetLed => EventKeeps(s, t, Got(i, s.dev.ledOn));
    case FallThrough => EventKeeps(s, t, Echo(i, s.callers[i].val, s.callers[i].from, s.dev.ledOn));
  }

  lemma ReaderStepKeeps(s: State, r: nat, act: ReaderAct)
    requires Inv(s) && r < |s.readers| && ReaderEnabled(s, r, act)
    requires SleepOk(ReaderApply(s, r, act)) && CallersOk(ReaderApply(s, r, act))
    ensures Inv(ReaderApply(s, r, act))
  {
    var t := ReaderApply(s, r, act);
    if act.Go? && s.readers[r].pc.Test? && s.dev.dataReady {
      EventKeeps(s, t, Took(r, Shown(s.dev)));
    } else if act.Go? && s.readers[r].pc.Test? && s.readers[r].pc.nonblock {
      EventKeeps(s, t, Event.Again(r));
    } else {
      assert t.dev == s.dev && t.h == s.h;
    }
  }

  lemma SetStepKeeps(s: State, t: State, val: int)
    requires Inv(s) && t.dev == SetLed(s.dev, val) && t.h == s.h + [Set(Bool(val))]
    requires SleepOk(t) && CallersOk(t)
    ensures Inv(t)
  {
    EventKeeps(s, t, Set(Bool(val)));
  }

  lemma StepKeeps(s: State, l: Label)
    requires Inv(s) && Enabled(s, l)
    ensures Inv(Apply(s, l))
  {
    var t := Apply(s, l);
    SleepKeeps(s, l);
    CallersKeep(s, l);
    match l
    case IsrEnter(level) => EventKeeps(s, t, Irq(level));
    case IsrWake => assert t.dev == s.dev && t.h == s.h;
    case ReaderDoes(r, act) => ReaderStepKeeps(s, r, act);
    case WriteBuf(buf) =>
      if ParseFirst(buf).Value? {
        assert t.dev == SetLed(s.dev, ParseFirst(buf).val);
        SetStepKeeps(s, t, ParseFirst(buf).val);
      }
    case CallerDoes(i, op) => CallerStepKeeps(s, i, op);
    case IoctlControl(val) => EventKeeps(s, t, Control(Bool(val)));
    case Poll =>
      if s.dev.dataReady {
        EventKeeps(s, t, PollIn);
      }
  }

  lemma {:induction false} LeadsKeeps(s: State, labels: seq<Label>, t: State)
    requires Inv(s) && Leads(s, labels, t)
    ensures Inv(t)
    decreases |labels|
  {
    if labels != [] {
      StepKeeps(s, labels[0]);
      LeadsKeeps(Apply(s, labels[0]), labels[1..], t);
    }
  }

  lemma InitInv(k: nat, s: State)
    requires Init(k, s)
    ensures Inv(s)
  {
  }

  lemma ReachableInv(k: nat, t: State)
    requires Reachable(k, t)
    ensures Inv(t)
  {
    var s, labels :| Init(k, s) && Leads(s, labels, t);
    InitInv(k, s);
    LeadsKeeps(s, labels, t);
  }

  // The promises.

  /** No lost wake-up: a reader is asleep while data is ready only if the handler has yet to execute
      its wake-up. */
  lemma NoLostWakeup(k: nat, s: State, r: nat)
    requires Reachable(k, s) && r < |s.readers| && s.readers[r].pc.Asleep? && s.readers[r].queued
    ensures s.dev.dataReady ==> s.wakeDue
  {
    ReachableInv(k, s);
  }

  /** Coalescing: data is ready exactly when an interrupt has occurred since the last consuming read,
      and consuming reads never outnumber interrupts. */
  lemma EventCoalescing(k: nat, s: State)
    requires Reachable(k, s)
    ensures s.dev.dataReady <==> Pending(s.h)
    ensures Count(s.h, false) + (if s.dev.dataReady then 1 else 0) <= Count(s.h, true)
  {
    ReachableInv(k, s);
  }

  /** Every consuming read takes an interrupt nobody took before, the latest one, and its level. */
  lemma ReadsTakeLatest(k: nat, s: State, j: nat)
    requires Reachable(k, s) && j < |s.h| && s.h[j].Took?
    ensures exists i :: PendingAt(s.h[..j], i) && s.h[j].c == (if s.h[i].level != 0 then '1' else '0')
  {
    ReachableInv(k, s);
    assert InOrder(s.h, j);
  }

  /** Once pending, an interrupt stays pending until somebody takes it. */
  lemma {:induction false} PendingLasts(h: seq<Event>, i: nat, j: nat)
    requires i <= j <= |h| && Pending(h[..i]) && forall m | i <= m < j :: !h[m].Took?
    ensures Pending(h[..j])
    decreases j - i
  {
    if i < j {
      PendingSnoc(h[..i], h[i]);
      assert h[..i + 1] == h[..i] + [h[i]];
      var p :| PendingAt(h[..i], p);
      assert PendingAt(h[..i + 1], if h[i].Irq? then i else p);
      PendingLasts(h, i + 1, j);
    }
  }

  /** After a poll returned POLLIN, a read fails with -EAGAIN only if somebody took the data in
      between. So a sole reader that has not read since never sees -EAGAIN. */
  lemma AgainAfterPollIn(k: nat, s: State, i: nat, j: nat)
    requires Reachable(k, s) && i < j < |s.h| && s.h[i].PollIn? && s.h[j].Again?
    ensures exists m | i < m < j :: s.h[m].Took?
  {
    ReachableInv(k, s);
    assert InOrder(s.h, i) && InOrder(s.h, j);
    if forall m | i <= m < j :: !s.h[m].Took? {
      PendingLasts(s.h, i, j);
    }
  }

  /** The first read to pass the locked test after a POLLIN consumes: a sole reader that polls and
      then reads never gets -EAGAIN. */
  lemma FirstReadAfterPollInConsumes(k: nat, s: State, i: nat, j: nat)
    requires Reachable(k, s) && i < j < |s.h| && s.h[i].PollIn?
    requires s.h[j].Took? || s.h[j].Again?
    requires forall m | i < m < j :: !s.h[m].Took? && !s.h[m].Again?
    ensures s.h[j].Took?
  {
    if s.h[j].Again? {
      AgainAfterPollIn(k, s, i, j);
    }
  }

  /** The LED line equals `led_on`, and `led_on` is the value last set xor the parity of the presses
      taken since then while kernel control was on. */
  lemma LedIsFoldOfHistory(k: nat, s: State)
    requires Reachable(k, s)
    ensures s.dev.ledLine == s.dev.ledOn == LedOf(s.h)
    ensures s.dev.ledOn == 0 || s.dev.ledOn == 1
  {
    ReachableInv(k, s);
  }

  /** GETLED and SETLED hand back the LED as the history up to their reading section says it is. */
  lemma HandsBackCurrentLed(k: nat, s: State, j: nat)
    requires Reachable(k, s) && j < |s.h| && (s.h[j].Got? || s.h[j].Echo?)
    ensures s.h[j].value == LedOf(s.h[..j])
  {
    ReachableInv(k, s);
    assert InOrder(s.h, j);
  }

  lemma LedParity(h: seq<Event>, bit: int)
    requires var n := UpToSet(h); n > 0 && (h[n - 1].val == 0 || h[n - 1].val == 1)
    requires bit == 0 || bit == 1
    ensures var n := UpToSet(h);
      LedOf(h) == bit <==> (h[n - 1].val == bit <==> Presses(h, n) % 2 == 0)
  {
  }

  lemma EchoInOrder(k: nat, s: State, j: nat)
    requires Reachable(k, s) && j < |s.h| && s.h[j].Echo?
    ensures SetBefore(s.h, s.h[j].val, s.h[j].from) && s.h[j].from <= j
    ensures forall i | 0 <= i < j && s.h[i].Set? :: s.h[i].val == 0 || s.h[i].val == 1
  {
    ReachableInv(k, s);
    assert InOrder(s.h, j);
  }

  lemma LastSetNotBefore(h: seq<Event>, from: nat)
    requires 0 < from <= |h| && h[from - 1].Set?
    ensures UpToSet(h) >= from
  {
  }

  /** SETLED sets and reads back in two critical sections, and anything may happen in between. It hands
      back what it set if and only if the last value set by anybody up to the read-back, flipped once for
      each press taken since under kernel control, is that value again. */
  lemma SetLedEcho(k: nat, s: State, j: nat)
    requires Reachable(k, s) && j < |s.h| && s.h[j].Echo?
    ensures var e, n := s.h[j], UpToSet(s.h[..j]);
      && SetBefore(s.h, e.val, e.from) && e.from <= n <= j
      && (e.value == Bool(e.val) <==> (s.h[n - 1].val == Bool(e.val) <==> Presses(s.h[..j], n) % 2 == 0))
  {
    HandsBackCurrentLed(k, s, j);
    EchoInOrder(k, s, j);
    var e, past := s.h[j], s.h[..j];
    LastSetNotBefore(past, e.from);
    var n := UpToSet(past);
    assert past[n - 1] == s.h[n - 1] && s.h[n - 1].Set?;
    LedParity(past, Bool(e.val));
  }

  /** Both kinds of interference happen: a press, or another client writing "0", between the sections
      of a SETLED of 1. */
  lemma EchoDiffers(k: nat, s: State, between: Label) returns (t: State)
    requires Init(k, s) && s.callers != [] && (between == IsrEnter(1) || between == WriteBuf("0"))
    ensures Leads(s, [CallerDoes(0, CallSetLed(1)), between, CallerDoes(0, FallThrough)], t)
    ensures |t.h| == 3 && t.h[2] == Echo(0, 1, 1, 0)
  {
    var labels := [CallerDoes(0, CallSetLed(1)), between, CallerDoes(0, FallThrough)];
    var stored := Apply(s, labels[0]);
    var disturbed := Apply(stored, between);
    t := Apply(disturbed, labels[2]);
    assert labels[1..][1..][1..] == [];
    assert Leads(t, labels[1..][1..][1..], t);
    assert Leads(disturbed, labels[1..][1..], t);
    assert Leads(stored, labels[1..], t);
  }
}
