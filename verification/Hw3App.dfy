/** The program of HW16/module3/hw3-app.c as the only client of the driver, with button interrupts
    arriving at any point between its steps. */
module Hw3App {
  import opened CInt
  import opened Hw3Device

  const COUNT := 20
  const READ_BUF_LEN := 2
  const EXIT_SUCCESS := 0
  const EXIT_FAILURE := 1

  datatype Pc =
    | HandOver
    | Snapshot
    | LoopHead
    | Polling
    | Reading
    | Handling
    | Writing
    | LoopEnd
    | Restore
    | Done

  /** `ledOn`, `buf`, `i` and `ret` are the program's variables; `led0`, `taken`, `handed` and
      `refused` are history: the LED at the snapshot, the characters read so far, whether the
      hand-over of control went through, and whether the driver refused to take it back. */
  datatype State = State(
    dev: Dev, pc: Pc, i: nat, ledOn: int, buf: string, ret: int, led0: int, taken: string,
    handed: bool, refused: bool)

  datatype PollOutcome = PollError | Timeout | NoPollIn | PollIn

  datatype Label =
    | Interrupt(level: int)
    | HandOverFails
    | RestoreFails
    | Polled(outcome: PollOutcome)
    | Go

  /** Any state other clients may have left the driver in, data waiting or not. */
  predicate Init(s: State) {
    && (s.dev.ledOn == 0 || s.dev.ledOn == 1) && s.dev.ledLine == s.dev.ledOn
    && s.pc == HandOver && s.i == 0 && s.ret == EXIT_FAILURE && s.taken == "" && !s.handed && !s.refused
    && |s.buf| >= READ_BUF_LEN
  }

  /** `poll` reports POLLIN when the driver has data. */
  predicate Enabled(s: State, l: Label) {
    match l
    case Interrupt(_) => true
    case HandOverFails => s.pc.HandOver?
    case RestoreFails => s.pc.Restore?
    case Polled(outcome) => s.pc.Polling? && (outcome.PollIn? ==> s.dev.dataReady)
    case Go => !s.pc.Polling? && !s.pc.Done?
  }

  /** `text` and its terminator copied to the front of the buffer. */
  function Overlay(buf: string, text: string): (r: string)
    ensures |text| < |r| && |buf| <= |r|
    ensures r[..|text|] == text
  {
    text + ['\0'] + if |text| < |buf| then buf[|text| + 1..] else ""
  }

  function GoApply(s: State): State
    requires Enabled(s, Go) && |s.buf| >= READ_BUF_LEN
  {
    match s.pc
    case HandOver => s.(dev := SetControl(s.dev, 0), handed := true, pc := Snapshot)
    case Snapshot => s.(ledOn := s.dev.ledOn, led0 := s.dev.ledOn, pc := LoopHead)
    case LoopHead => s.(pc := if s.i < COUNT then Polling else Restore)
    case Reading =>
      if s.dev.dataReady then
        s.(dev := Take(s.dev), buf := s.buf[0 := Shown(s.dev)][1 := '\0'], ret := READ_BUF_LEN,
           taken := s.taken + [Shown(s.dev)], pc := Handling)
      else s.(ret := -1, pc := Handling)
    case Handling =>
      if s.buf[0] == '0' then
        s.(ledOn := Xor1(s.ledOn), buf := Overlay(s.buf, Sprintf(Xor1(s.ledOn))), pc := Writing)
      else s.(pc := LoopEnd)
    case Writing => s.(dev := Write(s.dev, s.buf), pc := LoopEnd)
    case LoopEnd => s.(i := s.i + 1, pc := LoopHead)
    case Restore => s.(dev := SetControl(s.dev, 1), ret := EXIT_SUCCESS, pc := Done)
  }

  /** The result of the last ioctl is not looked at: the exit status is 0 all the same. */
  function Apply(s: State, l: Label): State
    requires Enabled(s, l) && |s.buf| >= READ_BUF_LEN
  {
    match l
    case Interrupt(level) => s.(dev := Isr(s.dev, level))
    case HandOverFails => s.(pc := Done)
    case RestoreFails => s.(ret := EXIT_SUCCESS, refused := true, pc := Done)
    case Polled(outcome) => s.(pc := if outcome.PollIn? then Reading else Done)
    case Go => GoApply(s)
  }

  ghost predicate Leads(s: State, labels: seq<Label>, t: State)
    decreases |labels|
  {
    if labels == [] then s == t
    else |s.buf| >= READ_BUF_LEN && Enabled(s, labels[0]) && Leads(Apply(s, labels[0]), labels[1..], t)
  }

  ghost predicate Reachable(t: State) {
    exists s, labels :: Init(s) && Leads(s, labels, t)
  }

  /** Button releases among the characters read. */
  function Releases(taken: string): nat {
    if taken == "" then 0
    else Releases(taken[..|taken| - 1]) + if taken[|taken| - 1] == '0' then 1 else 0
  }

  /** Between the hand-over and its return the program alone switches the LED. */
  predicate InCharge(pc: Pc) {
    pc.LoopHead? || pc.Polling? || pc.Reading? || pc.Handling? || pc.Writing? || pc.LoopEnd? || pc.Restore?
  }

  /** What `main` returns after `count` reads: 0 after all of them, else what the last read returned, if
      there was one. */
  function ExitStatus(count: nat): int {
    if count == COUNT then EXIT_SUCCESS else if count == 0 then EXIT_FAILURE else READ_BUF_LEN
  }

  predicate Inv(s: State) {
    && |s.buf| >= READ_BUF_LEN
    && (s.dev.ledOn == 0 || s.dev.ledOn == 1) && s.dev.ledLine == s.dev.ledOn
    && (s.pc.Snapshot? || InCharge(s.pc) ==> s.dev.control == 0)
    && (s.pc.HandOver? || s.pc.Snapshot? ==> s.i == 0 && s.ret == EXIT_FAILURE && s.taken == "")
    && (InCharge(s.pc) ==>
          && s.ret == (if s.taken == "" then EXIT_FAILURE else READ_BUF_LEN)
          && s.dev.ledOn == (if s.pc.Writing? then Xor1(s.ledOn) else s.ledOn)
          && s.ledOn == (s.led0 + Releases(Handled(s))) % 2
          && (s.led0 == 0 || s.led0 == 1)
          && s.i <= COUNT
          && |s.taken| == s.i + if s.pc.Handling? || s.pc.Writing? || s.pc.LoopEnd? then 1 else 0)
    && (s.pc.Polling? || s.pc.Reading? || s.pc.Handling? || s.pc.Writing? || s.pc.LoopEnd? ==> s.i < COUNT)
    && (s.pc.Restore? ==> s.i == COUNT)
    && (s.pc.Reading? ==> s.dev.dataReady)
    && (s.pc.HandOver? ==> !s.handed)
    && (!s.pc.HandOver? && !s.pc.Done? ==> s.handed)
    && (s.pc.Handling? ==> s.ret == READ_BUF_LEN && s.taken != "" && s.buf[0] == s.taken[|s.taken| - 1])
    && (s.pc.Writing? ==> s.buf[0] == Sprintf(s.ledOn)[0])
    && (s.refused ==> s.pc.Done? && s.ret == EXIT_SUCCESS)
    && (s.pc.Done? && s.handed ==>
          && s.dev.control == (if s.ret == EXIT_SUCCESS && !s.refused then 1 else 0)
          && |s.taken| <= COUNT
          && s.ret == ExitStatus(|s.taken|))
    && (s.pc.Done? && !s.handed ==> s.ret == EXIT_FAILURE && s.taken == "")
  }

  /** The characters already acted upon. */
  function Handled(s: State): string {
    if s.pc.Handling? && s.taken != "" then s.taken[..|s.taken| - 1] else s.taken
  }

  lemma ReadingKeeps(s: State)
    requires Inv(s) && s.pc.Reading?
    ensures Inv(GoApply(s))
  {
  }

  lemma HandlingKeeps(s: State)
    requires Inv(s) && s.pc.Handling?
    ensures Inv(GoApply(s))
  {
  }

  lemma WritingKeeps(s: State)
    requires Inv(s) && s.pc.Writing?
    ensures Inv(GoApply(s))
  {
  }

  /** The steps outside the loop body. */
  lemma FrameKeeps(s: State)
    requires Inv(s) && (s.pc.HandOver? || s.pc.Snapshot? || s.pc.Restore?)
    ensures Inv(GoApply(s))
  {
  }

  lemma LoopKeeps(s: State)
    requires Inv(s) && (s.pc.LoopHead? || s.pc.LoopEnd?)
    ensures Inv(GoApply(s))
  {
  }

  lemma GoKeeps(s: State)
    requires Inv(s) && Enabled(s, Go)
    ensures Inv(GoApply(s))
  {
    match s.pc
    case Reading => ReadingKeeps(s);
    case Handling => HandlingKeeps(s);
    case Writing => WritingKeeps(s);
    case LoopHead => LoopKeeps(s);
    case LoopEnd => LoopKeeps(s);
    case _ => FrameKeeps(s);
  }

  lemma StepKeeps(s: State, l: Label)
    requires Inv(s) && Enabled(s, l)
    ensures Inv(Apply(s, l))
  {
    if l.Go? {
      GoKeeps(s);
    }
  }

  lemma {:induction false} LeadsKeeps(s: State, labels: seq<Label>, t: State)
    requires Inv(s) && Leads(s, labels, t)
    ensures Inv(t)
    decreases |labels|
  {
    if labels != [] {
      StepKeeps(s, labels[0]);
      LeadsKeeps(Apply(s, labels[0]), labels[1..], t);
    }
  }

  lemma ReachableInv(t: State)
    requires Reachable(t)
    ensures Inv(t)
  {
    var s, labels :| Init(s) && Leads(s, labels, t);
    LeadsKeeps(s, labels, t);
  }

  /** The program's cached `led_on` equals the driver's, and the LED itself, at every loop head,
      however interrupts interleave; it is the snapshot xor the parity of the releases read. */
  lemma CacheCoherence(s: State)
    requires Reachable(s) && s.pc.LoopHead?
    ensures s.ledOn == s.dev.ledOn == s.dev.ledLine == (s.led0 + Releases(s.taken)) % 2
    ensures s.ledOn == 0 || s.ledOn == 1
  {
    ReachableInv(s);
  }

  /** After POLLIN the non-blocking read always finds data, so the buffer acted upon is never a stale
      one. */
  lemma ReadAfterPollSucceeds(s: State)
    requires Reachable(s)
    ensures s.pc.Reading? ==> s.dev.dataReady
    ensures s.pc.Handling? ==> s.ret == READ_BUF_LEN && s.taken != "" && |s.buf| > 0 && s.buf[0] == s.taken[|s.taken| - 1]
  {
    ReachableInv(s);
  }

  // How the program leaves the driver.

  /** Polls of the run that reported data. */
  function PollIns(labels: seq<Label>): nat {
    if labels == [] then 0 else (if labels[0] == Polled(PollIn) then 1 else 0) + PollIns(labels[1..])
  }

  function Announced(s: State): nat {
    |s.taken| + if s.pc.Reading? then 1 else 0
  }

  lemma StepHistory(s: State, l: Label)
    requires Inv(s) && Enabled(s, l)
    ensures var t := Apply(s, l);
      && Announced(t) == Announced(s) + (if l == Polled(PollIn) then 1 else 0)
      && (t.refused <==> s.refused || l == RestoreFails)
      && (s.pc.HandOver? || s.handed ==> t.pc.HandOver? || t.handed || l == HandOverFails)
      && (l == HandOverFails ==> t.pc.Done? && !t.handed)
      && (s.pc.Done? ==> t.pc.Done? && t.handed == s.handed)
      && (!t.handed ==> !s.handed && t.dev.control == s.dev.control)
      && t.dev.btnOn == if l.Interrupt? then l.level else s.dev.btnOn
  {
  }

  /** The level of the last interrupt, or `before` if there was none. */
  function LastLevel(before: int, labels: seq<Label>): int
    decreases |labels|
  {
    if labels == [] then before
    else LastLevel(if labels[0].Interrupt? then labels[0].level else before, labels[1..])
  }

  /** What the history fields say about the steps taken. */
  lemma {:induction false} RunHistory(s: State, labels: seq<Label>, t: State)
    requires Inv(s) && Leads(s, labels, t)
    ensures Announced(t) == Announced(s) + PollIns(labels)
    ensures t.refused <==> s.refused || RestoreFails in labels
    ensures s.pc.HandOver? || s.handed ==> t.pc.HandOver? || t.handed || HandOverFails in labels
    ensures s.pc.Done? ==> t.pc.Done? && t.handed == s.handed
    ensures HandOverFails in labels ==> !t.handed
    ensures !t.handed ==> !s.handed && t.dev.control == s.dev.control
    ensures t.dev.btnOn == LastLevel(s.dev.btnOn, labels)
    decreases |labels|
  {
    if labels != [] {
      var l, rest := labels[0], labels[1..];
      StepKeeps(s, l);
      StepHistory(s, l);
      RunHistory(Apply(s, l), rest, t);
      assert RestoreFails in labels <==> l == RestoreFails || RestoreFails in rest;
      assert HandOverFails in labels <==> l == HandOverFails || HandOverFails in rest;
    }
  }

  /** How every run ends. If the hand-over fails, kernel control is as it was. Otherwise it is back on if
      and only if all twenty polls reported data and the last ioctl went through, and else off, with the
      button left without effect on the LED. The exit status tells only about the reads. */
  lemma ExitState(s: State, labels: seq<Label>, t: State)
    requires Init(s) && Leads(s, labels, t) && t.pc.Done?
    ensures t.dev.control ==
            if HandOverFails in labels then s.dev.control
            else if PollIns(labels) == COUNT && RestoreFails !in labels then 1 else 0
    ensures t.dev.control == 0 ==> forall level :: Isr(t.dev, level).ledLine == t.dev.ledLine
    ensures t.ret == if HandOverFails in labels then EXIT_FAILURE
                     else if PollIns(labels) == COUNT then EXIT_SUCCESS
                     else if PollIns(labels) == 0 then EXIT_FAILURE else READ_BUF_LEN
  {
    LeadsKeeps(s, labels, t);
    RunHistory(s, labels, t);
  }

  /** A read takes the level of the last interrupt before it, pressed or released. */
  lemma ReadsLastLevel(s: State, labels: seq<Label>, t: State)
    requires Init(s) && Leads(s, labels, t) && t.pc.Reading?
    ensures |t.buf| >= READ_BUF_LEN
    ensures var u := Apply(t, Go);
      && u.taken == t.taken + [if LastLevel(s.dev.btnOn, labels) != 0 then '1' else '0']
      && !u.dev.dataReady && u.ret == READ_BUF_LEN
  {
    LeadsKeeps(s, labels, t);
    RunHistory(s, labels, t);
  }

  lemma LeadsThen(s: State, l: Label, rest: seq<Label>, t: State)
    requires |s.buf| >= READ_BUF_LEN && Enabled(s, l) && Leads(Apply(s, l), rest, t)
    ensures Leads(s, [l] + rest, t)
  {
    assert ([l] + rest)[1..] == rest;
  }

  /** Failing runs: nobody touches the button for ten seconds, or the first poll fails, and the button has
      lost its effect for good. */
  lemma FailedPollLeavesButtonDead(s: State, outcome: PollOutcome) returns (t: State)
    requires Init(s) && s.dev.control == 1 && !outcome.PollIn?
    ensures Leads(s, [Go, Go, Go, Polled(outcome)], t) && t.pc.Done?
    ensures t.dev.control == 0 && t.ret == EXIT_FAILURE
    ensures Isr(s.dev, 1).ledLine != s.dev.ledLine && Isr(t.dev, 1).ledLine == t.dev.ledLine
  {
    var snap := Apply(s, Go);
    var head := Apply(snap, Go);
    var polling := Apply(head, Go);
    t := Apply(polling, Polled(outcome));
    assert Leads(t, [], t);
    LeadsThen(polling, Polled(outcome), [], t);
    LeadsThen(head, Go, [Polled(outcome)] + [], t);
    LeadsThen(snap, Go, [Go] + ([Polled(outcome)] + []), t);
    LeadsThen(s, Go, [Go] + ([Go] + ([Polled(outcome)] + [])), t);
    assert [Go] + ([Go] + ([Go] + ([Polled(outcome)] + []))) == [Go, Go, Go, Polled(outcome)];
  }

  /** A run that fails at once: the hand-over is refused, and the button works as before. */
  lemma RefusedHandOver(s: State) returns (t: State)
    requires Init(s)
    ensures Leads(s, [HandOverFails], t) && t.pc.Done? && t.dev == s.dev && t.ret == EXIT_FAILURE
  {
    t := Apply(s, HandOverFails);
    assert Leads(t, [HandOverFails][1..], t);
  }

  /** The state at `Handling` after an interrupt at `level` on the way from the loop head. */
  function AtHandling(s: State, level: int): State
    requires |s.buf| >= READ_BUF_LEN
  {
    var c := if level != 0 then '1' else '0';
    s.(dev := s.dev.(btnOn := level, dataReady := false), buf := s.buf[0 := c][1 := '\0'], ret := READ_BUF_LEN,
       taken := s.taken + [c], pc := Handling)
  }

  lemma ToHandling(s: State, level: int, rest: seq<Label>, t: State)
    requires Inv(s) && s.pc.LoopHead? && s.i < COUNT && Leads(AtHandling(s, level), rest, t)
    ensures Leads(s, [Go, Interrupt(level), Polled(PollIn), Go] + rest, t)
  {
    var polling := Apply(s, Go);
    var raised := Apply(polling, Interrupt(level));
    var reading := Apply(raised, Polled(PollIn));
    assert Apply(reading, Go) == AtHandling(s, level);
    LeadsThen(reading, Go, rest, t);
    LeadsThen(raised, Polled(PollIn), [Go] + rest, t);
    LeadsThen(polling, Interrupt(level), [Polled(PollIn)] + ([Go] + rest), t);
    LeadsThen(s, Go, [Interrupt(level)] + ([Polled(PollIn)] + ([Go] + rest)), t);
    assert [Go] + ([Interrupt(level)] + ([Polled(PollIn)] + ([Go] + rest))) ==
           [Go, Interrupt(level), Polled(PollIn), Go] + rest;
  }

  function AfterPress(s: State): State
    requires |s.buf| >= READ_BUF_LEN
  {
    AtHandling(s, 1).(i := s.i + 1, pc := LoopHead)
  }

  /** One turn of the loop during which the button is pressed: the LED and its cached state stay. */
  lemma PressTurn(s: State, rest: seq<Label>, t: State)
    requires Inv(s) && s.pc.LoopHead? && s.i < COUNT && Leads(AfterPress(s), rest, t)
    ensures Leads(s, [Go, Interrupt(1), Polled(PollIn), Go] + ([Go] + ([Go] + rest)), t)
  {
    var handling := AtHandling(s, 1);
    var end := Apply(handling, Go);
    assert Apply(end, Go) == AfterPress(s);
    LeadsThen(end, Go, rest, t);
    LeadsThen(handling, Go, [Go] + rest, t);
    ToHandling(s, 1, [Go] + ([Go] + rest), t);
  }

  function AfterRelease(s: State): State
    requires |s.buf| >= READ_BUF_LEN
  {
    var led, handling := 1 - s.ledOn, AtHandling(s, 0);
    handling.(ledOn := led, dev := handling.dev.(ledOn := led, ledLine := led), i := s.i + 1, pc := LoopHead,
              buf := Overlay(handling.buf, if led == 1 then "1" else "0"))
  }

  lemma WritesLed(d: Dev, buf: string, led: int)
    requires led == 0 || led == 1
    requires buf != "" && buf[0] == Sprintf(led)[0]
    requires d.ledLine == d.ledOn
    ensures Write(d, buf) == d.(ledOn := led, ledLine := led)
  {
    assert Sprintf(led)[0] == if led == 1 then '1' else '0' by {
      assert Digits(0) == "0" && Digits(1) == "1";
    }
  }

  /** One turn of the loop during which the button is released: the LED and its cached state toggle. */
  lemma ReleaseTurn(s: State, rest: seq<Label>, t: State)
    requires Inv(s) && s.pc.LoopHead? && s.i < COUNT && Leads(AfterRelease(s), rest, t)
    ensures Leads(s, [Go, Interrupt(0), Polled(PollIn), Go] + ([Go] + ([Go] + ([Go] + rest))), t)
  {
    var handling := AtHandling(s, 0);
    var led := 1 - s.ledOn;
    assert Sprintf(led) == (if led == 1 then "1" else "0") && Xor1(s.ledOn) == led;
    var writing := Apply(handling, Go);
    WritesLed(writing.dev, writing.buf, led);
    var end := Apply(writing, Go);
    assert Apply(end, Go) == AfterRelease(s);
    LeadsThen(end, Go, rest, t);
    LeadsThen(writing, Go, [Go] + rest, t);
    LeadsThen(handling, Go, [Go] + ([Go] + rest), t);
    ToHandling(s, 0, [Go] + ([Go] + ([Go] + rest)), t);
  }

  /** The button as the user sees it: over a press and a release the LED, and the program's idea of it,
      change once. */
  lemma PressAndRelease(s: State) returns (labels: seq<Label>, t: State)
    requires Reachable(s) && s.pc.LoopHead? && s.i + 2 <= COUNT
    ensures Leads(s, labels, t) && t.pc.LoopHead? && t.i == s.i + 2 && t.taken == s.taken + "10"
    ensures t.dev.ledLine == 1 - s.dev.ledLine && t.ledOn == 1 - s.ledOn && t.dev.control == s.dev.control
  {
    ReachableInv(s);
    var pressed := AfterPress(s);
    PressedInv(s);
    t := AfterRelease(pressed);
    assert Leads(t, [], t);
    ReleaseTurn(pressed, [], t);
    labels := [Go, Interrupt(0), Polled(PollIn), Go] + ([Go] + ([Go] + ([Go] + [])));
    PressTurn(s, labels, t);
    labels := [Go, Interrupt(1), Polled(PollIn), Go] + ([Go] + ([Go] + labels));
  }

  lemma PressedInv(s: State)
    requires Inv(s) && s.pc.LoopHead? && s.i < COUNT
    ensures Inv(AfterPress(s))
  {
  }

  lemma {:induction false} PressTurns(s: State, last: Label) returns (labels: seq<Label>, t: State)
    requires Inv(s) && s.pc.LoopHead? && (last == Go || last == RestoreFails)
    ensures Leads(s, labels, t) && t.pc.Done? && t.ret == EXIT_SUCCESS
    ensures t.dev.control == if last == Go then 1 else 0
    decreases COUNT - s.i
  {
    if s.i == COUNT {
      var restore := Apply(s, Go);
      t := Apply(restore, last);
      assert Leads(t, [], t);
      LeadsThen(restore, last, [], t);
      LeadsThen(s, Go, [last] + [], t);
      labels := [Go] + ([last] + []);
    } else {
      PressedInv(s);
      var rest;
      rest, t := PressTurns(AfterPress(s), last);
      PressTurn(s, rest, t);
      labels := [Go, Interrupt(1), Polled(PollIn), Go] + ([Go] + ([Go] + rest));
    }
  }

  /** Both ways out with status 0 happen: twenty presses, and the last ioctl goes through or fails. */
  lemma StatusZeroEitherWay(s: State, last: Label) returns (labels: seq<Label>, t: State)
    requires Init(s) && (last == Go || last == RestoreFails)
    ensures Leads(s, labels, t) && t.pc.Done? && t.ret == EXIT_SUCCESS
    ensures t.dev.control == if last == Go then 1 else 0
  {
    StepKeeps(s, Go);
    var snap := Apply(s, Go);
    StepKeeps(snap, Go);
    var rest;
    rest, t := PressTurns(Apply(snap, Go), last);
    LeadsThen(snap, Go, rest, t);
    LeadsThen(s, Go, [Go] + rest, t);
    labels := [Go] + ([Go] + rest);
  }
}
