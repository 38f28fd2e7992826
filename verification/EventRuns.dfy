/** Runs of the two callbacks of HW9/spinlock.c, interleaved in any way. */
module EventRuns {
  import opened CInt
  import opened EventRing

  /** `bumped`: the timer callback has counted and read the clock but not yet taken the lock. The
      last four fields are history: the clock reading of every tick, the events taken out by the
      interrupt callback, and the numbers refused because no slot was free. */
  datatype State = State(
    slots: seq<Slot>, number: int, time: int, bumped: bool,
    stamps: seq<int>, consumed: seq<Slot>, dropped: seq<int>)

  datatype Label = Tick(now: int) | FillFirst | Interrupt

  /** The state the module starts in with `k` slots. */
  predicate Init(k: nat, s: State) {
    && |s.slots| == k && Live(s.slots) == []
    && s.number == 0 && s.time == 0 && !s.bumped
    && s.stamps == [] && s.consumed == [] && s.dropped == []
  }

  /** The timer callback is never run concurrently with itself. */
  predicate Enabled(s: State, l: Label) {
    match l
    case Tick(_) => !s.bumped
    case FillFirst => s.bumped && s.slots != []
    case Interrupt => true
  }

  function Apply(s: State, l: Label): State
    requires Enabled(s, l)
  {
    match l
    case Tick(now) =>
      s.(number := Inc32(s.number), time := Trunc32(now), bumped := true, stamps := s.stamps + [now])
    case FillFirst =>
      if s.slots[0].number == 0 then s.(slots := Fill(s.slots, s.number, s.time), bumped := false)
      else s.(dropped := s.dropped + [s.number], bumped := false)
    case Interrupt =>
      s.(slots := Zero(s.slots),
         consumed := if Live(s.slots) == [] then s.consumed else s.consumed + [Live(s.slots)[0]])
  }

  ghost predicate Leads(s: State, labels: seq<Label>, t: State)
    decreases |labels|
  {
    if labels == [] then s == t
    else Enabled(s, labels[0]) && Leads(Apply(s, labels[0]), labels[1..], t)
  }

  ghost predicate Reachable(k: nat, t: State) {
    exists s, labels :: Init(k, s) && Leads(s, labels, t)
  }

  /** Ticks whose event has been offered to the ring. */
  function Offered(s: State): int {
    |s.stamps| - if s.bumped then 1 else 0
  }

  /** Everything that ever entered the ring, in order: taken out first, then what is queued. */
  function Entered(s: State): seq<Slot> {
    s.consumed + Live(s.slots)
  }

  /** The stored time is the truncated clock reading of the tick with that number. */
  predicate Stamped(slot: Slot, stamps: seq<int>) {
    1 <= slot.number <= |stamps| && slot.time == Trunc32(stamps[slot.number - 1])
  }

  predicate Partition(entered: seq<int>, dropped: seq<int>, n: int) {
    && Increasing(entered) && Increasing(dropped)
    && (forall i | 0 <= i < |entered| :: 1 <= entered[i] <= n && entered[i] !in dropped)
    && (forall i | 0 <= i < |dropped| :: 1 <= dropped[i] <= n)
    && (forall x | 1 <= x <= n :: x in entered || x in dropped)
  }

  /** What holds as long as the int counter has not wrapped. */
  predicate Sound(s: State) {
    && s.number == |s.stamps|
    && (s.bumped ==> |s.stamps| > 0 && s.time == Trunc32(s.stamps[|s.stamps| - 1]))
    && Shaped(s.slots)
    && (forall i | 0 <= i < |Entered(s)| :: Stamped(Entered(s)[i], s.stamps))
    && Partition(Numbers(Entered(s)), s.dropped, Offered(s))
  }

  predicate Inv(k: nat, s: State) {
    && |s.slots| == k
    && (|s.stamps| <= INT_MAX ==> Sound(s))
  }

  lemma InitInv(k: nat, s: State)
    requires Init(k, s)
    ensures Inv(k, s)
  {
  }

  lemma PartitionEntered(entered: seq<int>, dropped: seq<int>, n: int)
    requires n >= 0 && Partition(entered, dropped, n)
    ensures Partition(entered + [n + 1], dropped, n + 1)
  {
  }

  lemma TickKeeps(s: State, now: int)
    requires Sound(s) && !s.bumped && |s.stamps| < INT_MAX
    ensures Sound(Apply(s, Tick(now)))
  {
  }

  /** The numbers queued are below the one on offer. */
  lemma QueuedBelow(s: State)
    requires Sound(s) && s.bumped
    ensures forall i | 0 <= i < |Live(s.slots)| :: Live(s.slots)[i].number < s.number
  {
    forall i | 0 <= i < |Live(s.slots)| ensures Live(s.slots)[i].number < s.number {
      assert Entered(s)[|s.consumed| + i] == Live(s.slots)[i];
      assert Numbers(Entered(s))[|s.consumed| + i] <= Offered(s);
    }
  }

  /** `Sound` depends on the events that entered, not on where they are now. */
  lemma SameEvents(s: State, t: State)
    requires Sound(s) && Shaped(t.slots) && Entered(t) == Entered(s) && t.dropped == s.dropped
    requires t.number == s.number && t.time == s.time && t.bumped == s.bumped && t.stamps == s.stamps
    ensures Sound(t)
  {
  }

  lemma InterruptKeeps(s: State)
    requires Sound(s)
    ensures Sound(Apply(s, Interrupt))
  {
    var t := Apply(s, Interrupt);
    ZeroPops(s.slots);
    SameEntered(s.consumed, Live(s.slots));
    assert Entered(t) == Entered(s);
    SameEvents(s, t);
  }

  lemma SameEntered(consumed: seq<Slot>, queue: seq<Slot>)
    ensures queue != [] ==> (consumed + [queue[0]]) + queue[1..] == consumed + queue
  {
  }

  lemma PushKeeps(s: State, t: State)
    requires Sound(s) && s.bumped
    requires t == s.(slots := t.slots, bumped := false) && Shaped(t.slots)
    requires Entered(t) == Entered(s) + [Slot(s.number, s.time)]
    ensures Sound(t)
  {
    var slot := Slot(s.number, s.time);
    assert Numbers(Entered(t)) == Numbers(Entered(s)) + [s.number];
    PartitionEntered(Numbers(Entered(s)), s.dropped, Offered(s));
    forall i | 0 <= i < |Entered(t)| ensures Stamped(Entered(t)[i], t.stamps) {
      if i < |Entered(s)| {
        assert Stamped(Entered(s)[i], s.stamps);
      }
    }
  }

  lemma DropKeeps(s: State)
    requires Sound(s) && s.bumped
    ensures Sound(s.(dropped := s.dropped + [s.number], bumped := false))
  {
  }

  lemma FillKeeps(s: State)
    requires Sound(s) && s.bumped && s.slots != []
    ensures Sound(Apply(s, FillFirst))
  {
    if s.slots[0].number == 0 {
      var t := Apply(s, FillFirst);
      QueuedBelow(s);
      FillPushes(s.slots, s.number, s.time);
      assert Entered(t) == Entered(s) + [Slot(s.number, s.time)];
      PushKeeps(s, t);
    } else {
      DropKeeps(s);
    }
  }

  lemma StepKeeps(k: nat, s: State, l: Label)
    requires Inv(k, s) && Enabled(s, l)
    ensures Inv(k, Apply(s, l))
  {
    if |Apply(s, l).stamps| <= INT_MAX {
      match l
      case Tick(now) => TickKeeps(s, now);
      case FillFirst => FillKeeps(s);
      case Interrupt => InterruptKeeps(s);
    }
  }

  lemma {:induction false} LeadsKeeps(k: nat, s: State, labels: seq<Label>, t: State)
    requires Inv(k, s) && Leads(s, labels, t)
    ensures Inv(k, t)
    decreases |labels|
  {
    if labels != [] {
      StepKeeps(k, s, labels[0]);
      LeadsKeeps(k, Apply(s, labels[0]), labels[1..], t);
    }
  }

  lemma ReachableInv(k: nat, t: State)
    requires Reachable(k, t)
    ensures Inv(k, t)
  {
    var s, labels :| Init(k, s) && Leads(s, labels, t);
    InitInv(k, s);
    LeadsKeeps(k, s, labels, t);
  }

  predicate BlockOfZeros(slots: seq<Slot>, z: nat) {
    && z <= |slots|
    && (forall i | 0 <= i < z :: slots[i].number == 0)
    && (forall i | z <= i < |slots| :: slots[i].number > 0)
    && (forall i, j | z <= i < j < |slots| :: slots[i].number < slots[j].number)
  }

  /** Shape: from the head, a block of empty slots, then filled slots with strictly increasing
      numbers; no slot is ever lost. */
  lemma RingKeepsShape(k: nat, s: State)
    requires Reachable(k, s) && |s.stamps| <= INT_MAX
    ensures |s.slots| == k
    ensures exists z :: BlockOfZeros(s.slots, z)
  {
    ReachableInv(k, s);
    ShapedIsBlock(s.slots);
  }

  lemma TailPositive(slots: seq<Slot>, z: nat, i: nat)
    requires z <= i < |slots| && InOrder(slots[z..])
    ensures slots[i].number > 0
  {
    assert slots[i] == slots[z..][i - z];
  }

  /** Order seen from the whole ring. */
  lemma TailInOrder(slots: seq<Slot>, z: nat, i: nat, j: nat)
    requires z <= i < j < |slots| && InOrder(slots[z..])
    ensures slots[i].number < slots[j].number
  {
    var tail := slots[z..];
    assert Numbers(tail)[i - z] == slots[i].number && Numbers(tail)[j - z] == slots[j].number;
  }

  lemma ShapedIsBlock(slots: seq<Slot>)
    requires Shaped(slots)
    ensures BlockOfZeros(slots, FirstLive(slots))
  {
    var z := FirstLive(slots);
    forall i | z <= i < |slots| ensures slots[i].number > 0 {
      TailPositive(slots, z, i);
    }
    forall i, j | z <= i < j < |slots| ensures slots[i].number < slots[j].number {
      TailInOrder(slots, z, i, j);
    }
  }

  /** Conservation: every number offered so far was consumed, is queued or was dropped, and only one
      of the three; consumed and then queued numbers are strictly increasing over the whole run, and
      the times in them are the truncated clock readings of their ticks. */
  lemma EventsArePartitioned(k: nat, s: State)
    requires Reachable(k, s) && |s.stamps| <= INT_MAX
    ensures Partition(Numbers(s.consumed) + Numbers(Live(s.slots)), s.dropped, Offered(s))
    ensures forall i | 0 <= i < |s.consumed| :: Stamped(s.consumed[i], s.stamps)
    ensures forall i | 0 <= i < |Live(s.slots)| :: Stamped(Live(s.slots)[i], s.stamps)
  {
    ReachableInv(k, s);
    assert Numbers(Entered(s)) == Numbers(s.consumed) + Numbers(Live(s.slots));
    forall i | 0 <= i < |s.consumed| ensures Stamped(s.consumed[i], s.stamps) {
      assert Entered(s)[i] == s.consumed[i];
    }
    forall i | 0 <= i < |Live(s.slots)| ensures Stamped(Live(s.slots)[i], s.stamps) {
      assert Entered(s)[|s.consumed| + i] == Live(s.slots)[i];
    }
  }

  /** Refinement: the ring behaves as a first-in first-out queue of capacity `k`, and a number is
      dropped exactly when it is offered while `k` events are queued. */
  lemma RefinesBoundedQueue(k: nat, s: State, l: Label)
    requires Reachable(k, s) && Enabled(s, l) && |Apply(s, l).stamps| <= INT_MAX
    ensures var t, queue := Apply(s, l), Live(s.slots);
      match l
      case Tick(_) => Live(t.slots) == queue && t.dropped == s.dropped && t.consumed == s.consumed
      case FillFirst =>
        && t.consumed == s.consumed
        && (|queue| < k ==> Live(t.slots) == queue + [Slot(s.number, s.time)] && t.dropped == s.dropped)
        && (|queue| == k ==> Live(t.slots) == queue && t.dropped == s.dropped + [s.number])
      case Interrupt =>
        && t.dropped == s.dropped
        && (queue != [] ==> t.consumed == s.consumed + [queue[0]] && Live(t.slots) == queue[1..])
        && (queue == [] ==> t.consumed == s.consumed && Live(t.slots) == [])
  {
    ReachableInv(k, s);
    match l
    case Tick(_) =>
    case FillFirst =>
      QueuedBelow(s);
      FillPushes(s.slots, s.number, s.time);
    case Interrupt =>
      ZeroPops(s.slots);
  }

  /** The report after the unlock tests the copied time, not the number: an event that was taken out
      is announced as "no filled slot" exactly when the low 32 bits of its clock reading are zero. */
  lemma SilentEvents(k: nat, s: State, i: nat)
    requires Reachable(k, s) && |s.stamps| <= INT_MAX && i < |s.consumed|
    ensures 1 <= s.consumed[i].number <= |s.stamps|
    ensures s.consumed[i].time == 0 <==> s.stamps[s.consumed[i].number - 1] % TWO_32 == 0
  {
    EventsArePartitioned(k, s);
    assert Stamped(s.consumed[i], s.stamps);
  }

  /** The state after the whole timer callback, undisturbed. */
  function AfterFill(s: State, now: int): State
    requires !s.bumped && s.slots != []
  {
    Apply(Apply(s, Tick(now)), FillFirst)
  }

  /** Beyond the int range the promise ends. Tick number `2^31` is a negative number: the events stay in
      order if and only if it finds no free slot or is the first to enter at all. */
  lemma WrapBreaksOrder(s: State, now: int)
    requires Sound(s) && !s.bumped && |s.stamps| == INT_MAX && s.slots != []
    ensures Increasing(Numbers(Entered(AfterFill(s, now)))) <==> FirstLive(s.slots) == 0 || Entered(s) == []
  {
    var t := AfterFill(s, now);
    if FirstLive(s.slots) > 0 {
      var slot := Slot(-INT_MAX - 1, Trunc32(now));
      RotationAppends(s.slots, slot);
      assert Entered(t) == Entered(s) + [slot];
      if Entered(s) != [] {
        assert Stamped(Entered(s)[0], s.stamps);
        assert Numbers(Entered(t))[0] > Numbers(Entered(t))[|Entered(s)|];
      }
    }
  }

  // Runs that show both.

  lemma LeadsCons(s: State, l: Label, rest: seq<Label>, t: State)
    requires Enabled(s, l) && Leads(Apply(s, l), rest, t)
    ensures Leads(s, [l] + rest, t)
  {
    assert ([l] + rest)[1..] == rest;
  }

  /** An event on an empty ring, taken out at once. */
  function AfterTurn(s: State, now: int): State
    requires !s.bumped && s.slots != []
  {
    Apply(AfterFill(s, now), Interrupt)
  }

  lemma LeadsTurn(s: State, now: int, rest: seq<Label>, t: State)
    requires !s.bumped && s.slots != [] && Leads(AfterTurn(s, now), rest, t)
    ensures Leads(s, [Tick(now), FillFirst, Interrupt] + rest, t)
  {
    LeadsCons(AfterFill(s, now), Interrupt, rest, t);
    LeadsCons(Apply(s, Tick(now)), FillFirst, [Interrupt] + rest, t);
    LeadsCons(s, Tick(now), [FillFirst] + ([Interrupt] + rest), t);
    assert [Tick(now), FillFirst, Interrupt] + rest == [Tick(now)] + ([FillFirst] + ([Interrupt] + rest));
  }

  lemma TurnConsumes(s: State, now: int)
    requires !s.bumped && s.slots != [] && Live(s.slots) == [] && Inc32(s.number) != 0
    ensures var t := AfterTurn(s, now);
      && !t.bumped && |t.slots| == |s.slots| && Live(t.slots) == []
      && t.number == Inc32(s.number) && t.stamps == s.stamps + [now]
      && t.consumed == s.consumed + [Slot(Inc32(s.number), Trunc32(now))]
  {
    var filled, t := AfterFill(s, now), AfterTurn(s, now);
    var slot := Slot(Inc32(s.number), Trunc32(now));
    RotationAppends(s.slots, slot);
    assert Live(filled.slots) == [slot];
    FirstLiveUnique(t.slots, |t.slots|);
  }

  /** The failing run behind `SilentEvents`: the very first event, ticked when the low 32 bits of the
      clock are zero, is taken out and then reported as absent. */
  lemma SilentEventHappens(k: nat, s: State, now: int) returns (t: State)
    requires Init(k, s) && k > 0 && now % TWO_32 == 0
    ensures Leads(s, [Tick(now), FillFirst, Interrupt], t)
    ensures t.consumed == [Slot(1, 0)]
  {
    t := AfterTurn(s, now);
    TurnConsumes(s, now);
    LeadsTurn(s, now, [], t);
    assert [Tick(now), FillFirst, Interrupt] + [] == [Tick(now), FillFirst, Interrupt];
  }

  /** `n` events, each taken out at once, and then one more that fills a slot. */
  lemma {:induction false} Turns(k: nat, s: State, now: int, n: nat) returns (labels: seq<Label>, mid: State)
    requires Inv(k, s) && !s.bumped && s.slots != [] && Live(s.slots) == []
    requires s.number == |s.stamps| == |s.consumed| == INT_MAX - n
    ensures Inv(k, mid) && !mid.bumped && mid.slots != [] && Live(mid.slots) == []
    ensures |mid.stamps| == |mid.consumed| == INT_MAX
    ensures Leads(s, labels, AfterFill(mid, now))
    decreases n
  {
    if n == 0 {
      assert Leads(AfterFill(s, now), [], AfterFill(s, now));
      LeadsCons(Apply(s, Tick(now)), FillFirst, [], AfterFill(s, now));
      LeadsCons(s, Tick(now), [FillFirst] + [], AfterFill(s, now));
      return [Tick(now)] + ([FillFirst] + []), s;
    }
    TurnConsumes(s, now);
    StepKeeps(k, s, Tick(now));
    StepKeeps(k, Apply(s, Tick(now)), FillFirst);
    StepKeeps(k, AfterFill(s, now), Interrupt);
    var rest;
    rest, mid := Turns(k, AfterTurn(s, now), now, n - 1);
    LeadsTurn(s, now, rest, AfterFill(mid, now));
    labels := [Tick(now), FillFirst, Interrupt] + rest;
  }

  /** The failing run behind `WrapBreaksOrder`: a timer that keeps ticking gets there. */
  lemma WrapIsReachable(k: nat, s: State, now: int) returns (t: State)
    requires Init(k, s) && k > 0
    ensures Reachable(k, t) && !Increasing(Numbers(Entered(t)))
  {
    InitInv(k, s);
    var labels, mid := Turns(k, s, now, INT_MAX);
    t := AfterFill(mid, now);
    WrapBreaksOrder(mid, now);
    assert Leads(s, labels, t);
  }
}
