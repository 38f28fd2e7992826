/** The event ring of HW9/spinlock.c: slots that are filled, rotated and zeroed in place, never
    removed. */
module EventRing {
  import opened CInt

  /** An empty slot has number 0. */
  datatype Slot = Slot(number: int, time: int)

  /** Position of the first filled slot from the head, or the number of slots. */
  function FirstLive(slots: seq<Slot>): (z: nat)
    ensures z <= |slots|
    ensures forall i | 0 <= i < z :: slots[i].number == 0
    ensures z < |slots| ==> slots[z].number != 0
  {
    if slots == [] || slots[0].number != 0 then 0 else 1 + FirstLive(slots[1..])
  }

  lemma FirstLiveUnique(slots: seq<Slot>, z: nat)
    requires z <= |slots|
    requires forall i | 0 <= i < z :: slots[i].number == 0
    requires z < |slots| ==> slots[z].number != 0
    ensures FirstLive(slots) == z
  {
  }

  /** The filled slots, as long as the ring has its shape. */
  function Live(slots: seq<Slot>): seq<Slot> {
    slots[FirstLive(slots)..]
  }

  predicate Increasing(numbers: seq<int>) {
    forall i, j | 0 <= i < j < |numbers| :: numbers[i] < numbers[j]
  }

  function Numbers(slots: seq<Slot>): (r: seq<int>)
    ensures |r| == |slots|
  {
    seq(|slots|, i requires 0 <= i < |slots| => slots[i].number)
  }

  /** Positive and strictly increasing numbers. */
  predicate InOrder(live: seq<Slot>) {
    (forall i | 0 <= i < |live| :: live[i].number > 0) && Increasing(Numbers(live))
  }

  /** From the head: a block of zeros, then strictly increasing positive numbers. */
  predicate Shaped(slots: seq<Slot>) {
    InOrder(Live(slots))
  }

  /** The locked part of the timer callback. */
  function Fill(slots: seq<Slot>, number: int, time: int): (r: seq<Slot>)
    requires slots != []
    ensures |r| == |slots|
  {
    if slots[0].number == 0 then slots[1..] + [Slot(number, time)] else slots
  }

  /** The locked part of the interrupt callback. */
  function Zero(slots: seq<Slot>): (r: seq<Slot>)
    ensures |r| == |slots|
  {
    var z := FirstLive(slots);
    if z < |slots| then slots[z := Slot(0, 0)] else slots
  }

  lemma InOrderSnoc(live: seq<Slot>, slot: Slot)
    requires InOrder(live) && slot.number > 0 && forall i | 0 <= i < |live| :: live[i].number < slot.number
    ensures InOrder(live + [slot])
  {
    assert Numbers(live + [slot]) == Numbers(live) + [slot.number];
  }

  /** Rotating a filled head slot to the end appends it to the filled slots. */
  lemma RotationAppends(slots: seq<Slot>, slot: Slot)
    requires slots != [] && slots[0].number == 0 && slot.number != 0
    ensures FirstLive(slots) > 0
    ensures FirstLive(slots[1..] + [slot]) == FirstLive(slots) - 1
    ensures Live(slots[1..] + [slot]) == Live(slots) + [slot]
  {
    FirstLiveUnique(slots[1..] + [slot], FirstLive(slots) - 1);
  }

  /** Fill-and-rotate keeps the shape and is a push on a queue bounded by the number of slots; when
      all slots are filled it does nothing. */
  lemma FillPushes(slots: seq<Slot>, number: int, time: int)
    requires slots != [] && Shaped(slots) && number > 0
    requires forall i | 0 <= i < |Live(slots)| :: Live(slots)[i].number < number
    ensures Shaped(Fill(slots, number, time))
    ensures Live(Fill(slots, number, time)) ==
            if |Live(slots)| < |slots| then Live(slots) + [Slot(number, time)] else Live(slots)
  {
    if slots[0].number == 0 {
      RotationAppends(slots, Slot(number, time));
      InOrderSnoc(Live(slots), Slot(number, time));
    }
  }

  /** Zeroing the first filled slot keeps the shape and is a pop. */
  lemma ZeroPops(slots: seq<Slot>)
    requires Shaped(slots)
    ensures Shaped(Zero(slots))
    ensures Live(Zero(slots)) == if Live(slots) == [] then [] else Live(slots)[1..]
  {
    var z, next := FirstLive(slots), Zero(slots);
    if z < |slots| {
      FirstLiveUnique(next, z + 1);
      assert Live(next) == Live(slots)[1..];
      assert Numbers(Live(next)) == Numbers(Live(slots))[1..];
    }
  }

  class EventList {
    var slots: seq<Slot>
    var currentNumber: int
    var currentTime: int

    /** Line 147 on: one slot per successful allocation, all of them empty. */
    constructor (granted: seq<bool>)
      ensures Live(slots) == [] && Shaped(slots)
      ensures slots == seq(multiset(granted)[true], _ => Slot(0, 0))
      ensures currentNumber == 0 && currentTime == 0
    {
      currentNumber, currentTime := 0, 0;
      var list: seq<Slot> := [];
      var i := 0;
      while i < |granted|
        invariant 0 <= i <= |granted|
        invariant list == seq(|list|, _ => Slot(0, 0))
        invariant |list| == multiset(granted[..i])[true]
      {
        assert granted[..i + 1] == granted[..i] + [granted[i]];
        if granted[i] {
          list := [Slot(0, 0)] + list;
        }
        i := i + 1;
      }
      assert granted[..i] == granted;
      FirstLiveUnique(list, |list|);
      slots := list;
    }

    /** The part of `timer_callback` before the lock. */
    method Tick(now: int)
      modifies this`currentNumber, this`currentTime
      ensures IsInt(old(currentNumber)) ==> IsInt(currentNumber)
      ensures Congruent(currentNumber, old(currentNumber) + 1)
      ensures IsInt(currentTime) && Congruent(currentTime, now)
    {
      currentNumber := Inc32(currentNumber);
      currentTime := Trunc32(now);
    }

    /** The locked part of `timer_callback`. */
    method FillFirst() returns (overflow: bool)
      requires slots != []
      modifies this`slots
      ensures slots == Fill(old(slots), currentNumber, currentTime)
      ensures overflow <==> FirstLive(old(slots)) == 0
    {
      var cursor := slots[0];
      if cursor.number == 0 {
        cursor := Slot(currentNumber, currentTime);
        slots := [cursor] + slots[1..];
        slots := slots[1..] + [slots[0]];
        overflow := false;
      } else {
        overflow := true;
      }
    }

    /** `irq_simulation_callback`: walk to the first filled slot, copy it out and zero it. `num` and
        `time` are what the callback goes on to report. */
    method IrqSimulation() returns (num: int, time: int)
      modifies this`slots
      ensures slots == Zero(old(slots))
      ensures Live(old(slots)) != [] ==> Slot(num, time) == Live(old(slots))[0]
      ensures Live(old(slots)) == [] ==> num == 0 && time == 0
    {
      num, time := 0, 0;
      var i := 0;
      while i < |slots|
        invariant 0 <= i <= |slots| && slots == old(slots)
        invariant forall k | 0 <= k < i :: slots[k].number == 0
        invariant num == 0 && time == 0
      {
        var cursor := slots[i];
        if cursor.number != 0 {
          time := cursor.time;
          num := cursor.number;
          FirstLiveUnique(slots, i);
          slots := slots[i := Slot(0, 0)];
          return;
        }
        i := i + 1;
      }
      FirstLiveUnique(slots, i);
    }
  }
}
