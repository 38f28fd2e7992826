/** The counting threads of HW10/threads.c: load, increment-and-store and print are separate steps
    under one mutex, for any number of threads and any interleaving. */
module MutexCounter {
  import opened CInt

  datatype Pc =
    | LoopTest
    | WantLock
    | Load
    | Store(loaded: int)
    | Print
    | Unlock
    | Stopped

  datatype Lock = Free | HeldBy(t: nat)

  /** `done` counts every thread's increments; `printed` is the kernel log. */
  datatype State = State(globalVar: int, lock: Lock, pcs: seq<Pc>, done: seq<nat>, printed: seq<int>)

  /** Thread `t` runs on, or, at its loop test, is told to stop. */
  datatype Label = Go(t: nat) | Stop(t: nat)

  predicate Init(n: nat, s: State) {
    && s.globalVar == 0 && s.lock == Free && |s.pcs| == |s.done| == n && s.printed == []
    && (forall t | 0 <= t < n :: s.pcs[t] == LoopTest && s.done[t] == 0)
  }

  predicate Enabled(s: State, l: Label) {
    && l.t < |s.pcs|
    && match l
       case Stop(t) => s.pcs[t].LoopTest?
       case Go(t) => !s.pcs[t].Stopped? && (s.pcs[t].WantLock? ==> s.lock.Free?)
  }

  function Apply(s: State, l: Label): State
    requires Enabled(s, l) && |s.done| == |s.pcs|
  {
    var t := l.t;
    if l.Stop? then s.(pcs := s.pcs[t := Stopped])
    else
      match s.pcs[t]
      case LoopTest => s.(pcs := s.pcs[t := WantLock])
      case WantLock => s.(lock := HeldBy(t), pcs := s.pcs[t := Load])
      case Load => s.(pcs := s.pcs[t := Store(s.globalVar)])
      case Store(v) =>
        s.(globalVar := Inc32(v), done := s.done[t := s.done[t] + 1], pcs := s.pcs[t := Print])
      case Print => s.(printed := s.printed + [s.globalVar], pcs := s.pcs[t := Unlock])
      case Unlock => s.(lock := Free, pcs := s.pcs[t := LoopTest])
  }

  ghost predicate Leads(s: State, labels: seq<Label>, u: State)
    decreases |labels|
  {
    if labels == [] then s == u
    else Enabled(s, labels[0]) && |s.done| == |s.pcs| && Leads(Apply(s, labels[0]), labels[1..], u)
  }

  ghost predicate Reachable(n: nat, u: State) {
    exists s, labels :: Init(n, s) && Leads(s, labels, u)
  }

  function Sum(counts: seq<nat>): nat {
    if counts == [] then 0 else counts[0] + Sum(counts[1..])
  }

  lemma {:induction false} SumIncrement(counts: seq<nat>, t: nat)
    requires t < |counts|
    ensures Sum(counts[t := counts[t] + 1]) == Sum(counts) + 1
  {
    if t == 0 {
      assert counts[0 := counts[0] + 1][1..] == counts[1..];
    } else {
      assert counts[t := counts[t] + 1][1..] == counts[1..][t - 1 := counts[t] + 1];
      SumIncrement(counts[1..], t - 1);
    }
  }

  lemma {:induction false} SumZero(counts: seq<nat>)
    requires forall t | 0 <= t < |counts| :: counts[t] == 0
    ensures Sum(counts) == 0
  {
    if counts != [] {
      SumZero(counts[1..]);
    }
  }

  predicate Holds(pc: Pc) {
    pc.Load? || pc.Store? || pc.Print? || pc.Unlock?
  }

  predicate Inv(n: nat, s: State) {
    && |s.pcs| == |s.done| == n
    && (s.lock.HeldBy? ==> s.lock.t < n)
    && (forall t | 0 <= t < n :: Holds(s.pcs[t]) <==> s.lock == HeldBy(t))
    && (Sum(s.done) <= INT_MAX ==> Counted(s))
  }

  /** Within the int range the counter is the number of increments, and the log counts along. */
  predicate Counted(s: State) {
    && s.globalVar == Sum(s.done)
    && (s.lock.HeldBy? && s.lock.t < |s.pcs| && s.pcs[s.lock.t].Store? ==> s.pcs[s.lock.t].loaded == s.globalVar)
    && |s.printed| == Sum(s.done) - (if s.lock.HeldBy? && s.lock.t < |s.pcs| && s.pcs[s.lock.t].Print? then 1 else 0)
    && (forall k | 0 <= k < |s.printed| :: s.printed[k] == k + 1)
  }

  lemma StepKeeps(n: nat, s: State, l: Label)
    requires Inv(n, s) && Enabled(s, l)
    ensures Inv(n, Apply(s, l))
  {
    var u := Apply(s, l);
    assert forall t | 0 <= t < n && t != l.t :: u.pcs[t] == s.pcs[t];
    assert Holds(s.pcs[l.t]) <==> s.lock == HeldBy(l.t);
    if l.Go? && s.pcs[l.t].Store? {
      SumIncrement(s.done, l.t);
    }
  }

  lemma {:induction false} LeadsKeeps(n: nat, s: State, labels: seq<Label>, u: State)
    requires Inv(n, s) && Leads(s, labels, u)
    ensures Inv(n, u)
    decreases |labels|
  {
    if labels != [] {
      StepKeeps(n, s, labels[0]);
      LeadsKeeps(n, Apply(s, labels[0]), labels[1..], u);
    }
  }

  lemma ReachableInv(n: nat, u: State)
    requires Reachable(n, u)
    ensures Inv(n, u)
  {
    var s, labels :| Init(n, s) && Leads(s, labels, u);
    SumZero(s.done);
    LeadsKeeps(n, s, labels, u);
  }

  /** Two threads are never inside the locked section together. */
  lemma MutualExclusion(n: nat, s: State, t: nat, t': nat)
    requires Reachable(n, s) && t < |s.pcs| && t' < |s.pcs| && Holds(s.pcs[t]) && Holds(s.pcs[t'])
    ensures t == t'
  {
    ReachableInv(n, s);
    assert s.lock == HeldBy(t) && s.lock == HeldBy(t');
  }

  /** As long as the int has not wrapped: the printed values are exactly 1, 2, 3 and so on in order,
      and the counter is the sum of all increments. */
  lemma LogCountsUp(n: nat, s: State)
    requires Reachable(n, s) && Sum(s.done) <= INT_MAX
    ensures s.globalVar == Sum(s.done)
    ensures s.printed == seq(|s.printed|, k => k + 1)
    ensures s.lock.Free? ==> |s.printed| == Sum(s.done)
  {
    ReachableInv(n, s);
  }

  // The loop does its work.

  lemma LeadsThen(s: State, l: Label, rest: seq<Label>, u: State)
    requires Enabled(s, l) && |s.done| == |s.pcs| && Leads(Apply(s, l), rest, u)
    ensures Leads(s, [l] + rest, u)
  {
    assert ([l] + rest)[1..] == rest;
  }

  /** Thread `t` can begin a turn. */
  predicate AtLoop(s: State, t: nat) {
    t < |s.pcs| == |s.done| && s.lock.Free? && s.pcs[t].LoopTest?
  }

  /** The state after one whole turn of thread `t`. */
  function AfterTurn(s: State, t: nat): State
    requires AtLoop(s, t)
  {
    s.(globalVar := s.globalVar + 1, done := s.done[t := s.done[t] + 1], printed := s.printed + [s.globalVar + 1])
  }

  /** A turn of the loop that nothing interferes with counts by one, prints the new value and leaves the
      mutex free, this thread at its loop test again and all others where they were. */
  lemma Turn(s: State, t: nat, rest: seq<Label>, u: State)
    requires AtLoop(s, t) && s.globalVar < INT_MAX && Leads(AfterTurn(s, t), rest, u)
    ensures Leads(s, [Go(t), Go(t), Go(t), Go(t), Go(t), Go(t)] + rest, u)
  {
    var wanting := Apply(s, Go(t));
    var loading := Apply(wanting, Go(t));
    var storing := Apply(loading, Go(t));
    var printing := Apply(storing, Go(t));
    var unlocking := Apply(printing, Go(t));
    assert unlocking.pcs[t := LoopTest] == s.pcs;
    assert Apply(unlocking, Go(t)) == AfterTurn(s, t);
    LeadsThen(unlocking, Go(t), rest, u);
    LeadsThen(printing, Go(t), [Go(t)] + rest, u);
    LeadsThen(storing, Go(t), [Go(t)] + ([Go(t)] + rest), u);
    LeadsThen(loading, Go(t), [Go(t)] + ([Go(t)] + ([Go(t)] + rest)), u);
    LeadsThen(wanting, Go(t), [Go(t)] + ([Go(t)] + ([Go(t)] + ([Go(t)] + rest))), u);
    LeadsThen(s, Go(t), [Go(t)] + ([Go(t)] + ([Go(t)] + ([Go(t)] + ([Go(t)] + rest)))), u);
    assert [Go(t)] + ([Go(t)] + ([Go(t)] + ([Go(t)] + ([Go(t)] + ([Go(t)] + rest))))) ==
           [Go(t), Go(t), Go(t), Go(t), Go(t), Go(t)] + rest;
  }

  lemma LogGrows(v: int, n: nat)
    ensures [v + 1] + seq(n, k => v + 1 + k + 1) == seq(n + 1, k => v + k + 1)
  {
  }

  /** The threads may take their turns in any order, each as often as it comes up: the log counts on,
      and every thread has counted as often as it had its turn. */
  lemma {:induction false} Turns(s: State, order: seq<nat>) returns (labels: seq<Label>, u: State)
    requires forall i | 0 <= i < |order| :: AtLoop(s, order[i])
    requires |s.done| == |s.pcs| && s.globalVar + |order| <= INT_MAX
    ensures Leads(s, labels, u) && u.pcs == s.pcs && u.lock == s.lock
    ensures u.globalVar == s.globalVar + |order|
    ensures u.printed == s.printed + seq(|order|, k => s.globalVar + k + 1)
    ensures |u.done| == |s.done|
    ensures forall t | 0 <= t < |s.done| :: u.done[t] == s.done[t] + multiset(order)[t]
    decreases |order|
  {
    if order == [] {
      return [], s;
    }
    var t, rest := order[0], order[1..];
    assert AtLoop(s, t);
    var next := AfterTurn(s, t);
    forall i | 0 <= i < |rest| ensures AtLoop(next, rest[i]) {
      assert AtLoop(s, order[i + 1]);
    }
    var tail;
    tail, u := Turns(next, rest);
    Turn(s, t, tail, u);
    LogGrows(s.globalVar, |rest|);
    assert order == [t] + rest;
    labels := [Go(t), Go(t), Go(t), Go(t), Go(t), Go(t)] + tail;
  }

  /** The log gets as long as the int range allows, whoever takes the turns. */
  lemma EveryLogHappens(n: nat, s: State, order: seq<nat>) returns (u: State)
    requires Init(n, s) && |order| <= INT_MAX && forall i | 0 <= i < |order| :: order[i] < n
    ensures Reachable(n, u) && u.printed == seq(|order|, k => k + 1)
    ensures |u.done| == n && forall t | 0 <= t < n :: u.done[t] == multiset(order)[t]
  {
    var labels;
    labels, u := Turns(s, order);
    assert u.printed == seq(|order|, k => 0 + k + 1);
  }

  /** A thread told to stop at its loop test stops for good. */
  lemma StoppedStays(s: State, t: nat, l: Label)
    requires t < |s.pcs| == |s.done| && s.pcs[t].LoopTest?
    ensures var u := Apply(s, Stop(t));
      u == s.(pcs := u.pcs) && u.pcs == s.pcs[t := Stopped] && (l.t == t ==> !Enabled(u, l))
  {
  }
}
