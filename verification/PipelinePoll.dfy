/** The two levels of the HW12 model agree: the worker's steps, run without interference, have the
    effect that `PlatDummy.Work` has in one call, and the sender's that of `Mailbox.PublishChunk`. */
module PipelinePoll {
  import opened Streams
  import opened Ring
  import opened Pipeline
  import opened PipelineSafety

  lemma {:induction false} LeadsOn(c: Config, s: State, first: seq<Label>, t: State, second: seq<Label>, u: State)
    requires Leads(c, s, first, t) && Leads(c, t, second, u)
    ensures Leads(c, s, first + second, u)
    decreases |first|
  {
    if first == [] {
      assert first + second == second;
    } else {
      LeadsOn(c, Apply(c, s, first[0]), first[1..], t, second, u);
      assert (first + second)[1..] == first[1..] + second;
    }
  }

  predicate OnlyWorker(labels: seq<Label>) {
    forall l | l in labels :: l == WorkerGo
  }

  /** Worker steps `labels` lead from `s` to `t`. */
  ghost predicate Polls(c: Config, s: State, labels: seq<Label>, t: State) {
    Leads(c, s, labels, t) && OnlyWorker(labels)
  }

  lemma PollsOn(c: Config, s: State, first: seq<Label>, t: State, second: seq<Label>, u: State)
    requires Polls(c, s, first, t) && Polls(c, t, second, u)
    ensures Polls(c, s, first + second, u)
  {
    LeadsOn(c, s, first, t, second, u);
  }

  /** The stream in the ring. */
  function Stream(s: State): seq<byte> {
    if s.rp <= |s.buf| && s.wp <= |s.buf| then Contents(s.buf, s.rp, s.wp) else []
  }

  lemma SliceGrows(stream: seq<byte>, mem: seq<byte>, i: nat, size: nat)
    requires i < size <= |mem|
    ensures (stream + [mem[i]]) + mem[i + 1..size] == stream + mem[i..size]
  {
  }

  /** What a poll of the worker never touches. */
  predicate SameButRing(s: State, t: State) {
    && t.rp == s.rp && t.mem == s.mem && t.size == s.size && t.pos == s.pos && t.sender == s.sender
    && t.slices == s.slices && t.takers == s.takers && t.published == s.published
    && |t.readers| == |s.readers| && forall r | 0 <= r < |s.readers| :: t.readers[r].pc == s.readers[r].pc
  }

  lemma Step(c: Config, s: State)
    requires Inv(c, s) && Enabled(s, WorkerGo)
    ensures Inv(c, WorkerApply(c, s)) && Polls(c, s, [WorkerGo], WorkerApply(c, s))
  {
    WorkerKeeps(c, s);
    var one := [WorkerGo];
    assert one[1..] == [] && Leads(c, s, one, WorkerApply(c, s));
  }

  lemma StoreStep(c: Config, s: State)
    requires Typed(c, s) && IndexOk(c, s) && WorkerOk(c, s) && s.rp < c.n
    requires s.worker.WStore? && s.worker.i < s.worker.size
    ensures var t := WorkerApply(c, s);
      t.worker == WWrap(s.worker.i, s.worker.size) && SameButRing(s, t) && Stream(t) == Stream(s) + [s.mem[s.worker.i]]
  {
    StoreAppends(s.buf, s.rp, s.wp, s.mem[s.worker.i]);
  }

  lemma WrapStep(c: Config, s: State)
    requires Typed(c, s) && IndexOk(c, s) && s.rp < c.n && s.worker.WWrap?
    ensures var t := WorkerApply(c, s);
      t.worker == WStore(s.worker.i + 1, s.worker.size) && SameButRing(s, t) && Stream(t) == Stream(s)
  {
    WrapWriteKeeps(s.buf, s.rp, s.wp);
  }

  /** One turn of the copy loop: store and wrap. */
  lemma CopyByte(c: Config, s: State) returns (labels: seq<Label>, t: State)
    requires Inv(c, s) && s.worker.WStore? && s.worker.i < s.worker.size
    ensures Polls(c, s, labels, t) && Inv(c, t)
    ensures t.worker == WStore(s.worker.i + 1, s.worker.size) && SameButRing(s, t)
    ensures Stream(t) == Stream(s) + [s.mem[s.worker.i]]
  {
    var stored := WorkerApply(c, s);
    Step(c, s);
    StoreStep(c, s);
    t := WorkerApply(c, stored);
    Step(c, stored);
    WrapStep(c, stored);
    PollsOn(c, s, [WorkerGo], stored, [WorkerGo], t);
    labels := [WorkerGo] + [WorkerGo];
  }

  lemma {:induction false} CopyLoop(c: Config, s: State) returns (labels: seq<Label>, t: State)
    requires Inv(c, s) && s.worker.WStore?
    ensures Polls(c, s, labels, t) && Inv(c, t)
    ensures t.worker == WStore(s.worker.size, s.worker.size) && SameButRing(s, t)
    ensures Stream(t) == Stream(s) + s.mem[s.worker.i..s.worker.size]
    decreases s.worker.size - s.worker.i
  {
    var i, size := s.worker.i, s.worker.size;
    if i == size {
      return [], s;
    }
    var first, next := CopyByte(c, s);
    var rest, last := CopyLoop(c, next);
    var was, chunk := Stream(s), s.mem;
    SliceGrows(was, chunk, i, size);
    assert Stream(last) == was + chunk[i..size];
    PollsOn(c, s, first, next, rest, last);
    return first + rest, last;
  }

  /** From the flag test to holding the mutex. */
  lemma Acquire(c: Config, s: State) returns (labels: seq<Label>, t: State)
    requires Inv(c, s) && s.worker.WIdle? && s.lock.Free? && s.ready
    ensures Polls(c, s, labels, t) && Inv(c, t)
    ensures t == s.(lock := ByWorker, worker := WSize)
  {
    var s1 := WorkerApply(c, s);
    Step(c, s);
    t := WorkerApply(c, s1);
    Step(c, s1);
    PollsOn(c, s, [WorkerGo], s1, [WorkerGo], t);
    labels := [WorkerGo] + [WorkerGo];
  }

  /** From the size register to the decision. */
  lemma Decide(c: Config, s: State) returns (labels: seq<Label>, t: State)
    requires Inv(c, s) && s.worker.WSize?
    ensures Polls(c, s, labels, t) && Inv(c, t)
    ensures t == s.(worker := if Used(c.n, s.rp, s.wp) + s.size < c.n then WStore(0, s.size) else WGiveUp)
  {
    var s1 := WorkerApply(c, s);
    Step(c, s);
    t := WorkerApply(c, s1);
    Step(c, s1);
    SpaceAccounting(s.buf, s.rp, s.wp);
    PollsOn(c, s, [WorkerGo], s1, [WorkerGo], t);
    labels := [WorkerGo] + [WorkerGo];
  }

  predicate AllAwake(s: State) {
    forall r | 0 <= r < |s.readers| :: !s.readers[r].queued
  }

  /** After the copy: unlock, wake, clear the flag. */
  lemma Finish(c: Config, s: State) returns (labels: seq<Label>, t: State)
    requires Inv(c, s) && s.worker.WStore? && s.worker.i == s.worker.size
    ensures Polls(c, s, labels, t) && Inv(c, t)
    ensures SameButRing(s, t) && t.buf == s.buf && t.wp == s.wp
    ensures t.worker.WIdle? && t.lock.Free? && !t.ready && AllAwake(t)
  {
    var s1 := WorkerApply(c, s);
    Step(c, s);
    var s2 := WorkerApply(c, s1);
    Step(c, s1);
    assert AllAwake(s2);
    t := WorkerApply(c, s2);
    Step(c, s2);
    PollsOn(c, s1, [WorkerGo], s2, [WorkerGo], t);
    PollsOn(c, s, [WorkerGo], s1, [WorkerGo] + [WorkerGo], t);
    labels := [WorkerGo] + ([WorkerGo] + [WorkerGo]);
  }

  lemma CopyAndFinish(c: Config, s: State) returns (labels: seq<Label>, t: State)
    requires Inv(c, s) && s.worker.WStore? && s.worker.i == 0
    ensures Polls(c, s, labels, t) && Inv(c, t)
    ensures t.worker.WIdle? && t.lock.Free? && !t.ready && AllAwake(t) && SameButRing(s, t)
    ensures Stream(t) == Stream(s) + s.mem[..s.size]
  {
    var l1, copied := CopyLoop(c, s);
    var l2, done := Finish(c, copied);
    PollsOn(c, s, l1, copied, l2, done);
    assert s.mem[0..s.size] == s.mem[..s.size];
    return l1 + l2, done;
  }

  /** A poll that nothing interferes with, from any reachable state in which the worker is idle and
      the mutex free: all of the chunk is appended, the flag cleared and everybody woken, if and only
      if a chunk is pending and fits; otherwise everything is as before. */
  lemma UndisturbedPoll(c: Config, s: State) returns (labels: seq<Label>, t: State)
    requires Reachable(c, s) && s.worker.WIdle? && s.lock.Free?
    ensures Polls(c, s, labels, t) && Inv(c, s) && Inv(c, t)
    ensures if s.ready && Used(c.n, s.rp, s.wp) + s.size < c.n
            then t.worker.WIdle? && t.lock.Free? && !t.ready && AllAwake(t) && SameButRing(s, t)
                 && Stream(t) == Stream(s) + s.mem[..s.size]
            else t == s && labels != []
  {
    ReachableInv(c, s);
    if !s.ready {
      Step(c, s);
      return [WorkerGo], s;
    }
    var l1, locked := Acquire(c, s);
    var l2, decided := Decide(c, locked);
    PollsOn(c, s, l1, locked, l2, decided);
    if decided.worker.WGiveUp? {
      Step(c, decided);
      PollsOn(c, s, l1 + l2, decided, [WorkerGo], s);
      return l1 + l2 + [WorkerGo], s;
    }
    var l3, done := CopyAndFinish(c, decided);
    PollsOn(c, s, l1 + l2, decided, l3, done);
    return l1 + l2 + l3, done;
  }

  /** A poll interrupted while it waits for the mutex has changed nothing. */
  lemma InterruptedPoll(c: Config, s: State)
    requires Reachable(c, s) && s.worker.WIdle? && s.ready
    ensures Leads(c, s, [WorkerGo, WorkerInterrupted], s)
  {
    ReachableInv(c, s);
    Step(c, s);
    var locking := WorkerApply(c, s);
    assert Leads(c, s, [WorkerInterrupted][1..], s);
    assert Leads(c, locking, [WorkerInterrupted], s);
    LeadsOn(c, s, [WorkerGo], locking, [WorkerInterrupted], s);
    assert [WorkerGo] + [WorkerInterrupted] == [WorkerGo, WorkerInterrupted];
  }

  // The sender.

  predicate OnlySender(labels: seq<Label>) {
    forall l | l in labels :: l == SenderGo
  }

  ghost predicate Sends(c: Config, s: State, labels: seq<Label>, t: State) {
    Leads(c, s, labels, t) && OnlySender(labels)
  }

  lemma SendsOn(c: Config, s: State, first: seq<Label>, t: State, second: seq<Label>, u: State)
    requires Sends(c, s, first, t) && Sends(c, t, second, u)
    ensures Sends(c, s, first + second, u)
  {
    LeadsOn(c, s, first, t, second, u);
  }

  lemma SendStep(c: Config, s: State)
    requires Inv(c, s) && Enabled(s, SenderGo)
    ensures Inv(c, SenderApply(c, s)) && Sends(c, s, [SenderGo], SenderApply(c, s))
  {
    SenderKeeps(c, s);
    var one := [SenderGo];
    assert one[1..] == [] && Leads(c, s, one, SenderApply(c, s));
  }

  lemma {:induction false} MemcpyLoop(c: Config, s: State) returns (labels: seq<Label>, t: State)
    requires Inv(c, s) && s.sender.SCopy?
    ensures Sends(c, s, labels, t) && Inv(c, t)
    ensures t == s.(mem := t.mem, sender := SCopy(s.sender.count, s.sender.count))
    decreases s.sender.count - s.sender.k
  {
    if s.sender.k == s.sender.count {
      return [], s;
    }
    SendStep(c, s);
    var next := SenderApply(c, s);
    var rest;
    rest, t := MemcpyLoop(c, next);
    SendsOn(c, s, [SenderGo], next, rest, t);
    labels := [SenderGo] + rest;
  }

  /** From the end of the memcpy to READY. */
  lemma PublishSteps(c: Config, s: State) returns (labels: seq<Label>, t: State)
    requires Inv(c, s) && s.sender.SCopy? && s.sender.k == s.sender.count
    ensures Sends(c, s, labels, t) && Inv(c, t)
    ensures var count := s.sender.count;
      t == s.(pos := s.pos + count, size := count, ready := true, sender := STest,
              published := s.published + [s.mem[..count]])
  {
    SendStep(c, s);
    var s1 := SenderApply(c, s);
    SendStep(c, s1);
    var s2 := SenderApply(c, s1);
    SendStep(c, s2);
    t := SenderApply(c, s2);
    SendsOn(c, s1, [SenderGo], s2, [SenderGo], t);
    SendsOn(c, s, [SenderGo], s1, [SenderGo] + [SenderGo], t);
    labels := [SenderGo] + ([SenderGo] + [SenderGo]);
  }

  /** The sending loop gets as far as the memcpy. */
  lemma StartChunk(c: Config, s: State) returns (labels: seq<Label>, t: State)
    requires Inv(c, s) && s.sender.STest? && !s.ready && s.pos < |c.file|
    ensures Sends(c, s, labels, t) && Inv(c, t)
    ensures t == s.(sender := SCopy(Min(|c.file| - s.pos, c.m), 0))
  {
    SendStep(c, s);
    var polling := SenderApply(c, s);
    SendStep(c, polling);
    t := SenderApply(c, polling);
    SendsOn(c, s, [SenderGo], polling, [SenderGo], t);
    labels := [SenderGo] + [SenderGo];
  }

  /** One turn of the sending loop that nothing interferes with, from any reachable state with the flag
      clear and something left to send: the mailbox holds exactly the next piece of the file, READY is
      set last, and nothing else has changed. */
  lemma UndisturbedSend(c: Config, s: State) returns (labels: seq<Label>, t: State)
    requires Reachable(c, s) && s.sender.STest? && !s.ready && s.pos < |c.file|
    ensures Sends(c, s, labels, t) && Inv(c, t)
    ensures var rest := |c.file| - s.pos;
      var count := if rest > c.m then c.m else rest;
      && t == s.(mem := t.mem, size := count, ready := true, pos := s.pos + count, published := t.published)
      && count <= |t.mem| && t.mem[..count] == c.file[s.pos..s.pos + count]
      && t.published == s.published + [c.file[s.pos..s.pos + count]]
  {
    ReachableInv(c, s);
    var l1, copying := StartChunk(c, s);
    var l2, copied := MemcpyLoop(c, copying);
    SendsOn(c, s, l1, copying, l2, copied);
    var l3;
    l3, t := PublishSteps(c, copied);
    SendsOn(c, s, l1 + l2, copied, l3, t);
    labels := l1 + l2 + l3;
  }

  /** Line 119 clears the flag whatever it was, and the loop is over at once for an empty file. */
  lemma SenderStarts(c: Config, s: State)
    requires Typed(c, s) && s.sender.SStart?
    ensures var t := SenderApply(c, s);
      !t.ready && Typed(c, t) && Enabled(t, SenderGo) && (SenderApply(c, t).sender.SDone? <==> s.pos == |c.file|)
  {
  }
}
