/** The promises of the transfer pipeline, for every reachable state of every interleaving. */
module PipelineTheorems {
  import opened Streams
  import opened Ring
  import opened Sender
  import opened Pipeline
  import opened PipelineSafety

  /** The bytes of the current chunk that are in the mailbox's keeping. */
  function OwnedBytes(c: Config, s: State): seq<byte>
    requires Inv(c, s)
  {
    if s.sender.SSize? || s.sender.SFlag? then s.mem[..s.sender.count]
    else if !s.ready then []
    else match s.worker
      case WStore(i, size) => s.mem[i..size]
      case WWrap(i, size) => s.mem[i + 1..size]
      case WWake => []
      case WClear => []
      case _ => s.mem[..s.size]
  }

  /** What the ring still holds for future reads: a slice already handed to a user but not yet
      removed is not counted again. */
  function RingBytes(c: Config, s: State): seq<byte>
    requires Inv(c, s)
  {
    Contents(s.buf, s.rp, s.wp)[InFlight(s)..]
  }

  lemma OwnedIsFilePiece(c: Config, s: State)
    requires Inv(c, s)
    ensures OwnedBytes(c, s) == c.file[Appended(s)..s.pos]
  {
  }

  /** End-to-end conservation: no byte of the file is lost, duplicated or reordered on its way. */
  lemma Conservation(c: Config, s: State)
    requires Reachable(c, s)
    ensures Inv(c, s)
    ensures Delivered(s) + RingBytes(c, s) + OwnedBytes(c, s) + c.file[s.pos..] == c.file
  {
    ReachableInv(c, s);
    OwnedIsFilePiece(c, s);
    ThreePieces(c.file, Appended(s), s.pos);
  }

  lemma ThreePieces(file: seq<byte>, a: nat, pos: nat)
    requires a <= pos <= |file|
    ensures file[..a] + file[a..pos] + file[pos..] == file
  {
  }

  /** From the moment READY is set until the worker clears it, the data area and the size register
      stand still, and the chunk in them is one the sender cut. */
  lemma MailboxOwnership(c: Config, s: State, l: Label)
    requires Reachable(c, s) && s.ready
    requires Typed(c, s) && Enabled(s, l)
    ensures var t := Apply(c, s, l);
      && t.mem == s.mem && t.size == s.size
      && (t.ready <==> !(s.worker.WClear? && l.WorkerGo?))
  {
    ReachableInv(c, s);
    if l.ReaderDoes? {
      ReaderFrame(c, s, l.r, l.act);
    }
  }

  lemma {:induction false} PrefixOfConcat<T>(a: seq<T>, b: seq<T>, whole: seq<T>)
    requires a + b == whole
    ensures |a| <= |whole| && a == whole[..|a|]
  {
  }

  /** Exactly once, in order: the chunks published and the chunks taken into the ring are prefixes
      of the chunking of the file that differ by at most the chunk in the mailbox, and the bytes that
      ever entered the ring are the taken chunks plus the copied part of the current one. */
  lemma ExactlyOnce(c: Config, s: State)
    requires Reachable(c, s)
    ensures Inv(c, s)
    ensures |s.accepted| <= |s.published| <= |s.accepted| + 1
    ensures |s.published| <= |Chunks(c.file, c.m)|
    ensures s.published == Chunks(c.file, c.m)[..|s.published|]
    ensures s.accepted == s.published[..|s.accepted|]
    ensures Delivered(s) + RingBytes(c, s) == Flatten(s.accepted) +
            (if s.worker.WStore? then s.mem[..s.worker.i]
             else if s.worker.WWrap? then s.mem[..s.worker.i + 1] else [])
  {
    ReachableInv(c, s);
    var done := if s.sender.SSize? || s.sender.SFlag? then s.pos - s.sender.count else s.pos;
    PrefixOfConcat(s.published, Chunks(c.file[done..], c.m), Chunks(c.file, c.m));
    assert s.accepted == s.published[..|s.accepted|];
    PublishedSpells(c, s, done);
    AcceptedSpells(c, s, done);
  }

  lemma PublishedSpells(c: Config, s: State, done: nat)
    requires c.m > 0 && done <= |c.file|
    requires s.published + Chunks(c.file[done..], c.m) == Chunks(c.file, c.m)
    ensures Flatten(s.published) == c.file[..done]
  {
    ChunksSpellFile(c.file, c.m);
    ChunksSpellFile(c.file[done..], c.m);
    FlattenConcat(s.published, Chunks(c.file[done..], c.m));
    PrefixOfConcat(Flatten(s.published), c.file[done..], c.file);
  }

  /** If `head ++ chunk` spells the file up to `from + |chunk|`, then `head ++ chunk[..i]` spells it up
      to `from + i`. */
  lemma CutBack(file: seq<byte>, head: seq<byte>, chunk: seq<byte>, pos: nat, i: nat)
    requires pos <= |file| && head + chunk == file[..pos] && i <= |chunk|
    ensures pos - |chunk| + i >= 0 && file[..pos - |chunk| + i] == head + chunk[..i]
  {
  }

  lemma AcceptedSpells(c: Config, s: State, done: nat)
    requires Inv(c, s)
    requires done == if s.sender.SSize? || s.sender.SFlag? then s.pos - s.sender.count else s.pos
    requires Flatten(s.published) == c.file[..done]
    ensures c.file[..Appended(s)] == Flatten(s.accepted) +
            (if s.worker.WStore? then s.mem[..s.worker.i]
             else if s.worker.WWrap? then s.mem[..s.worker.i + 1] else [])
  {
    if s.ready && !s.worker.WWake? && !s.worker.WClear? {
      var chunk := s.mem[..s.size];
      var i := if s.worker.WStore? then s.worker.i else if s.worker.WWrap? then s.worker.i + 1 else 0;
      FlattenSnoc(s.accepted, chunk);
      CutBack(c.file, Flatten(s.accepted), chunk, s.pos, i);
      assert chunk[..i] == s.mem[..i];
      assert Appended(s) == s.pos - s.size + i;
    }
  }

  lemma SliceOfPrefix(file: seq<byte>, delivered: seq<byte>, ring: seq<byte>, a: nat, off: nat, slice: seq<byte>)
    requires a <= |file| && delivered + ring == file[..a]
    requires off + |slice| <= |delivered| && delivered[off..off + |slice|] == slice
    ensures off + |slice| <= |file| && slice == file[off..off + |slice|]
  {
    assert delivered == file[..|delivered|];
  }

  /** Concurrent readers: the slices handed out lie back to back in the file in the order the mutex
      was held, so they are disjoint and lose nothing; a read that asked for something got
      something. */
  lemma ReadersGetDisjointPieces(c: Config, s: State, k: nat)
    requires Reachable(c, s) && k < |s.slices|
    ensures |s.takers| == |s.slices|
    ensures var off := |Flatten(s.slices[..k])|;
      && off + |s.slices[k]| <= |c.file|
      && s.slices[k] == c.file[off..off + |s.slices[k]|]
      && s.takers[k].reader < c.readers
      && |s.slices[k]| <= s.takers[k].want
      && (s.takers[k].want > 0 ==> s.slices[k] != [])
  {
    ReachableInv(c, s);
    FlattenSlice(s.slices, k);
    SliceOfPrefix(c.file, Delivered(s), RingBytes(c, s), Appended(s), |Flatten(s.slices[..k])|, s.slices[k]);
    assert TakerOk(c, s.slices[k], s.takers[k]);
  }

  /** A reader is past its wait loop only with the mutex held and data in the ring. */
  lemma LeavesWaitLoopWithData(c: Config, s: State, r: nat)
    requires Reachable(c, s) && r < |s.readers| && s.readers[r].pc.CopyOut?
    ensures s.lock == ByReader(r)
    ensures s.rp < c.n && s.wp < c.n && |s.buf| == c.n && Contents(s.buf, s.rp, s.wp) != []
    ensures s.readers[r].pc.count <= Run(c.n, s.rp, s.wp)
    ensures s.readers[r].pc.want > 0 ==> s.readers[r].pc.count > 0
  {
    ReachableInv(c, s);
    assert ReaderHolds(s.readers[r].pc) <==> s.lock == ByReader(r);
    assert ReaderOk(c, s, s.readers[r].pc);
  }

  /** The sleep of a reader is safe against the worker. */
  lemma NoLostWakeup(c: Config, s: State, r: nat)
    requires Reachable(c, s) && r < |s.readers| && s.readers[r].pc.Asleep? && s.readers[r].queued
    ensures Typed(c, s)
    ensures Contents(s.buf, s.rp, s.wp) != [] ==> WakePending(s.worker)
  {
    ReachableInv(c, s);
    assert Restful(c, s, s.readers[r]);
  }

  /** Whenever the mutex is free: both indices are in range, used and free bytes add up to `n - 1`,
      and equal indices mean an empty ring. */
  lemma SpaceAccountingAlways(c: Config, s: State)
    requires Reachable(c, s) && s.lock.Free?
    ensures s.rp < c.n && s.wp < c.n && |s.buf| == c.n
    ensures |Contents(s.buf, s.rp, s.wp)| + SpaceFree(c.n, s.rp, s.wp) == c.n - 1
    ensures s.rp == s.wp <==> Contents(s.buf, s.rp, s.wp) == []
  {
    ReachableInv(c, s);
    SpaceAccounting(s.buf, s.rp, s.wp);
  }

  /** The abstract pipe: bytes delivered, bytes on their way, bytes not yet sent. */
  datatype Fifo = Fifo(delivered: seq<byte>, transit: seq<byte>, unsent: seq<byte>)

  /** A pipe stutters, takes the next bytes in at its tail or gives bytes out from its head. */
  predicate FifoNext(a: Fifo, b: Fifo) {
    || b == a
    || (|b.unsent| <= |a.unsent| && var k := |a.unsent| - |b.unsent|;
        b == Fifo(a.delivered, a.transit + a.unsent[..k], a.unsent[k..]))
    || (|b.transit| <= |a.transit| && var k := |a.transit| - |b.transit|;
        b == Fifo(a.delivered + a.transit[..k], a.transit[k..], a.unsent))
  }

  function Abstract(c: Config, s: State): Fifo
    requires Inv(c, s)
  {
    Fifo(Delivered(s), RingBytes(c, s) + OwnedBytes(c, s), c.file[s.pos..])
  }

  /** If `delivered ++ ring` is the file up to `a`, both are pieces of the file. */
  lemma CutAt(file: seq<byte>, delivered: seq<byte>, ring: seq<byte>, a: nat, pos: nat)
    requires a <= pos <= |file| && delivered + ring == file[..a]
    ensures var d := |delivered|;
      d <= a && delivered == file[..d] && ring + file[a..pos] == file[d..pos]
  {
    var d := |delivered|;
    assert delivered == file[..a][..d];
    assert ring == file[..a][d..] == file[d..a];
    assert file[d..a] + file[a..pos] == file[d..pos];
  }

  lemma AbstractByPosition(c: Config, s: State)
    requires Inv(c, s)
    ensures var d := |Delivered(s)|;
      d <= Appended(s) && Abstract(c, s) == Fifo(c.file[..d], c.file[d..s.pos], c.file[s.pos..])
  {
    OwnedIsFilePiece(c, s);
    CutAt(c.file, Delivered(s), RingBytes(c, s), Appended(s), s.pos);
  }

  lemma SenderCounters(c: Config, s: State)
    requires Inv(c, s) && Enabled(s, SenderGo)
    ensures var t := SenderApply(c, s);
      s.pos <= t.pos && Appended(t) == Appended(s) && Delivered(t) == Delivered(s)
      && (t.pos > s.pos <==> s.sender.SCopy? && s.sender.k == s.sender.count)
  {
  }

  lemma WorkerCounters(c: Config, s: State)
    requires Inv(c, s) && Enabled(s, WorkerGo)
    ensures var t := WorkerApply(c, s);
      && t.pos == s.pos && Delivered(t) == Delivered(s)
      && Appended(t) == Appended(s) + if s.worker.WStore? && s.worker.i < s.worker.size then 1 else 0
  {
  }

  lemma ReaderCounters(c: Config, s: State, r: nat, act: ReaderAct)
    requires Typed(c, s) && r < |s.readers| && ReaderEnabled(s, r, act)
    ensures var t := ReaderApply(c, s, r, act);
      && t.pos == s.pos && Appended(t) == Appended(s)
      && |Delivered(t)| == |Delivered(s)| +
           (if act.Go? && s.readers[r].pc.CopyOut? then s.readers[r].pc.count else 0)
  {
    ReaderFrame(c, s, r, act);
    if act.Go? && s.readers[r].pc.CopyOut? {
      var slice := s.buf[s.rp..s.rp + s.readers[r].pc.count];
      FlattenSnoc(s.slices, slice);
      assert Delivered(ReaderApply(c, s, r, act)) == Delivered(s) + slice;
    }
  }

  /** A step moves at most one of the three stream positions, and none of them backwards. */
  lemma CountersMoveAlone(c: Config, s: State, l: Label)
    requires Inv(c, s) && Enabled(s, l)
    ensures var t := Apply(c, s, l);
      && s.pos <= t.pos && Appended(s) <= Appended(t) && |Delivered(s)| <= |Delivered(t)|
      && (t.pos == s.pos || (Appended(t) == Appended(s) && |Delivered(t)| == |Delivered(s)|))
      && (Appended(t) == Appended(s) || |Delivered(t)| == |Delivered(s)|)
  {
    match l
    case SenderGo => SenderCounters(c, s);
    case WorkerGo => WorkerCounters(c, s);
    case WorkerInterrupted =>
    case ReaderDoes(r, act) => ReaderCounters(c, s, r, act);
  }

  lemma PositionsStep(file: seq<byte>, d: nat, p: nat, d': nat, p': nat)
    requires d <= d' <= p' <= |file| && d <= p <= p' && d' <= p && (d' == d || p' == p)
    ensures FifoNext(Fifo(file[..d], file[d..p], file[p..]), Fifo(file[..d'], file[d'..p'], file[p'..]))
  {
    if d' == d {
      assert file[d..p] + file[p..][..p' - p] == file[d..p'];
      assert file[p..][p' - p..] == file[p'..];
    } else {
      assert file[..d] + file[d..p][..d' - d] == file[..d'];
      assert file[d..p][d' - d..] == file[d'..p];
    }
  }

  /** The whole step system refines the byte pipe. */
  lemma RefinesFifo(c: Config, s: State, l: Label)
    requires Reachable(c, s) && Typed(c, s) && Enabled(s, l)
    ensures Inv(c, s) && Inv(c, Apply(c, s, l))
    ensures FifoNext(Abstract(c, s), Abstract(c, Apply(c, s, l)))
  {
    var t := Apply(c, s, l);
    ReachableInv(c, s);
    StepKeeps(c, s, l);
    AbstractByPosition(c, s);
    AbstractByPosition(c, t);
    CountersMoveAlone(c, s, l);
    if t.pos == s.pos {
      PositionsStep(c.file, |Delivered(s)|, s.pos, |Delivered(t)|, t.pos);
    } else {
      PositionsStep(c.file, |Delivered(s)|, s.pos, |Delivered(s)|, t.pos);
    }
  }

  lemma RefinesFifoInitially(c: Config, s: State)
    requires Init(c, s)
    ensures Inv(c, s) && Abstract(c, s) == Fifo([], [], c.file)
  {
  }
}
