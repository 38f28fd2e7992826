/** The platform device of HW12/platform_test.c: the circular buffer is updated in place by real
    copy loops, and every method is specified by what it does to the abstract byte stream. */
module PlatDummyDevice {
  import opened Streams
  import opened Ring

  const PLAT_IO_DATA_READY := 1

  /** Bit 0 of the flag register. */
  predicate Ready(flags: nat)
    ensures Ready(flags) <==> flags % 2 == PLAT_IO_DATA_READY
  {
    flags % 2 == 1
  }

  /** The flag register with bit 0 cleared and the reserved bits kept. */
  function ClearReady(flags: nat): (r: nat)
    ensures !Ready(r) && r / 2 == flags / 2
  {
    flags - flags % 2
  }

  /** `Sleeps`: the ring is empty, so the call has released the mutex and waits. */
  datatype ReadResult = Data(bytes: seq<byte>) | ReadRestart | ReadFault | Sleeps

  datatype WriteResult = Wrote(count: nat) | WriteRestart | WriteFault

  class PlatDummy {
    const buffer: array<byte>
    var rp: nat
    var wp: nat
    /** The mailbox: data area, size register and flag register (both u32). */
    const mem: array<byte>
    var sizeReg: nat
    var flagReg: nat

    ghost predicate Valid()
      reads this
    {
      buffer != mem && rp < buffer.Length && wp < buffer.Length
    }

    ghost function Stream(): seq<byte>
      reads this, buffer
      requires Valid()
    {
      Contents(buffer[..], rp, wp)
    }

    constructor (n: nat, m: nat)
      requires 0 < n
      ensures Valid() && fresh(buffer) && fresh(mem)
      ensures buffer.Length == n && mem.Length == m && Stream() == []
      ensures flagReg == 0 && sizeReg == 0
    {
      buffer := new byte[n];
      mem := new byte[m];
      rp, wp := 0, 0;
      sizeReg, flagReg := 0, 0;
      new;
    }

    method InitDataBuffer()
      requires 0 < buffer.Length && buffer != mem
      modifies this`rp, this`wp
      ensures Valid() && Stream() == [] && rp == wp == 0
    {
      rp, wp := 0, 0;
    }

    /** How much space is free? */
    method FreeSpace() returns (free: nat)
      requires Valid()
      ensures |Stream()| + free == buffer.Length - 1
    {
      SpaceAccounting(buffer[..], rp, wp);
      if rp == wp {
        return buffer.Length - 1;
      }
      return (rp + buffer.Length - wp) % buffer.Length - 1;
    }

    /** One pass of `plat_dummy_read` through the mutex. A copying read hands out and removes
        exactly a prefix of the stream: all of it up to the count, or up to the end of the
        buffer. Every other outcome leaves the ring alone. */
    method Read(count: nat, interrupted: bool, copyFails: bool) returns (r: ReadResult)
      requires Valid()
      modifies this`rp
      ensures Valid()
      ensures r.ReadRestart? <==> interrupted
      ensures r.Sleeps? <==> !interrupted && old(Stream()) == []
      ensures r.ReadFault? <==> !interrupted && old(Stream()) != [] && copyFails
      ensures !r.Data? ==> rp == old(rp)
      ensures r.Data? ==>
        && r.bytes + Stream() == old(Stream())
        && |r.bytes| == Min(count, Run(buffer.Length, old(rp), wp))
        && (count > 0 ==> r.bytes != [])
    {
      if interrupted {
        return ReadRestart;
      }
      SpaceAccounting(buffer[..], rp, wp);
      if rp == wp {
        return Sleeps;
      }
      if copyFails {
        return ReadFault;
      }
      var bytes := TakeOut(count);
      return Data(bytes);
    }

    /** The copying end of a read, on a ring that is not empty. */
    method TakeOut(count: nat) returns (bytes: seq<byte>)
      requires Valid() && rp != wp
      modifies this`rp
      ensures Valid()
      ensures bytes + Stream() == old(Stream())
      ensures |bytes| == Min(count, Run(buffer.Length, old(rp), wp))
      ensures count > 0 ==> bytes != []
    {
      ghost var was, from := buffer[..], rp;
      var k := if wp > rp then Min(count, wp - rp) else Min(count, buffer.Length - rp);
      assert k == ReadLen(|was|, from, wp, count);
      bytes := buffer[rp..rp + k];
      rp := rp + k;
      if rp == buffer.Length {
        rp := 0;
      }
      assert buffer[..] == was && bytes == was[from..from + k];
      assert rp == AfterRead(|was|, from, wp, count);
      ReadRemovesPrefix(was, from, wp, count);
    }

    /** `plat_dummy_write`: no space check, so an overrun loses exactly the `n` oldest bytes of
        what the stream would have been. The return value never admits to the loss. */
    method Write(data: seq<byte>, interrupted: bool, copyFails: bool) returns (r: WriteResult)
      requires Valid()
      modifies this`wp, buffer
      ensures Valid()
      ensures r.WriteRestart? <==> interrupted
      ensures r.WriteFault? <==> !interrupted && copyFails
      ensures !r.Wrote? ==> Stream() == old(Stream())
      ensures r.Wrote? ==>
        && r.count == Min(|data|, buffer.Length - old(wp))
        && (old(|Stream()|) + r.count < buffer.Length ==>
              Stream() == old(Stream()) + data[..r.count])
        && (old(|Stream()|) + r.count >= buffer.Length ==>
              Stream() == (old(Stream()) + data[..r.count])[buffer.Length..])
    {
      if interrupted {
        return WriteRestart;
      }
      var k := Min(|data|, buffer.Length - wp);
      if copyFails {
        return WriteFault;
      }
      ghost var was, stream := buffer[..], Stream();
      WriteExact(was, rp, wp, data[..k]);
      CopyFromUser(data, k);
      wp := wp + k;
      if wp >= buffer.Length {
        wp := 0;
      }
      assert Stream() == WriteStream(buffer.Length, stream, data[..k]);
      r := Wrote(k);
    }

    method CopyFromUser(data: seq<byte>, count: nat)
      requires count <= |data| && wp + count <= buffer.Length
      modifies buffer
      ensures buffer[..] == Overwrite(old(buffer[..]), wp, data[..count])
    {
      forall i | 0 <= i < count {
        buffer[wp + i] := data[i];
      }
    }

    /** The body of the worker's copy loop: store at the write index, step, wrap. */
    method PutByte(b: byte)
      requires Valid() && |Stream()| + 1 < buffer.Length
      modifies this`wp, buffer
      ensures Valid() && Stream() == old(Stream()) + [b]
    {
      StoreAppends(buffer[..], rp, wp, b);
      ghost var was := buffer[..];
      buffer[wp] := b;
      assert buffer[..] == was[wp := b];
      wp := wp + 1;
      WrapWriteKeeps(buffer[..], rp, wp);
      if wp == buffer.Length {
        wp := 0;
      }
    }

    /** The copy loop of the worker, byte by byte with wrap. */
    method AppendMailbox(count: nat)
      requires Valid() && count <= mem.Length && |Stream()| + count < buffer.Length
      modifies this`wp, buffer
      ensures Valid() && Stream() == old(Stream()) + mem[..count]
    {
      var i := 0;
      ghost var was := Stream();
      ghost var chunk := mem[..];
      while i < count
        invariant Valid() && 0 <= i <= count
        invariant mem[..] == chunk
        invariant Stream() == was + chunk[..i]
      {
        assert chunk[..i + 1] == chunk[..i] + [chunk[i]];
        PutByte(mem[i]);
        i := i + 1;
      }
    }

    /** One run of the polling worker. Either the flag is clear, the lock was interrupted or the
        chunk does not fit, and then nothing changes; or exactly the first `min(size, M)` mailbox
        bytes are appended, and the ready bit is cleared, the reserved bits kept. */
    method Work(interrupted: bool) returns (woke: bool)
      requires Valid()
      modifies this`wp, this`flagReg, buffer
      ensures Valid()
      ensures woke <==> old(flagReg) % 2 == PLAT_IO_DATA_READY && !interrupted
                        && old(|Stream()|) + Min(sizeReg, mem.Length) <= buffer.Length - 1
      ensures !woke ==> wp == old(wp) && flagReg == old(flagReg) && buffer[..] == old(buffer[..])
      ensures woke ==> Stream() == old(Stream()) + mem[..Min(sizeReg, mem.Length)]
                       && flagReg % 2 == 0 && flagReg / 2 == old(flagReg) / 2
    {
      var status := flagReg;
      woke := false;
      if Ready(status) {
        if interrupted {
          return;
        }
        var size := sizeReg;
        if size > mem.Length {
          size := mem.Length;
        }
        var free := FreeSpace();
        var count := Min(size, free);
        if count < size {
          return;
        }
        AppendMailbox(count);
        woke := true;
        status := ClearReady(status);
        flagReg := status;
      }
    }
  }

  /** Two polls of the same chunk: it is taken at most once, whatever the first one met. */
  method PollTwice(d: PlatDummy, interrupted: bool) returns (first: bool, second: bool)
    requires d.Valid()
    modifies d`wp, d`flagReg, d.buffer
    ensures d.Valid() && !(first && second)
    ensures first || second ==> d.Stream() == old(d.Stream()) + d.mem[..Min(d.sizeReg, d.mem.Length)] && d.flagReg % 2 == 0
    ensures !first && !second ==> d.Stream() == old(d.Stream()) && d.flagReg == old(d.flagReg)
    ensures second ==> interrupted
  {
    first := d.Work(interrupted);
    ghost var stream := d.Stream();
    second := d.Work(false);
    assert first ==> d.Stream() == stream;
  }
}
