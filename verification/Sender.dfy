/** The chunking loop of HW12/send_data2.c. */
module Sender {
  import opened Streams

  /** The chunks a file is cut into for a mailbox of `m` bytes. */
  function Chunks(file: seq<byte>, m: nat): seq<seq<byte>>
    requires m > 0
  {
    if file == [] then [] else
      var count := Min(|file|, m);
      [file[..count]] + Chunks(file[count..], m)
  }

  /** The chunks spell out the file, all of them are full except perhaps the last, and none is
      empty. */
  lemma {:induction false} ChunksSpellFile(file: seq<byte>, m: nat)
    requires m > 0
    ensures Flatten(Chunks(file, m)) == file
    ensures ChunkSizes(Chunks(file, m), m)
  {
    if file != [] {
      var count := Min(|file|, m);
      var first, rest := file[..count], Chunks(file[count..], m);
      ChunksSpellFile(file[count..], m);
      FlattenCons(first, rest);
      assert file == first + file[count..];
      assert file[count..] == [] ==> rest == [];
    }
  }

  /** No chunk is empty, and all but the last are full. */
  predicate ChunkSizes(chunks: seq<seq<byte>>, m: nat) {
    && (forall k | 0 <= k < |chunks| :: 0 < |chunks[k]| <= m)
    && (forall k | 0 <= k < |chunks| - 1 :: |chunks[k]| == m)
  }

  /** The first chunk of what is left from `buf` on. */
  lemma NextChunk(file: seq<byte>, buf: nat, m: nat)
    requires m > 0 && buf < |file|
    ensures var count := Min(|file| - buf, m);
      Chunks(file[buf..], m) == [file[buf..buf + count]] + Chunks(file[buf + count..], m)
  {
    var count := Min(|file| - buf, m);
    assert file[buf..][..count] == file[buf..buf + count];
    assert file[buf..][count..] == file[buf + count..];
  }

  /** Publishing the next chunk takes it off the front of what is still to be published. */
  lemma PublishingKeepsChunks(published: seq<seq<byte>>, file: seq<byte>, buf: nat, m: nat)
    requires m > 0 && buf < |file|
    ensures var count := Min(|file| - buf, m);
      published + Chunks(file[buf..], m) == (published + [file[buf..buf + count]]) + Chunks(file[buf + count..], m)
  {
    NextChunk(file, buf, m);
  }

  /** The shared memory the sender and the driver agree on. `taken` is the history of chunks that
      left the mailbox. */
  class Mailbox {
    const mem: array<byte>
    var size: nat
    var flag: nat
    ghost var taken: seq<seq<byte>>

    constructor (m: nat)
      ensures fresh(mem) && mem.Length == m && flag == 0 && taken == []
    {
      mem := new byte[m];
      size, flag := 0, 0;
      taken := [];
    }

    ghost predicate Valid()
      reads this
    {
      size <= mem.Length && flag <= 1
    }

    /** Every chunk published so far, the one still in the mailbox included. */
    ghost function Published(): seq<seq<byte>>
      reads this, mem
      requires Valid()
    {
      if flag == 1 then taken + [mem[..size]] else taken
    }

    /** What the sender sees of the driver: some time after READY was set it is clear again,
        because the worker has taken the chunk. */
    method AwaitTaken()
      requires Valid()
      modifies this`flag, this`taken
      ensures Valid() && flag == 0 && Published() == old(Published())
    {
      if flag == 1 {
        taken := taken + [mem[..size]];
        flag := 0;
      }
    }

    /** `memcpy` into the data area. */
    method CopyIn(file: seq<byte>, buf: nat, count: nat)
      requires buf + count <= |file| && count <= mem.Length
      modifies mem
      ensures mem[..count] == file[buf..buf + count]
    {
      for i := 0 to count
        invariant mem[..i] == file[buf..buf + i]
      {
        mem[i] := file[buf + i];
      }
    }

    /** One turn of the sending loop, after the flag was seen clear: lines 124 to 130. */
    method PublishChunk(file: seq<byte>, buf: nat, len: nat) returns (count: nat)
      requires Valid() && flag == 0 && mem.Length > 0 && 0 < len && buf + len == |file|
      modifies this`size, this`flag, mem
      ensures Valid() && count == Min(len, mem.Length)
      ensures Published() == old(Published()) + [file[buf..buf + count]]
    {
      count := if len > mem.Length then mem.Length else len;
      CopyIn(file, buf, count);
      size := count;
      flag := 1;
    }

    /** The sending loop publishes exactly the chunks of the file, in order, after those already
        taken. A chunk still in the mailbox is lost: the first line clears the flag unseen. */
    method SendFile(file: seq<byte>)
      requires Valid() && mem.Length > 0
      modifies this, mem
      ensures Valid() && Published() == old(taken) + Chunks(file, mem.Length)
    {
      flag := 0;
      var len, buf := |file|, 0;
      ghost var m, before := mem.Length, taken;
      ghost var sent: seq<seq<byte>> := [];
      while len > 0
        invariant Valid() && 0 <= len && 0 <= buf && buf + len == |file|
        invariant Published() == before + sent
        invariant sent + Chunks(file[buf..], m) == Chunks(file, m)
      {
        AwaitTaken();
        PublishingKeepsChunks(sent, file, buf, m);
        var count := PublishChunk(file, buf, len);
        sent := sent + [file[buf..buf + count]];
        len := len - count;
        buf := buf + count;
      }
      assert sent == Chunks(file, m);
    }
  }
}
