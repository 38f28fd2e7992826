/** The circular byte buffer of the platform device as a value: `buf` with a read index and a
    write index. An index may stand at `|buf|` (the source's `end`) between an increment and the
    wrap that follows it. */
module Ring {
  import opened Streams

  /** Number of bytes between the read and the write index. */
  function Used(n: nat, rp: nat, wp: nat): int {
    if rp <= wp then wp - rp else wp + n - rp
  }

  /** The source's `spacefree`. */
  function SpaceFree(n: nat, rp: nat, wp: nat): int
    requires rp < n && wp < n
  {
    if rp == wp then n - 1 else (rp + n - wp) % n - 1
  }

  /** The stream the ring holds, oldest byte first. */
  function Contents(buf: seq<byte>, rp: nat, wp: nat): (r: seq<byte>)
    requires rp <= |buf| && wp <= |buf|
    ensures |r| == Used(|buf|, rp, wp)
  {
    if rp <= wp then buf[rp..wp] else buf[rp..] + buf[..wp]
  }

  /** Bytes that can be read without wrapping, once the ring is known to be non-empty. */
  function Run(n: nat, rp: nat, wp: nat): int {
    if wp > rp then wp - rp else n - rp
  }

  function Wrap(n: nat, p: nat): nat {
    if p == n then 0 else p
  }

  /** One slot always stays free: `spacefree` and the used bytes add up to `n - 1`, and equal
      indices mean empty, never full. */
  lemma SpaceAccounting(buf: seq<byte>, rp: nat, wp: nat)
    requires rp < |buf| && wp < |buf|
    ensures |Contents(buf, rp, wp)| + SpaceFree(|buf|, rp, wp) == |buf| - 1
    ensures 0 <= SpaceFree(|buf|, rp, wp)
    ensures rp == wp <==> Contents(buf, rp, wp) == []
  {
  }

  /** Storing one byte at the write index appends it, as long as one slot stays free. */
  lemma StoreAppends(buf: seq<byte>, rp: nat, wp: nat, b: byte)
    requires rp < |buf| && wp < |buf| && Used(|buf|, rp, wp) + 1 < |buf|
    ensures Contents(buf[wp := b], rp, wp + 1) == Contents(buf, rp, wp) + [b]
  {
  }

  /** Wrapping the write index leaves the stream alone unless the ring is full. */
  lemma WrapWriteKeeps(buf: seq<byte>, rp: nat, wp: nat)
    requires rp < |buf| && wp <= |buf| && Used(|buf|, rp, wp) < |buf|
    ensures Contents(buf, rp, Wrap(|buf|, wp)) == Contents(buf, rp, wp)
  {
  }

  /** Advancing the read index within the contiguous run removes exactly a prefix. */
  lemma AdvanceDrops(buf: seq<byte>, rp: nat, wp: nat, k: nat)
    requires rp < |buf| && wp < |buf| && rp != wp && k <= Run(|buf|, rp, wp)
    ensures k <= |Contents(buf, rp, wp)|
    ensures Contents(buf, rp, wp)[..k] == buf[rp..rp + k]
    ensures Contents(buf, rp + k, wp) == Contents(buf, rp, wp)[k..]
  {
  }

  /** Wrapping the read index leaves the stream alone. */
  lemma WrapReadKeeps(buf: seq<byte>, rp: nat, wp: nat)
    requires rp <= |buf| && wp < |buf|
    ensures Contents(buf, Wrap(|buf|, rp), wp) == Contents(buf, rp, wp)
  {
  }

  /** What one successful `plat_dummy_read` of a non-empty ring does to the read index. */
  function ReadLen(n: nat, rp: nat, wp: nat, count: nat): (k: nat)
    requires rp < n && wp < n && rp != wp
  {
    Min(count, Run(n, rp, wp))
  }

  function AfterRead(n: nat, rp: nat, wp: nat, count: nat): (rp': nat)
    requires rp < n && wp < n && rp != wp
    ensures rp' < n
  {
    Wrap(n, rp + ReadLen(n, rp, wp, count))
  }

  lemma FrontAndRest(stream: seq<byte>, front: seq<byte>, rest: seq<byte>, k: nat)
    requires k <= |stream| && front == stream[..k] && rest == stream[k..]
    ensures front + rest == stream
  {
  }

  /** Within the contiguous run, moving the read index by `k` with its wrap removes the first `k` bytes. */
  lemma RemovesPrefix(buf: seq<byte>, rp: nat, wp: nat, k: nat)
    requires rp < |buf| && wp < |buf| && rp != wp && k <= Run(|buf|, rp, wp)
    ensures k <= |Contents(buf, rp, wp)|
    ensures buf[rp..rp + k] == Contents(buf, rp, wp)[..k]
    ensures Contents(buf, Wrap(|buf|, rp + k), wp) == Contents(buf, rp, wp)[k..]
    ensures buf[rp..rp + k] + Contents(buf, Wrap(|buf|, rp + k), wp) == Contents(buf, rp, wp)
  {
    AdvanceDrops(buf, rp, wp, k);
    WrapReadKeeps(buf, rp + k, wp);
    FrontAndRest(Contents(buf, rp, wp), buf[rp..rp + k], Contents(buf, Wrap(|buf|, rp + k), wp), k);
  }

  lemma AfterReadIs(n: nat, rp: nat, wp: nat, count: nat)
    requires rp < n && wp < n && rp != wp
    ensures var k := ReadLen(n, rp, wp, count);
      k <= Run(n, rp, wp) && (count > 0 ==> k > 0) && AfterRead(n, rp, wp, count) == Wrap(n, rp + k)
  {
  }

  lemma SplitAt(buf: seq<byte>, rp: nat, wp: nat, k: nat, after: nat)
    requires rp < |buf| && wp < |buf| && rp != wp && k <= Run(|buf|, rp, wp) && after == Wrap(|buf|, rp + k)
    ensures buf[rp..rp + k] + Contents(buf, after, wp) == Contents(buf, rp, wp)
  {
    RemovesPrefix(buf, rp, wp, k);
  }

  /** What a read hands out and what it leaves are the old stream; it hands out something if the count
      is not 0. */
  lemma ReadRemovesPrefix(buf: seq<byte>, rp: nat, wp: nat, count: nat)
    requires rp < |buf| && wp < |buf| && rp != wp
    ensures var k := ReadLen(|buf|, rp, wp, count);
      && (count > 0 ==> k > 0)
      && buf[rp..rp + k] + Contents(buf, AfterRead(|buf|, rp, wp, count), wp) == Contents(buf, rp, wp)
  {
    AfterReadIs(|buf|, rp, wp, count);
    SplitAt(buf, rp, wp, ReadLen(|buf|, rp, wp, count), AfterRead(|buf|, rp, wp, count));
  }

  /** Two reads asking for at least the buffer size empty any ring, wrapped or not, and together
      return all of it in order. One read is enough exactly when the data does not wrap. */
  lemma TwoReadsDrain(buf: seq<byte>, rp: nat, wp: nat, count: nat)
    requires rp < |buf| && wp < |buf| && rp != wp && count >= |buf|
    ensures var k := ReadLen(|buf|, rp, wp, count);
      var rp1 := AfterRead(|buf|, rp, wp, count);
      && (rp1 == wp <==> rp < wp || wp == 0)
      && (rp1 == wp ==> buf[rp..rp + k] == Contents(buf, rp, wp))
      && (rp1 != wp ==>
            var k2 := ReadLen(|buf|, rp1, wp, count);
            && AfterRead(|buf|, rp1, wp, count) == wp
            && buf[rp..rp + k] + buf[rp1..rp1 + k2] == Contents(buf, rp, wp))
  {
  }

  /** `data` laid into the buffer at `wp`, as one `copy_from_user` that stops at the end. */
  function Overwrite(buf: seq<byte>, wp: nat, data: seq<byte>): (r: seq<byte>)
    requires wp + |data| <= |buf|
    ensures |r| == |buf|
  {
    buf[..wp] + data + buf[wp + |data|..]
  }

  /** The stream after `plat_dummy_write` laid down `data`: it has no space check, so data that
      does not leave a slot free makes the oldest `n` bytes of (stream ++ data) vanish. */
  function WriteStream(n: nat, stream: seq<byte>, data: seq<byte>): (r: seq<byte>)
    requires |stream| < n && |data| <= n
  {
    if |stream| + |data| < n then stream + data else (stream + data)[n..]
  }

  /** The bytes laid down and the moved index give exactly that stream. */
  lemma WriteExact(buf: seq<byte>, rp: nat, wp: nat, data: seq<byte>)
    requires rp < |buf| && wp < |buf| && wp + |data| <= |buf|
    ensures Contents(Overwrite(buf, wp, data), rp, Wrap(|buf|, wp + |data|))
         == WriteStream(|buf|, Contents(buf, rp, wp), data)
  {
  }
}
