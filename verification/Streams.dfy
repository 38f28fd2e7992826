/** Bytes and the flattening of a log of slices into the stream they spell out. */
module Streams {

  newtype byte = x: int | 0 <= x < 256

  function Min(a: int, b: int): (r: int)
    ensures r <= a && r <= b && (r == a || r == b)
  {
    if a <= b then a else b
  }

  /** The slices of `parts`, one after the other. */
  function Flatten<T>(parts: seq<seq<T>>): (r: seq<T>) {
    if parts == [] then [] else Flatten(parts[..|parts| - 1]) + parts[|parts| - 1]
  }

  lemma FlattenSnoc<T>(parts: seq<seq<T>>, part: seq<T>)
    ensures Flatten(parts + [part]) == Flatten(parts) + part
  {
  }

  lemma {:induction false} FlattenConcat<T>(a: seq<seq<T>>, b: seq<seq<T>>)
    ensures Flatten(a + b) == Flatten(a) + Flatten(b)
  {
    if b == [] {
      assert a + b == a;
    } else {
      var front, last := b[..|b| - 1], b[|b| - 1];
      assert (a + b)[..|a + b| - 1] == a + front;
      FlattenConcat(a, front);
    }
  }

  lemma FlattenCons<T>(first: seq<T>, rest: seq<seq<T>>)
    ensures Flatten([first] + rest) == first + Flatten(rest)
  {
    FlattenConcat([first], rest);
    assert [] + [first] == [first];
    FlattenSnoc([], first);
    assert [] + first == first;
  }

  /** Slice `k` of the log lies in the flattened stream right behind the slices logged before it. */
  lemma {:induction false} FlattenSlice<T>(parts: seq<seq<T>>, k: nat)
    requires k < |parts|
    ensures var off := |Flatten(parts[..k])|;
      off + |parts[k]| <= |Flatten(parts)| && Flatten(parts)[off..off + |parts[k]|] == parts[k]
  {
    var off := |Flatten(parts[..k])|;
    FlattenSnoc(parts[..k], parts[k]);
    assert parts == parts[..k + 1] + parts[k + 1..];
    assert parts[..k + 1] == parts[..k] + [parts[k]];
    FlattenConcat(parts[..k + 1], parts[k + 1..]);
  }

  /** Handing the first `k` elements of a queue over to the delivered part loses nothing. */
  lemma HandOver<T>(delivered: seq<T>, queue: seq<T>, k: nat)
    requires k <= |queue|
    ensures (delivered + queue[..k]) + queue[k..] == delivered + queue
  {
  }
}
