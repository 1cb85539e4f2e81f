/**
 Byte strings and the two ways the batching writer glues them together:
 plain concatenation (`Flatten`) and Go's `bytes.Join`, which the worker
 calls with an empty separator.
 */
module Bytes {

  /** A Go `byte`. */
  newtype byte = b: int | 0 <= b < 256

  /** One log record, as a producer hands it to `Write`. */
  type Record = seq<byte>

  /** One buffer, as the worker hands it to the file sink. */
  type Buffer = seq<byte>

  /** The separator the worker passes to `bytes.Join`: no bytes at all. */
  const Empty: seq<byte> := []

  /** The pieces of `s`, one after another, in order. */
  function Flatten<T>(s: seq<seq<T>>): (r: seq<T>)
  {
    if s == [] then [] else s[0] + Flatten(s[1..])
  }

  /** The number of elements in all pieces of `s` together. */
  function TotalLength<T>(s: seq<seq<T>>): nat
  {
    if s == [] then 0 else |s[0]| + TotalLength(s[1..])
  }

  /**
   Go's `bytes.Join(s, sep)`: the pieces of `s` with `sep` between each
   two neighbours; no piece yields an empty buffer and one piece yields a
   copy of it. Its length is every byte of every piece plus one separator
   per gap between pieces.
   */
  function Join(s: seq<seq<byte>>, sep: seq<byte>): (r: seq<byte>)
    ensures |r| == TotalLength(s) + (if s == [] then 0 else (|s| - 1) * |sep|)
  {
    if s == [] then []
    else if |s| == 1 then s[0]
    else s[0] + sep + Join(s[1..], sep)
  }

  /** Flattening a concatenation flattens each half. */
  lemma {:induction false} FlattenAppend<T>(a: seq<seq<T>>, b: seq<seq<T>>)
    ensures Flatten(a + b) == Flatten(a) + Flatten(b)
  {
    if a == [] {
      assert a + b == b;
    } else {
      assert (a + b)[1..] == a[1..] + b;
      FlattenAppend(a[1..], b);
    }
  }

  /** Flattening keeps every element: its length is the total length. */
  lemma {:induction false} FlattenLength<T>(s: seq<seq<T>>)
    ensures |Flatten(s)| == TotalLength(s)
  {
    if s != [] {
      FlattenLength(s[1..]);
    }
  }

  /**
   Piece `i` of `s` sits intact in `Flatten(s)`, right after the bytes of
   the pieces before it.
   */
  lemma {:induction false} FlattenAt<T>(s: seq<seq<T>>, i: nat)
    requires i < |s|
    ensures |Flatten(s[..i])| + |s[i]| <= |Flatten(s)|
    ensures Flatten(s)[|Flatten(s[..i])|..|Flatten(s[..i])| + |s[i]|] == s[i]
  {
    assert s == s[..i] + [s[i]] + s[i + 1..];
    FlattenAppend(s[..i] + [s[i]], s[i + 1..]);
    FlattenAppend(s[..i], [s[i]]);
    assert Flatten([s[i]]) == s[i] + Flatten([s[i]][1..]);
    assert [s[i]][1..] == [];
  }

  /**
   With the empty separator `bytes.Join` adds and drops nothing: it is the
   plain concatenation of the pieces.
   */
  lemma {:induction false} JoinEmptySeparator(s: seq<seq<byte>>)
    ensures Join(s, Empty) == Flatten(s)
  {
    if |s| == 1 {
      assert s[1..] == [];
    } else if |s| > 1 {
      JoinEmptySeparator(s[1..]);
    }
  }
}
