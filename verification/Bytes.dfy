/** Bytes, ASCII text as bytes, and sequences of byte chunks. */
module Bytes {

  newtype byte = x: int | 0 <= x < 256

  predicate IsAscii(s: string) {
    forall i :: 0 <= i < |s| ==> s[i] as int < 128
  }

  predicate IsAsciiBytes(b: seq<byte>) {
    forall i :: 0 <= i < |b| ==> b[i] < 128
  }

  function Encode(s: string): (b: seq<byte>)
    requires IsAscii(s)
    ensures |b| == |s| && IsAsciiBytes(b)
    ensures forall i :: 0 <= i < |s| ==> b[i] as int == s[i] as int
  {
    seq(|s|, i requires 0 <= i < |s| => s[i] as int as byte)
  }

  function Decode(b: seq<byte>): (s: string)
    requires IsAsciiBytes(b)
    ensures |s| == |b| && IsAscii(s)
    ensures forall i :: 0 <= i < |b| ==> s[i] as int == b[i] as int
  {
    seq(|b|, i requires 0 <= i < |b| => b[i] as int as char)
  }

  lemma DecodeEncode(s: string)
    requires IsAscii(s)
    ensures Decode(Encode(s)) == s
  {
  }

  lemma EncodeDecode(b: seq<byte>)
    requires IsAsciiBytes(b)
    ensures Encode(Decode(b)) == b
  {
  }

  function Flatten(chunks: seq<seq<byte>>): seq<byte> {
    if chunks == [] then [] else chunks[0] + Flatten(chunks[1..])
  }

  lemma {:induction false} FlattenConcat(a: seq<seq<byte>>, b: seq<seq<byte>>)
    ensures Flatten(a + b) == Flatten(a) + Flatten(b)
  {
    if a == [] {
      assert a + b == b;
    } else {
      assert (a + b)[1..] == a[1..] + b;
      FlattenConcat(a[1..], b);
    }
  }
}
