/** The binary frames of the blob stream: 32 id characters, a 32-bit sequence number, the payload. */
module BlobCodec {
  import opened Bytes
  import opened Text

  const ID_BYTES: nat := 32
  const HEADER_SIZE: nat := 36
  const SEQ_LIMIT: int := 0x1_0000_0000

  function Zeros(n: nat): string {
    seq(n, _ => '0')
  }

  /** The id cut or padded to 32 characters; none when it is not ASCII. */
  function NormalizeId(requestId: string): (r: Option<string>)
    ensures r.Some? ==> |r.value| == ID_BYTES && IsAscii(r.value)
  {
    var raw := Strip(requestId);
    if !IsAscii(raw) then None
    else if |raw| > ID_BYTES then
      Some(raw[..ID_BYTES])
    else Some(raw + Zeros(ID_BYTES - |raw|))
  }

  /** An id has 32 characters: those of the trimmed text, as many as there are, and then zeros. */
  lemma IdCharacters(requestId: string)
    ensures NormalizeId(requestId).Some?
       <==> forall i :: 0 <= i < |Strip(requestId)| ==> Strip(requestId)[i] as int < 128
    ensures NormalizeId(requestId).Some? ==>
              && |NormalizeId(requestId).value| == 32
              && forall i :: 0 <= i < 32 ==>
                   NormalizeId(requestId).value[i] == if i < |Strip(requestId)| then Strip(requestId)[i] else '0'
  {
  }

  function BigEndian(n: int): (b: seq<byte>)
    requires 0 <= n < SEQ_LIMIT
    ensures |b| == 4
  {
    var high := n / 0x100;
    var higher := high / 0x100;
    [(higher / 0x100) as byte, (higher % 0x100) as byte, (high % 0x100) as byte, (n % 0x100) as byte]
  }

  function FromBigEndian(b: seq<byte>): (n: int)
    requires |b| == 4
    ensures 0 <= n < SEQ_LIMIT
  {
    ((b[0] as int * 0x100 + b[1] as int) * 0x100 + b[2] as int) * 0x100 + b[3] as int
  }

  lemma BigEndianInverse(n: int)
    requires 0 <= n < SEQ_LIMIT
    ensures FromBigEndian(BigEndian(n)) == n
  {
  }

  lemma FromBigEndianInverse(b: seq<byte>)
    requires |b| == 4
    ensures BigEndian(FromBigEndian(b)) == b
  {
    var higher := b[0] as int * 0x100 + b[1] as int;
    var high := higher * 0x100 + b[2] as int;
    assert FromBigEndian(b) / 0x100 == high && high / 0x100 == higher;
  }

  /** The frame, or none when the id is not ASCII or the sequence number does not fit. */
  function Pack(requestId: string, seqNo: int, payload: seq<byte>): Option<seq<byte>> {
    var rid := NormalizeId(requestId);
    if rid.None? || seqNo < 0 || seqNo >= SEQ_LIMIT then None
    else Some(Encode(rid.value) + BigEndian(seqNo) + payload)
  }

  datatype Frame = Frame(id: string, seqNo: int, payload: seq<byte>)

  function Unpack(data: seq<byte>): Option<Frame> {
    if |data| < HEADER_SIZE || !IsAsciiBytes(data[..ID_BYTES]) then None
    else Some(Frame(Decode(data[..ID_BYTES]), FromBigEndian(data[ID_BYTES..HEADER_SIZE]), data[HEADER_SIZE..]))
  }

  predicate IsHex(c: char) {
    '0' <= c <= '9' || 'a' <= c <= 'f' || 'A' <= c <= 'F'
  }

  predicate AllHex(s: string) {
    forall i :: 0 <= i < |s| ==> IsHex(s[i])
  }

  /** Whether the worker takes a binary message for a frame rather than for JSON. */
  predicate LooksLikeFrame(data: seq<byte>) {
    && |data| >= HEADER_SIZE
    && data[0] as int != '{' as int && data[0] as int != '[' as int
    && IsAsciiBytes(data[..ID_BYTES])
    && AllHex(Decode(data[..ID_BYTES]))
  }

  /**
   Unpacking inverts packing. A frame exists exactly for ASCII ids and 32-bit sequence numbers, and
   it is recognised exactly when its padded id is hexadecimal.
   */
  lemma UnpackInvertsPack(requestId: string, seqNo: int, payload: seq<byte>)
    ensures var packed, rid := Pack(requestId, seqNo, payload), NormalizeId(requestId);
            && (packed.Some? <==> IsAscii(Strip(requestId)) && 0 <= seqNo < SEQ_LIMIT)
            && (packed.Some? ==>
                  && Unpack(packed.value) == Some(Frame(rid.value, seqNo, payload))
                  && (LooksLikeFrame(packed.value) <==> AllHex(rid.value)))
  {
    var packed, rid := Pack(requestId, seqNo, payload), NormalizeId(requestId);
    if packed.Some? {
      var data, head := packed.value, Encode(rid.value);
      assert data[..ID_BYTES] == head && data[ID_BYTES..HEADER_SIZE] == BigEndian(seqNo);
      assert data[HEADER_SIZE..] == payload;
      DecodeEncode(rid.value);
      BigEndianInverse(seqNo);
      assert data[0] == head[0];
    }
  }

  /** A frame is 32 bytes of id, the sequence number in four bytes, the highest first, and the payload. */
  lemma FrameLayout(requestId: string, seqNo: int, payload: seq<byte>)
    requires Pack(requestId, seqNo, payload).Some?
    ensures var frame, id := Pack(requestId, seqNo, payload).value, Strip(requestId);
            && |frame| == 36 + |payload|
            && (forall i :: 0 <= i < 32 ==> frame[i] as int == (if i < |id| then id[i] else '0') as int)
            && seqNo == frame[32] as int * 0x100_0000 + frame[33] as int * 0x1_0000 + frame[34] as int * 0x100
                        + frame[35] as int
            && frame[36..] == payload
  {
    IdCharacters(requestId);
    var frame, rid := Pack(requestId, seqNo, payload).value, NormalizeId(requestId).value;
    assert frame == Encode(rid) + BigEndian(seqNo) + payload;
    forall i | 0 <= i < 32 ensures frame[i] as int == rid[i] as int {}
    BigEndianInverse(seqNo);
    assert frame[32..36] == BigEndian(seqNo) && frame[36..] == payload;
  }

  /** A message is taken for a frame exactly when it is long enough and starts with 32 hexadecimal characters. */
  lemma RecognisedExactly(data: seq<byte>)
    ensures LooksLikeFrame(data) <==>
              && |data| >= 36
              && forall i :: 0 <= i < 32 ==>
                   || '0' as int <= data[i] as int <= '9' as int
                   || 'a' as int <= data[i] as int <= 'f' as int
                   || 'A' as int <= data[i] as int <= 'F' as int
  {
    if |data| >= 36 && IsAsciiBytes(data[..32]) {
      var id := Decode(data[..32]);
      assert forall i :: 0 <= i < 32 ==> id[i] as int == data[..32][i] as int == data[i] as int;
      if AllHex(id) {
        assert IsHex(id[0]);
      }
    }
  }

  /** Packing inverts unpacking, for frames whose id field survives trimming. */
  lemma PackInvertsUnpack(data: seq<byte>)
    requires Unpack(data).Some? && Stripped(Unpack(data).value.id)
    ensures var f := Unpack(data).value; Pack(f.id, f.seqNo, f.payload) == Some(data)
  {
    var f := Unpack(data).value;
    StripIdentity(f.id);
    assert f.id + Zeros(0) == f.id;
    EncodeDecode(data[..ID_BYTES]);
    FromBigEndianInverse(data[ID_BYTES..HEADER_SIZE]);
    assert data == data[..ID_BYTES] + data[ID_BYTES..HEADER_SIZE] + data[HEADER_SIZE..];
  }

  /**
   The receiver normalises the id it unpacks once more. That finds the sender's session exactly when
   the 32 characters neither start nor end in a blank, as hexadecimal ids do.
   */
  lemma NormalizeStable(requestId: string)
    requires NormalizeId(requestId).Some?
    ensures var rid := NormalizeId(requestId).value;
            && (NormalizeId(rid) == Some(rid) <==> Stripped(rid))
            && (AllHex(rid) ==> Stripped(rid))
  {
    var rid := NormalizeId(requestId).value;
    if Stripped(rid) {
      StripIdentity(rid);
      assert rid + Zeros(0) == rid;
    } else {
      StripShorter(rid);
      assert NormalizeId(rid) != Some(rid) by {
        var raw := Strip(rid);
        if NormalizeId(rid) == Some(rid) {
          PaddedEnd(raw, rid);
        }
      }
    }
  }

  lemma {:induction false} StripLeftShorter(s: string)
    ensures |StripLeft(s)| <= |s| && (s != "" && IsSpace(s[0]) ==> |StripLeft(s)| < |s|)
  {
    if s != "" && IsSpace(s[0]) {
      StripLeftShorter(s[1..]);
    }
  }

  lemma StripShorter(s: string)
    requires !Stripped(s)
    ensures |Strip(s)| < |s|
  {
    StripLeftShorter(s);
    if !IsSpace(s[0]) {
      assert StripLeft(s) == s && |StripRight(s[..|s| - 1])| <= |s| - 1;
    }
  }

  lemma PaddedEnd(raw: string, rid: string)
    requires |raw| < |rid| == ID_BYTES && rid == raw + Zeros(ID_BYTES - |raw|) && Stripped(raw)
    ensures Stripped(rid)
  {
    assert rid[|rid| - 1] == '0';
    assert rid[0] == if raw == "" then '0' else raw[0];
  }
}
