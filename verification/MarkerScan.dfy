/** Searching a byte stream for a marker while it arrives in chunks. */
module MarkerScan {
  import opened Bytes
  import opened Text

  predicate OccursAt(s: seq<byte>, m: seq<byte>, i: int) {
    0 <= i <= |s| - |m| && s[i..i + |m|] == m
  }

  /** The lowest index at which `m` occurs in `s`. */
  function Find(s: seq<byte>, m: seq<byte>): (r: Option<nat>)
    ensures r.Some? ==> OccursAt(s, m, r.value) && forall i :: i < r.value ==> !OccursAt(s, m, i)
    ensures r.None? ==> forall i :: !OccursAt(s, m, i)
  {
    FindFrom(s, m, 0)
  }

  function FindFrom(s: seq<byte>, m: seq<byte>, start: nat): (r: Option<nat>)
    requires forall i :: i < start ==> !OccursAt(s, m, i)
    ensures r.Some? ==> OccursAt(s, m, r.value) && forall i :: i < r.value ==> !OccursAt(s, m, i)
    ensures r.None? ==> forall i :: !OccursAt(s, m, i)
    decreases |s| - start
  {
    if start + |m| > |s| then None
    else if OccursAt(s, m, start) then Some(start)
    else FindFrom(s, m, start + 1)
  }

  lemma FindUnique(s: seq<byte>, m: seq<byte>, i: nat)
    requires OccursAt(s, m, i) && forall j :: j < i ==> !OccursAt(s, m, j)
    ensures Find(s, m) == Some(i)
  {
  }

  // ---- One chunk

  /** Going on with `pending` carried over, or done with the bytes read after the marker. */
  datatype Progress = More(pending: seq<byte>) | Found(tail: seq<byte>)

  datatype ChunkResult = ChunkResult(emit: seq<byte>, next: Progress)

  function Keep(m: seq<byte>): nat {
    if |m| > 0 then |m| - 1 else 0
  }

  /** What one more chunk emits and what is carried over. */
  function ScanChunk(m: seq<byte>, pending: seq<byte>, chunk: seq<byte>): ChunkResult {
    var data, keep := pending + chunk, Keep(m);
    var at := Find(data, m);
    if at.Some? then ChunkResult(data[..at.value], Found(data[at.value + |m|..]))
    else if |data| > keep then ChunkResult(data[..|data| - keep], More(data[|data| - keep..]))
    else ChunkResult([], More(data))
  }

  /** `emitted + pending` is all that was read, no marker lies in it, and as little as possible is held back. */
  ghost predicate Scanned(m: seq<byte>, emitted: seq<byte>, pending: seq<byte>) {
    && (forall i :: OccursAt(emitted + pending, m, i) ==> emitted + pending == [])
    && |pending| == (if |emitted + pending| <= Keep(m) then |emitted + pending| else Keep(m))
  }

  /** The marker cannot start in front of the bytes held back. */
  lemma NoEarlierStart(m: seq<byte>, emitted: seq<byte>, pending: seq<byte>, more: seq<byte>, i: int)
    requires Scanned(m, emitted, pending) && OccursAt(emitted + pending + more, m, i)
    ensures i >= |emitted|
  {
    var read := emitted + pending;
    if i + |m| <= |read| {
      OccursInPrefix(read, more, m, i);
    }
  }

  lemma OccursShift(a: seq<byte>, b: seq<byte>, m: seq<byte>, i: int)
    requires i >= 0
    ensures OccursAt(a + b, m, |a| + i) <==> OccursAt(b, m, i)
  {
    if 0 <= i <= |b| - |m| {
      assert (a + b)[|a| + i..|a| + i + |m|] == b[i..i + |m|];
    }
  }

  /** Bytes that were emitted cannot be part of a marker that ends in the new chunk. */
  lemma OccurrencesAhead(m: seq<byte>, emitted: seq<byte>, pending: seq<byte>, chunk: seq<byte>, i: int)
    requires Scanned(m, emitted, pending) && OccursAt(emitted + pending + chunk, m, i)
    ensures i >= |emitted| && OccursAt(pending + chunk, m, i - |emitted|)
  {
    NoEarlierStart(m, emitted, pending, chunk, i);
    assert emitted + pending + chunk == emitted + (pending + chunk);
    OccursShift(emitted, pending + chunk, m, i - |emitted|);
  }

  lemma ScanChunkFound(m: seq<byte>, emitted: seq<byte>, pending: seq<byte>, chunk: seq<byte>)
    requires Scanned(m, emitted, pending) && ScanChunk(m, pending, chunk).next.Found?
    ensures var read, r := emitted + pending + chunk, ScanChunk(m, pending, chunk);
            var at := |emitted + r.emit|;
            && Find(read, m) == Some(at) && at + |m| <= |read|
            && emitted + r.emit == read[..at] && r.next.tail == read[at + |m|..]
  {
    var data := pending + chunk;
    var at := Find(data, m).value;
    assert emitted + pending + chunk == emitted + data;
    FoundAhead(m, emitted, pending, chunk, at);
    CutBehind(emitted, data, at, |m|);
  }

  lemma FoundAhead(m: seq<byte>, emitted: seq<byte>, pending: seq<byte>, chunk: seq<byte>, at: nat)
    requires Scanned(m, emitted, pending) && Find(pending + chunk, m) == Some(at)
    ensures Find(emitted + pending + chunk, m) == Some(|emitted| + at)
  {
    var read := emitted + pending + chunk;
    assert read == emitted + (pending + chunk);
    OccursShift(emitted, pending + chunk, m, at);
    forall i | i < |emitted| + at ensures !OccursAt(read, m, i) {
      if OccursAt(read, m, i) {
        OccurrencesAhead(m, emitted, pending, chunk, i);
      }
    }
    FindUnique(read, m, |emitted| + at);
  }

  lemma CutBehind(a: seq<byte>, data: seq<byte>, at: nat, len: nat)
    requires at + len <= |data|
    ensures a + data[..at] == (a + data)[..|a| + at]
    ensures data[at + len..] == (a + data)[|a| + at + len..]
  {
  }

  lemma ScanChunkMore(m: seq<byte>, emitted: seq<byte>, pending: seq<byte>, chunk: seq<byte>)
    requires Scanned(m, emitted, pending) && chunk != [] && ScanChunk(m, pending, chunk).next.More?
    ensures var r := ScanChunk(m, pending, chunk);
            && emitted + r.emit + r.next.pending == emitted + pending + chunk
            && Scanned(m, emitted + r.emit, r.next.pending)
            && (m != [] ==> |r.next.pending| < |m| && (r.emit != [] ==> |r.next.pending| == |m| - 1))
  {
    HoldBack(emitted, pending, chunk, Keep(m));
    NoOccurrence(m, emitted, pending, chunk);
  }

  /** Holding back at most `keep` bytes of what is at hand loses nothing. */
  lemma HoldBack(emitted: seq<byte>, pending: seq<byte>, chunk: seq<byte>, keep: nat)
    requires |pending| == (if |emitted + pending| <= keep then |emitted + pending| else keep) && chunk != []
    ensures var data, read := pending + chunk, emitted + pending + chunk;
            var cut := if |data| > keep then |data| - keep else 0;
            && emitted + data[..cut] + data[cut..] == read
            && |data[cut..]| == (if |read| <= keep then |read| else keep)
  {
    assert emitted + pending + chunk == emitted + (pending + chunk);
  }

  lemma NoOccurrence(m: seq<byte>, emitted: seq<byte>, pending: seq<byte>, chunk: seq<byte>)
    requires Scanned(m, emitted, pending) && Find(pending + chunk, m).None?
    ensures forall i :: !OccursAt(emitted + pending + chunk, m, i)
  {
    forall i ensures !OccursAt(emitted + pending + chunk, m, i) {
      if OccursAt(emitted + pending + chunk, m, i) {
        OccurrencesAhead(m, emitted, pending, chunk, i);
      }
    }
  }

  // ---- The whole stream

  /** What a scan of a chunked stream emits, and where it stops. */
  datatype StreamResult = StreamResult(emitted: seq<byte>, found: bool, tail: seq<byte>, unread: seq<seq<byte>>)

  function ScanStream(m: seq<byte>, pending: seq<byte>, chunks: seq<seq<byte>>): StreamResult
    decreases |chunks|
  {
    if chunks == [] then StreamResult(pending, false, [], [])
    else
      var r := ScanChunk(m, pending, chunks[0]);
      match r.next
      case Found(tail) => StreamResult(r.emit, true, tail, chunks[1..])
      case More(p) =>
        var rest := ScanStream(m, p, chunks[1..]);
        rest.(emitted := r.emit + rest.emitted)
  }

  predicate NonEmptyChunks(chunks: seq<seq<byte>>) {
    forall c :: c in chunks ==> c != []
  }

  /** `before` is what precedes the first marker of `stream`, `r` says where the scan stopped. */
  ghost predicate StreamExact(m: seq<byte>, stream: seq<byte>, before: seq<byte>, r: StreamResult) {
    && (r.found <==> Find(stream, m).Some? && stream != [])
    && (r.found ==> Find(stream, m) == Some(|before|) && stream == before + m + r.tail + Flatten(r.unread))
    && (!r.found ==> before == stream)
  }

  lemma FlattenStep(read: seq<byte>, chunks: seq<seq<byte>>)
    requires chunks != []
    ensures read + Flatten(chunks) == read + chunks[0] + Flatten(chunks[1..])
  {
  }

  lemma ScanFromFound(m: seq<byte>, emitted: seq<byte>, pending: seq<byte>, chunks: seq<seq<byte>>)
    requires Scanned(m, emitted, pending) && chunks != [] && chunks[0] != []
    requires ScanChunk(m, pending, chunks[0]).next.Found?
    ensures var r := ScanStream(m, pending, chunks);
            StreamExact(m, emitted + pending + Flatten(chunks), emitted + r.emitted, r)
  {
    hide Find, Scanned, OccursAt;
    var r := ScanChunk(m, pending, chunks[0]);
    FlattenStep(emitted + pending, chunks);
    ScanChunkFound(m, emitted, pending, chunks[0]);
    FoundEarly(m, emitted + pending + chunks[0], Flatten(chunks[1..]), |emitted + r.emit|);
  }

  lemma ScanStreamStep(m: seq<byte>, pending: seq<byte>, chunks: seq<seq<byte>>, emit: seq<byte>, p: seq<byte>)
    requires chunks != [] && ScanChunk(m, pending, chunks[0]) == ChunkResult(emit, More(p))
    ensures var rest := ScanStream(m, p, chunks[1..]);
            ScanStream(m, pending, chunks) == rest.(emitted := emit + rest.emitted)
  {
  }

  lemma ExactRelabel(m: seq<byte>, stream: seq<byte>, a: seq<byte>, b: seq<byte>, r: StreamResult)
    requires StreamExact(m, stream, a + b + r.emitted, r)
    ensures StreamExact(m, stream, a + (b + r.emitted), r.(emitted := b + r.emitted))
  {
    assert a + b + r.emitted == a + (b + r.emitted);
  }

  lemma {:induction false} ScanFrom(m: seq<byte>, emitted: seq<byte>, pending: seq<byte>, chunks: seq<seq<byte>>)
    requires Scanned(m, emitted, pending) && NonEmptyChunks(chunks)
    ensures var r := ScanStream(m, pending, chunks);
            StreamExact(m, emitted + pending + Flatten(chunks), emitted + r.emitted, r)
    decreases |chunks|
  {
    if chunks == [] {
      assert emitted + pending + Flatten(chunks) == emitted + pending;
    } else {
      assert chunks[0] in chunks && forall c :: c in chunks[1..] ==> c in chunks;
      var r := ScanChunk(m, pending, chunks[0]);
      match r.next {
        case More(p) =>
          ScanChunkMore(m, emitted, pending, chunks[0]);
          ScanFrom(m, emitted + r.emit, p, chunks[1..]);
          ScanStreamStep(m, pending, chunks, r.emit, p);
          FlattenStep(emitted + pending, chunks);
          ExactRelabel(m, emitted + pending + Flatten(chunks), emitted, r.emit, ScanStream(m, p, chunks[1..]));
        case Found(tail) =>
          ScanFromFound(m, emitted, pending, chunks);
      }
    }
  }

  lemma OccursInPrefix(read: seq<byte>, later: seq<byte>, m: seq<byte>, j: int)
    requires j + |m| <= |read|
    ensures OccursAt(read + later, m, j) <==> OccursAt(read, m, j)
  {
    if j >= 0 {
      assert (read + later)[j..j + |m|] == read[j..j + |m|];
    }
  }

  /** A first occurrence stays the first when the stream goes on. */
  lemma FoundEarly(m: seq<byte>, read: seq<byte>, later: seq<byte>, at: nat)
    requires Find(read, m) == Some(at)
    ensures Find(read + later, m) == Some(at)
    ensures read + later == read[..at] + m + read[at + |m|..] + later
  {
    OccursInPrefix(read, later, m, at);
    forall j | j < at ensures !OccursAt(read + later, m, j) {
      OccursInPrefix(read, later, m, j);
    }
    FindUnique(read + later, m, at);
    assert read == read[..at] + m + read[at + |m|..];
  }

  /**
   However a stream is cut into chunks, the scan emits exactly what precedes the first marker in
   the whole stream and stops right after that marker; without a marker it emits everything.
   */
  lemma ScanExact(m: seq<byte>, chunks: seq<seq<byte>>)
    requires NonEmptyChunks(chunks)
    ensures StreamExact(m, Flatten(chunks), ScanStream(m, [], chunks).emitted, ScanStream(m, [], chunks))
  {
    assert Scanned(m, [], []);
    ScanFrom(m, [], [], chunks);
    var r := ScanStream(m, [], chunks);
    assert [] + [] + Flatten(chunks) == Flatten(chunks) && [] + r.emitted == r.emitted;
  }
}
