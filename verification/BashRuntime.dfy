/**
 Running one command in a long-lived shell: stdout and stderr are read concurrently up to their
 sentinels, decoded incrementally and kept within one shared output limit.
 */
module BashRuntime {
  import opened Bytes
  import opened Text
  import opened MarkerScan

  // ---- Incremental decoding

  /** A decoder that turns bytes into text one byte at a time; `flush` ends the text. */
  datatype Decoder<!S> = Decoder(init: S, step: (S, byte) -> (S, string), flush: S -> string) {
    ghost predicate Sane() {
      flush(init) == ""
    }
  }

  function Feed<S>(d: Decoder<S>, state: S, bytes: seq<byte>): (S, string) {
    if bytes == [] then (state, "")
    else
      var (s1, t1) := d.step(state, bytes[0]);
      var (s2, t2) := Feed(d, s1, bytes[1..]);
      (s2, t1 + t2)
  }

  /** The text of a complete stream. */
  function DecodeAll<S>(d: Decoder<S>, bytes: seq<byte>): string {
    var (s, t) := Feed(d, d.init, bytes);
    t + d.flush(s)
  }

  lemma {:induction false} FeedConcat<S>(d: Decoder<S>, state: S, a: seq<byte>, b: seq<byte>)
    ensures var (s1, t1) := Feed(d, state, a);
            var (s2, t2) := Feed(d, s1, b);
            Feed(d, state, a + b) == (s2, t1 + t2)
  {
    if a == [] {
      assert a + b == b && "" + Feed(d, state, b).1 == Feed(d, state, b).1;
    } else {
      var (s, t) := d.step(state, a[0]);
      assert (a + b)[1..] == a[1..] + b && (a + b)[0] == a[0];
      FeedConcat(d, s, a[1..], b);
      var (s1, t1) := Feed(d, s, a[1..]);
      var (s2, t2) := Feed(d, s1, b);
      assert t + (t1 + t2) == t + t1 + t2;
    }
  }

  /** What decoding a stream so far and one more piece comes to, as it goes on and if it ends there. */
  lemma DecodedMore<S>(d: Decoder<S>, state: S, before: seq<byte>, decoded: string, data: seq<byte>)
    requires (state, decoded) == Feed(d, d.init, before)
    ensures var (next, text) := Feed(d, state, data);
            && Feed(d, d.init, before + data) == (next, decoded + text)
            && DecodeAll(d, before + data) == decoded + (text + d.flush(next))
  {
    FeedConcat(d, d.init, before, data);
    var (next, text) := Feed(d, state, data);
    assert decoded + text + d.flush(next) == decoded + (text + d.flush(next));
  }

  // ---- The shared limit

  function Min(a: int, b: int): int {
    if a <= b then a else b
  }

  /** The number of characters a limit lets through. */
  function Cap(limit: int): nat {
    if limit > 0 then limit else 0
  }

  class OutputBudget {
    const limit: int
    var totalChars: nat
    var truncated: bool
    ghost var offered: nat

    ghost predicate Valid()
      reads this
    {
      totalChars == Min(Cap(limit), offered) && (truncated <==> offered > Cap(limit))
    }

    constructor (limit: int)
      ensures this.limit == limit && Valid() && offered == totalChars == 0
    {
      this.limit := limit;
      totalChars, truncated, offered := 0, false, 0;
    }

    /** Lets through as much of `text` as the limit still allows. */
    method Take(text: string) returns (kept: string)
      requires Valid()
      modifies this
      ensures Valid() && offered == old(offered) + |text|
      ensures kept <= text && totalChars == old(totalChars) + |kept|
      ensures !truncated ==> kept == text
      ensures old(truncated) ==> kept == ""
    {
      offered := offered + |text|;
      if text == "" {
        return "";
      }
      if totalChars >= limit {
        truncated := true;
        return "";
      }
      var remaining := limit - totalChars;
      if |text| > remaining {
        kept := text[..remaining];
        totalChars := totalChars + remaining;
        truncated := true;
      } else {
        kept := text;
        totalChars := totalChars + |text|;
      }
    }
  }

  // ---- One reader

  lemma ScanContinues(all: StreamResult, m: seq<byte>, pending: seq<byte>, chunks: seq<seq<byte>>,
                      emitted: seq<byte>, emit: seq<byte>, held: seq<byte>)
    requires chunks != [] && ScanChunk(m, pending, chunks[0]) == ChunkResult(emit, More(held))
    requires var now := ScanStream(m, pending, chunks); all == now.(emitted := emitted + now.emitted)
    ensures var rest := ScanStream(m, held, chunks[1..]); all == rest.(emitted := emitted + emit + rest.emitted)
  {
    ScanStreamStep(m, pending, chunks, emit, held);
    var rest := ScanStream(m, held, chunks[1..]);
    assert emitted + (emit + rest.emitted) == emitted + emit + rest.emitted;
  }

  /** How many times a reader waits for data: for each chunk up to its marker, or for all chunks and the end. */
  function ReaderSteps(m: seq<byte>, pending: seq<byte>, chunks: seq<seq<byte>>): (n: nat)
    ensures 1 <= n <= |chunks| + 1
    decreases |chunks|
  {
    if chunks == [] then 1
    else
      match ScanChunk(m, pending, chunks[0]).next
      case Found(_) => 1
      case More(held) => 1 + ReaderSteps(m, held, chunks[1..])
  }

  /** A reader that finds its marker waits once per chunk it reads; one that does not waits for the end as well. */
  lemma {:induction false} StepsLeaveUnread(m: seq<byte>, pending: seq<byte>, chunks: seq<seq<byte>>)
    ensures var r := ScanStream(m, pending, chunks);
            ReaderSteps(m, pending, chunks) + |r.unread| == if r.found then |chunks| else |chunks| + 1
    decreases |chunks|
  {
    if chunks != [] {
      var r := ScanChunk(m, pending, chunks[0]);
      if r.next.More? {
        StepsLeaveUnread(m, r.next.pending, chunks[1..]);
      }
    }
  }

  /** `n` are the fewest of the chunks that complete a marker, or one more than there are if none does. */
  ghost predicate FewestChunks(m: seq<byte>, read: seq<byte>, chunks: seq<seq<byte>>, n: nat) {
    if Find(read + Flatten(chunks), m).Some? then
      && n <= |chunks| && Find(read + Flatten(chunks[..n]), m).Some?
      && forall k :: 0 <= k < n ==> Find(read + Flatten(chunks[..k]), m).None?
    else n == |chunks| + 1
  }

  /** With nothing but one more chunk in front, it is one chunk more. */
  lemma FewestWithOneMore(m: seq<byte>, read: seq<byte>, chunks: seq<seq<byte>>, n: nat)
    requires chunks != [] && Find(read, m).None? && FewestChunks(m, read + chunks[0], chunks[1..], n)
    ensures FewestChunks(m, read, chunks, n + 1)
  {
    hide Find;
    var rest := chunks[1..];
    FlattenStep(read, chunks);
    forall k | 0 < k <= |chunks|
      ensures read + Flatten(chunks[..k]) == read + chunks[0] + Flatten(rest[..k - 1])
    {
      assert chunks[..k][0] == chunks[0] && chunks[..k][1..] == rest[..k - 1];
      FlattenStep(read, chunks[..k]);
    }
    assert chunks[..0] == [] && read + Flatten([]) == read;
  }

  lemma NoneYet(m: seq<byte>, emitted: seq<byte>, pending: seq<byte>)
    requires Scanned(m, emitted, pending) && m != []
    ensures Find(emitted + pending, m).None? && FewestChunks(m, emitted + pending, [], 1)
  {
    assert emitted + pending + Flatten([]) == emitted + pending;
  }

  /** A reader waits for no more chunks than it takes to complete the marker. */
  lemma {:induction false} StepsFewest(m: seq<byte>, emitted: seq<byte>, pending: seq<byte>, chunks: seq<seq<byte>>)
    requires Scanned(m, emitted, pending) && NonEmptyChunks(chunks) && m != []
    ensures FewestChunks(m, emitted + pending, chunks, ReaderSteps(m, pending, chunks))
    decreases |chunks|
  {
    hide Find, Scanned, FewestChunks, ScanChunk;
    var read := emitted + pending;
    NoneYet(m, emitted, pending);
    if chunks != [] {
      var r, rest := ScanChunk(m, pending, chunks[0]), chunks[1..];
      assert chunks[0] in chunks && forall c :: c in rest ==> c in chunks;
      match r.next {
        case Found(_) =>
          ScanChunkFound(m, emitted, pending, chunks[0]);
          FoundAtOnce(m, read, chunks);
        case More(held) =>
          ScanChunkMore(m, emitted, pending, chunks[0]);
          StepsFewest(m, emitted + r.emit, held, rest);
          FewestWithOneMore(m, read, chunks, ReaderSteps(m, held, rest));
      }
    }
  }

  lemma FoundAtOnce(m: seq<byte>, read: seq<byte>, chunks: seq<seq<byte>>)
    requires chunks != [] && Find(read, m).None? && Find(read + chunks[0], m).Some?
    ensures FewestChunks(m, read, chunks, 1)
  {
    hide Find;
    FlattenStep(read, chunks);
    FoundEarly(m, read + chunks[0], Flatten(chunks[1..]), Find(read + chunks[0], m).value);
    assert chunks[..1] == [chunks[0]] && [chunks[0]][1..] == [] && chunks[..0] == [];
    FlattenStep(read, [chunks[0]]);
    assert read + Flatten([]) == read && read + chunks[0] + [] == read + chunks[0];
  }

  /** Reads one stream up to its marker; `Step` is what happens between two waits for data. */
  class MarkerReader<S(!new)> {
    const marker: seq<byte>
    const decoder: Decoder<S>
    const budget: OutputBudget
    ghost const source: seq<seq<byte>>
    var unread: seq<seq<byte>>
    var pending: seq<byte>
    var state: S
    var buf: string
    var tail: Option<seq<byte>>
    var ended: bool
    ghost var emitted: seq<byte>
    ghost var decoded: string

    ghost predicate Running()
      reads this
    {
      var all, rest := ScanStream(marker, [], source), ScanStream(marker, pending, unread);
      && all == rest.(emitted := emitted + rest.emitted)
      && (state, decoded) == Feed(decoder, decoder.init, emitted)
      && (pending == [] ==> emitted == [])
    }

    ghost predicate Finished()
      reads this
    {
      var all := ScanStream(marker, [], source);
      && tail == Some(all.tail) && unread == all.unread && emitted == all.emitted && ended == !all.found
      && decoded == DecodeAll(decoder, all.emitted)
    }

    /** How many more steps the reader takes. */
    ghost function Remaining(): nat
      reads this
    {
      if tail.Some? then 0 else ReaderSteps(marker, pending, unread)
    }

    ghost predicate Valid()
      reads this, budget
    {
      && NonEmptyChunks(unread) && |marker| >= 2 && decoder.Sane()
      && (if tail.None? then Running() else Finished())
      && KeptPrefix()
    }

    /** Both sentinels are longer than one character, so some bytes are always held back. */
    constructor (marker: seq<byte>, decoder: Decoder<S>, budget: OutputBudget, chunks: seq<seq<byte>>)
      requires |marker| >= 2 && decoder.Sane() && NonEmptyChunks(chunks)
      ensures Valid() && tail.None? && decoded == "" && buf == ""
      ensures this.marker == marker && this.decoder == decoder && this.budget == budget
      ensures source == chunks && unread == chunks && pending == []
    {
      this.marker, this.decoder, this.budget, this.source := marker, decoder, budget, chunks;
      unread, pending, state, buf, tail, ended := chunks, [], decoder.init, "", None, false;
      emitted, decoded := [], "";
      new;
      var all := ScanStream(marker, [], chunks);
      assert [] + all.emitted == all.emitted;
    }

    /** Text only grows, and the limit is charged for exactly what was decoded and kept. */
    twostate predicate Charged()
      reads this, budget
    {
      && old(decoded) <= decoded
      && budget.offered - old(budget.offered) == |decoded| - |old(decoded)|
      && budget.totalChars - old(budget.totalChars) == |buf| - |old(buf)|
      && (old(budget.truncated) ==> budget.truncated)
    }

    /** What was kept is a prefix of what was decoded, and all of it while nothing was cut. */
    ghost predicate KeptPrefix()
      reads this, budget
    {
      buf <= decoded && (!budget.truncated ==> buf == decoded)
    }

    /** Decodes `data`, ends the text if it is the last, and keeps what the limit allows. */
    method AppendBytes(data: seq<byte>, final: bool)
      requires budget.Valid() && KeptPrefix()
      requires (state, decoded) == Feed(decoder, decoder.init, emitted)
      modifies this`state, this`buf, this`emitted, this`decoded, budget
      ensures budget.Valid() && KeptPrefix() && Charged()
      ensures emitted == old(emitted) + data
      ensures if final then decoded == DecodeAll(decoder, emitted)
              else (state, decoded) == Feed(decoder, decoder.init, emitted)
    {
      hide Feed, DecodeAll;
      var (next, text) := Feed(decoder, state, data);
      DecodedMore(decoder, state, emitted, decoded, data);
      state := next;
      if final {
        text := text + decoder.flush(next);
      }
      var kept := budget.Take(text);
      assert budget.truncated || buf + kept == decoded + text;
      buf := buf + kept;
      emitted, decoded := emitted + data, decoded + text;
    }

    /** The stream has ended without a marker: what was held back is text after all. */
    method StepEnd()
      requires Valid() && budget.Valid() && tail.None? && unread == []
      modifies this`state, this`buf, this`tail, this`ended, this`emitted, this`decoded, budget
      ensures Valid() && budget.Valid() && Charged() && tail.Some? && old(Remaining()) == 1
    {
      if pending != [] {
        AppendBytes(pending, true);
      } else {
        assert emitted + pending == emitted;
      }
      tail, ended := Some([]), true;
    }

    /** The marker is complete: what precedes it is the end of the text. */
    method StepFound(emit: seq<byte>, rest: seq<byte>)
      requires Valid() && budget.Valid() && tail.None? && unread != []
      requires ScanChunk(marker, pending, unread[0]) == ChunkResult(emit, Found(rest))
      modifies this`unread, this`state, this`buf, this`tail, this`ended, this`emitted, this`decoded, budget
      ensures Valid() && budget.Valid() && Charged() && tail.Some? && old(Remaining()) == 1
    {
      assert forall c :: c in unread[1..] ==> c in unread;
      unread := unread[1..];
      AppendBytes(emit, true);
      tail, ended := Some(rest), false;
    }

    /** No marker yet: emits what cannot belong to one and holds back the rest. */
    method StepMore(emit: seq<byte>, held: seq<byte>)
      requires Valid() && budget.Valid() && tail.None? && unread != []
      requires ScanChunk(marker, pending, unread[0]) == ChunkResult(emit, More(held))
      requires held == [] ==> emit == [] && pending == []
      modifies this`unread, this`pending, this`state, this`buf, this`emitted, this`decoded, budget
      ensures Valid() && budget.Valid() && Charged() && old(Remaining()) == Remaining() + 1
    {
      assert forall c :: c in unread[1..] ==> c in unread;
      ghost var before := emitted;
      ScanContinues(ScanStream(marker, [], source), marker, pending, unread, emitted, emit, held);
      unread := unread[1..];
      pending := held;
      if emit != [] {
        AppendBytes(emit, false);
      } else {
        assert before + emit == before;
      }
    }

    /** Takes in one more chunk. */
    method StepChunk()
      requires Valid() && budget.Valid() && tail.None? && unread != []
      modifies this`unread, this`pending, this`state, this`buf, this`tail, this`ended, this`emitted, this`decoded
      modifies budget
      ensures Valid() && budget.Valid() && Charged()
      ensures old(Remaining()) == Remaining() + 1
    {
      assert unread[0] in unread;
      var data, keep := pending + unread[0], |marker| - 1;
      var at := Find(data, marker);
      if at.Some? {
        StepFound(data[..at.value], data[at.value + |marker|..]);
      } else if |data| > keep {
        StepMore(data[..|data| - keep], data[|data| - keep..]);
      } else {
        StepMore([], data);
      }
    }

    /** What happens between two waits for data. */
    method Step()
      requires Valid() && budget.Valid() && tail.None?
      modifies this`unread, this`pending, this`state, this`buf, this`tail, this`ended, this`emitted, this`decoded
      modifies budget
      ensures Valid() && budget.Valid() && Charged()
      ensures old(Remaining()) == Remaining() + 1
    {
      if unread == [] {
        StepEnd();
      } else {
        StepChunk();
      }
    }
  }

  // ---- One command

  const SENTINEL_TAG: string := "__MACCHIATO_BASH_SENTINEL__"
  const ERR_SENTINEL_TAG: string := "__MACCHIATO_BASH_ERR_SENTINEL__"
  const NEWLINE: byte := 10

  function OutMarker(sentinelId: string): (m: seq<byte>)
    requires IsAscii(sentinelId)
    ensures |m| >= 2
  {
    Encode(SENTINEL_TAG + ":" + sentinelId + ":")
  }

  function ErrMarker(sentinelId: string): (m: seq<byte>)
    requires IsAscii(sentinelId)
    ensures |m| >= 2
  {
    Encode(ERR_SENTINEL_TAG + ":" + sentinelId)
  }

  /** What a stream says before its first marker, or all of it. */
  function Before(stream: seq<byte>, m: seq<byte>): seq<byte> {
    var at := Find(stream, m);
    if at.Some? then stream[..at.value] else stream
  }

  /** The bytes up to the first newline. */
  function LineOf(bytes: seq<byte>): seq<byte> {
    if bytes == [] || bytes[0] == NEWLINE then [] else [bytes[0]] + LineOf(bytes[1..])
  }

  /** The line that follows the first marker of a stream; empty when there is none. */
  function LineAfter(stream: seq<byte>, m: seq<byte>): seq<byte> {
    var at := Find(stream, m);
    if at.Some? then LineOf(stream[at.value + |m|..]) else []
  }

  lemma {:induction false} LineComplete(a: seq<byte>, b: seq<byte>)
    requires NEWLINE in a
    ensures LineOf(a + b) == LineOf(a)
  {
    if a[0] != NEWLINE {
      assert (a + b)[1..] == a[1..] + b;
      LineComplete(a[1..], b);
    }
  }

  /** The line of a text is all of it in front of its first newline, or the whole of it. */
  lemma {:induction false} LineUpTo(line: seq<byte>, rest: seq<byte>)
    requires NEWLINE !in line
    ensures LineOf(line + [NEWLINE] + rest) == line && LineOf(line) == line
  {
    var all := line + [NEWLINE] + rest;
    if line != [] {
      assert all[1..] == line[1..] + [NEWLINE] + rest && line == [line[0]] + line[1..];
      LineUpTo(line[1..], rest);
    }
  }

  /** How many more waits it takes until a whole line is there or the stream has `ended`. */
  function LineSteps(read: seq<byte>, chunks: seq<seq<byte>>, ended: bool): (n: nat)
    ensures n <= if ended then |chunks| else |chunks| + 1
    decreases |chunks|
  {
    if NEWLINE in read then 0
    else if chunks == [] then if ended then 0 else 1
    else 1 + LineSteps(read + chunks[0], chunks[1..], ended)
  }

  /** They are the fewest chunks that complete the line, or all of them and the end, unless it was seen. */
  lemma {:induction false} LineStepsFewest(read: seq<byte>, chunks: seq<seq<byte>>, ended: bool)
    ensures var n := LineSteps(read, chunks, ended);
            if NEWLINE in read + Flatten(chunks) then
              && n <= |chunks| && NEWLINE in read + Flatten(chunks[..n])
              && forall m :: 0 <= m < n ==> NEWLINE !in read + Flatten(chunks[..m])
            else n == |chunks| + (if ended then 0 else 1)
    decreases |chunks|
  {
    assert Flatten([]) == [] && read + [] == read;
    if NEWLINE in read {
      assert chunks[..0] == [];
    } else if chunks != [] {
      var more, rest := read + chunks[0], chunks[1..];
      LineStepsFewest(more, rest, ended);
      forall m | 0 < m <= |chunks| ensures read + Flatten(chunks[..m]) == more + Flatten(rest[..m - 1]) {
        assert chunks[..m][0] == chunks[0] && chunks[..m][1..] == rest[..m - 1];
        assert read + (chunks[0] + Flatten(rest[..m - 1])) == more + Flatten(rest[..m - 1]);
      }
      assert chunks[..|chunks|] == chunks && rest[..|rest|] == rest && chunks[..0] == [];
    }
  }

  /** Reads on after the marker until a whole line is there, the stream ends or the time is up. */
  method ReadExitLine(tail: seq<byte>, chunks: seq<seq<byte>>, ended: bool, deadline: nat)
    returns (line: Option<seq<byte>>)
    ensures line.Some? <==> LineSteps(tail, chunks, ended) <= deadline
    ensures line.Some? ==> line.value == LineOf(tail + Flatten(chunks))
  {
    var read, unread, steps := tail, chunks, 0;
    while NEWLINE !in read
      invariant read + Flatten(unread) == tail + Flatten(chunks)
      invariant steps + LineSteps(read, unread, ended) == LineSteps(tail, chunks, ended) && steps <= deadline
      decreases |unread|
    {
      if unread == [] && ended {
        break;
      }
      if steps == deadline {
        return None;
      }
      if unread == [] {
        break;
      }
      assert read + Flatten(unread) == read + unread[0] + Flatten(unread[1..]);
      read, unread, steps := read + unread[0], unread[1..], steps + 1;
    }
    if NEWLINE in read {
      LineComplete(read, Flatten(unread));
    } else {
      assert read + Flatten(unread) == read;
    }
    return Some(LineOf(read));
  }

  datatype BashResult = BashResult(stdout: string, stderr: string, exitCode: int, timedOut: bool, truncated: bool)

  lemma DecodedPrefix<S>(d: Decoder<S>, a: seq<byte>, b: seq<byte>)
    ensures Feed(d, d.init, a).1 <= DecodeAll(d, a + b)
  {
    FeedConcat(d, d.init, a, b);
  }

  /** The scan emits what its stream says before the marker. */
  lemma ScanEmitsBefore(m: seq<byte>, source: seq<seq<byte>>)
    requires NonEmptyChunks(source) && |m| >= 2
    ensures ScanStream(m, [], source).emitted == Before(Flatten(source), m)
  {
    var all, stream := ScanStream(m, [], source), Flatten(source);
    ScanExact(m, source);
    if all.found {
      PrefixCut(all.emitted, m, all.tail, Flatten(all.unread));
    } else {
      assert Find(stream, m).None?;
    }
  }

  lemma PrefixCut(a: seq<byte>, b: seq<byte>, c: seq<byte>, d: seq<byte>)
    ensures (a + b + c + d)[..|a|] == a && (a + b + c + d)[|a| + |b|..] == c + d
  {
  }

  /** Everything a reader's stream says before the reader's marker. */
  ghost function TextOf<S(!new)>(r: MarkerReader<S>): string {
    DecodeAll(r.decoder, Before(Flatten(r.source), r.marker))
  }

  /** What a valid reader has decoded: a prefix of its stream's text, and all of it once finished. */
  lemma ReaderDecodes<S(!new)>(r: MarkerReader<S>)
    requires r.Valid() && NonEmptyChunks(r.source)
    ensures r.buf <= r.decoded <= TextOf(r) && (r.tail.Some? ==> r.decoded == TextOf(r))
  {
    ScanEmitsBefore(r.marker, r.source);
    if r.tail.None? {
      var rest := ScanStream(r.marker, r.pending, r.unread);
      DecodedPrefix(r.decoder, r.emitted, rest.emitted);
    }
  }

  /** A finished reader stands where the scan of its whole stream stops. */
  lemma FinishedAt<S(!new)>(r: MarkerReader<S>)
    requires r.Valid() && r.tail.Some?
    ensures var all := ScanStream(r.marker, [], r.source);
            r.tail == Some(all.tail) && r.unread == all.unread && r.ended == !all.found
  {
  }

  /** The line after the marker of a finished reader. */
  lemma ReaderExitLine<S(!new)>(r: MarkerReader<S>)
    requires r.Valid() && NonEmptyChunks(r.source) && r.tail.Some?
    ensures LineOf(r.tail.value + Flatten(r.unread)) == LineAfter(Flatten(r.source), r.marker)
  {
    hide ScanStream, Find, MarkerReader.Valid;
    var all, stream := ScanStream(r.marker, [], r.source), Flatten(r.source);
    FinishedAt(r);
    ScanExact(r.marker, r.source);
    if all.found {
      PrefixCut(all.emitted, r.marker, all.tail, Flatten(all.unread));
    } else {
      NotFoundEmpty(r.marker, [], r.source);
    }
  }

  lemma {:induction false} NotFoundEmpty(m: seq<byte>, pending: seq<byte>, chunks: seq<seq<byte>>)
    ensures var r := ScanStream(m, pending, chunks); !r.found ==> r.tail == [] && r.unread == []
    decreases |chunks|
  {
    if chunks != [] {
      var r := ScanChunk(m, pending, chunks[0]);
      if r.next.More? {
        NotFoundEmpty(m, r.next.pending, chunks[1..]);
      }
    }
  }

  /** Runs the two readers in any order until both have seen their marker or the time is up. */
  method ReadBoth<S(!new)>(out: MarkerReader<S>, err: MarkerReader<S>, schedule: nat -> bool, deadline: nat)
    returns (steps: nat)
    requires out != err && out.budget == err.budget && out.budget.Valid() && out.Valid() && err.Valid()
    requires out.budget.offered == |out.decoded| + |err.decoded| && out.budget.totalChars == |out.buf| + |err.buf|
    modifies out, err, out.budget
    ensures out.budget.Valid() && out.Valid() && err.Valid() && steps <= deadline
    ensures out.budget.offered == |out.decoded| + |err.decoded| && out.budget.totalChars == |out.buf| + |err.buf|
    ensures steps == Min(deadline, old(out.Remaining()) + old(err.Remaining()))
    ensures out.tail.Some? && err.tail.Some? <==> old(out.Remaining()) + old(err.Remaining()) <= deadline
  {
    hide ScanStream, ScanChunk, ReaderSteps, MarkerReader.Running, MarkerReader.Finished, OutputBudget.Valid;
    steps := 0;
    while (out.tail.None? || err.tail.None?) && steps < deadline
      invariant steps <= deadline
      invariant steps + out.Remaining() + err.Remaining() == old(out.Remaining()) + old(err.Remaining())
      invariant out.budget.Valid() && out.Valid() && err.Valid()
      invariant out.budget.offered == |out.decoded| + |err.decoded|
      invariant out.budget.totalChars == |out.buf| + |err.buf|
    {
      if err.tail.Some? || (out.tail.None? && schedule(steps)) {
        out.Step();
      } else {
        err.Step();
      }
      steps := steps + 1;
    }
  }

  /** A stream that says `text`, then for the first time the marker, and then `rest`. */
  ghost predicate SaysBefore(stream: seq<byte>, marker: seq<byte>, text: seq<byte>, rest: seq<byte>) {
    stream == text + marker + rest && forall i :: 0 <= i < |text| ==> !OccursAt(stream, marker, i)
  }

  /** The same, with `line` behind the marker, up to a newline or the end. */
  ghost predicate SaysLine(stream: seq<byte>, marker: seq<byte>, text: seq<byte>, line: seq<byte>, rest: seq<byte>) {
    SaysBefore(stream, marker, text, line + rest) && 10 !in line && (rest == [] || rest[0] == 10)
  }

  lemma SaidBefore(stream: seq<byte>, m: seq<byte>, text: seq<byte>, rest: seq<byte>)
    requires SaysBefore(stream, m, text, rest)
    ensures Before(stream, m) == text && LineAfter(stream, m) == LineOf(rest)
  {
    assert stream[|text|..|text| + |m|] == m && stream[..|text|] == text && stream[|text| + |m|..] == rest;
    FindUnique(stream, m, |text|);
  }

  lemma SaidLine(stream: seq<byte>, m: seq<byte>, text: seq<byte>, line: seq<byte>, rest: seq<byte>)
    requires SaysLine(stream, m, text, line, rest)
    ensures Before(stream, m) == text && LineAfter(stream, m) == line
  {
    SaidBefore(stream, m, text, line + rest);
    if rest == [] {
      assert line + rest == line;
      LineUpTo(line, []);
    } else {
      assert line + rest == line + [NEWLINE] + rest[1..];
      LineUpTo(line, rest[1..]);
    }
  }

  /** How much of the two texts a result holds, and which exit code goes with it. */
  ghost predicate ResultFor(r: BashResult, outText: string, errText: string, limit: int, exitCode: int) {
    var most, said := if limit < 0 then 0 else limit, |outText| + |errText|;
    && r.stdout <= outText && r.stderr <= errText
    && |r.stdout| + |r.stderr| <= most
    && (!r.timedOut ==>
          && |r.stdout| + |r.stderr| == (if said < most then said else most)
          && (r.truncated <==> said > most)
          && r.exitCode == exitCode)
    && (r.timedOut ==> r.exitCode == -1)
  }

  /** Puts the result together once the readers have stopped. */
  method Conclude<S(!new)>(out: MarkerReader<S>, err: MarkerReader<S>, deadline: nat, parse: seq<byte> -> int)
    returns (r: BashResult)
    requires out.budget == err.budget && out.budget.Valid() && out.Valid() && err.Valid()
    requires out.budget.offered == |out.decoded| + |err.decoded| && out.budget.totalChars == |out.buf| + |err.buf|
    requires NonEmptyChunks(out.source) && NonEmptyChunks(err.source)
    ensures ResultFor(r, TextOf(out), TextOf(err), out.budget.limit, parse(LineAfter(Flatten(out.source), out.marker)))
    ensures !r.timedOut <==>
              out.tail.Some? && err.tail.Some? && LineSteps(out.tail.value, out.unread, out.ended) <= deadline
  {
    ReaderDecodes(out);
    ReaderDecodes(err);
    var exitCode, timedOut := -1, true;
    if out.tail.Some? && err.tail.Some? {
      ReaderExitLine(out);
      var line := ReadExitLine(out.tail.value, out.unread, out.ended, deadline);
      if line.Some? {
        exitCode, timedOut := parse(line.value), false;
      }
    }
    r := BashResult(out.buf, err.buf, exitCode, timedOut, out.budget.truncated);
  }

  /** How many waits for data a command takes: both readers up to their markers, then the rest of the exit line. */
  function StepsNeeded(outMarker: seq<byte>, errMarker: seq<byte>, stdout: seq<seq<byte>>, stderr: seq<seq<byte>>)
    : nat
  {
    var all := ScanStream(outMarker, [], stdout);
    ReaderSteps(outMarker, [], stdout) + ReaderSteps(errMarker, [], stderr)
    + LineSteps(all.tail, all.unread, !all.found)
  }

  /** No command takes more waits than its streams have chunks and ends. */
  lemma StepsBounded(outMarker: seq<byte>, errMarker: seq<byte>, stdout: seq<seq<byte>>, stderr: seq<seq<byte>>)
    ensures StepsNeeded(outMarker, errMarker, stdout, stderr) <= |stdout| + |stderr| + 2
  {
    StepsLeaveUnread(outMarker, [], stdout);
    NotFoundEmpty(outMarker, [], stdout);
  }

  /**
   The kept texts begin what the streams say before their sentinels, and the exit code is read from
   the line behind that of stdout.
   */
  ghost predicate ReadAsSaid<S(!new)>(r: BashResult, stdout: seq<byte>, stderr: seq<byte>, sentinelId: string,
                                      decoder: Decoder<S>, parse: seq<byte> -> int)
    requires IsAscii(sentinelId)
  {
    var outMarker := Encode("__MACCHIATO_BASH_SENTINEL__" + ":" + sentinelId + ":");
    var errMarker := Encode("__MACCHIATO_BASH_ERR_SENTINEL__" + ":" + sentinelId);
    && (forall text, line, rest :: SaysLine(stdout, outMarker, text, line, rest) ==>
          r.stdout <= DecodeAll(decoder, text) && (!r.timedOut ==> r.exitCode == parse(line)))
    && (forall text, rest :: SaysBefore(stderr, errMarker, text, rest) ==> r.stderr <= DecodeAll(decoder, text))
  }

  /** What a result holds of streams whose markers come where `SaysLine` and `SaysBefore` say. */
  lemma ResultSaid<S(!new)>(r: BashResult, stdout: seq<seq<byte>>, stderr: seq<seq<byte>>, sentinelId: string,
                            decoder: Decoder<S>, limit: int, parse: seq<byte> -> int)
    requires IsAscii(sentinelId)
    requires ResultFor(r, DecodeAll(decoder, Before(Flatten(stdout), OutMarker(sentinelId))),
                       DecodeAll(decoder, Before(Flatten(stderr), ErrMarker(sentinelId))), limit,
                       parse(LineAfter(Flatten(stdout), OutMarker(sentinelId))))
    ensures ReadAsSaid(r, Flatten(stdout), Flatten(stderr), sentinelId, decoder, parse)
  {
    hide Before, LineAfter, DecodeAll, SaysLine, SaysBefore;
    forall text, line, rest | SaysLine(Flatten(stdout), OutMarker(sentinelId), text, line, rest)
      ensures r.stdout <= DecodeAll(decoder, text) && (!r.timedOut ==> r.exitCode == parse(line))
    {
      SaidLine(Flatten(stdout), OutMarker(sentinelId), text, line, rest);
    }
    forall text, rest | SaysBefore(Flatten(stderr), ErrMarker(sentinelId), text, rest)
      ensures r.stderr <= DecodeAll(decoder, text)
    {
      SaidBefore(Flatten(stderr), ErrMarker(sentinelId), text, rest);
    }
  }

  /**
   Runs one command's output through both readers. However the streams are cut into chunks and the
   readers are interleaved, what is kept is a prefix of each stream's text before its marker; and
   when the command was not timed out the kept lengths add up to the limit or to everything,
   `truncated` says which, and the exit code is the one on the line after stdout's marker. It is timed
   out exactly when there is time for fewer waits than it takes, whatever the order of the readers.
   */
  method Execute<S(!new)>(stdout: seq<seq<byte>>, stderr: seq<seq<byte>>, sentinelId: string, decoder: Decoder<S>,
                          limit: int, schedule: nat -> bool, deadline: nat, parse: seq<byte> -> int)
    returns (r: BashResult)
    requires NonEmptyChunks(stdout) && NonEmptyChunks(stderr) && decoder.Sane() && IsAscii(sentinelId)
    ensures ResultFor(r, DecodeAll(decoder, Before(Flatten(stdout), OutMarker(sentinelId))),
                      DecodeAll(decoder, Before(Flatten(stderr), ErrMarker(sentinelId))), limit,
                      parse(LineAfter(Flatten(stdout), OutMarker(sentinelId))))
    ensures ReadAsSaid(r, Flatten(stdout), Flatten(stderr), sentinelId, decoder, parse)
    ensures r.timedOut <==> deadline < StepsNeeded(OutMarker(sentinelId), ErrMarker(sentinelId), stdout, stderr)
    ensures deadline >= |stdout| + |stderr| + 2 ==> !r.timedOut
  {
    hide ScanStream, ScanChunk, ReaderSteps, LineSteps, ResultFor, DecodeAll, Before, LineAfter, OutMarker, ErrMarker;
    hide ReadAsSaid;
    hide NonEmptyChunks, MarkerReader.Valid, OutputBudget.Valid;
    StepsBounded(OutMarker(sentinelId), ErrMarker(sentinelId), stdout, stderr);
    var budget := new OutputBudget(limit);
    var out := new MarkerReader<S>(OutMarker(sentinelId), decoder, budget, stdout);
    var err := new MarkerReader<S>(ErrMarker(sentinelId), decoder, budget, stderr);
    var steps := ReadBoth(out, err, schedule, deadline);
    if out.tail.Some? {
      FinishedAt(out);
    }
    r := Conclude(out, err, deadline - steps, parse);
    ResultSaid(r, stdout, stderr, sentinelId, decoder, limit, parse);
  }
}
