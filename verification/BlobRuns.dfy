/** What every run of the blob receiver keeps, and what a successful push has stored. */
module BlobRuns {
  import opened Bytes
  import opened Text
  import opened BlobCodec
  import opened BlobReceiver

  // ---- Which files an event can touch

  /** The file is as it was, or some session's temporary file before or after. */
  predicate Untouched(w: Worker, w': Worker, path: string) {
    SameFile(w.files, w'.files, path) || IsTmp(w, path) || IsTmp(w', path)
  }

  lemma BeginTouches(w: Worker, req: BeginRequest, path: string)
    ensures Untouched(w, OnBegin(w, req).worker, path)
  {
    if BeginRefusal(req).None? {
      assert NormalizeId(req.requestId).value in OnBegin(w, req).worker.sessions;
    }
  }

  lemma IncomingTouches(w: Worker, data: seq<byte>, path: string)
    ensures Untouched(w, OnIncoming(w, data).worker, path)
  {
    hide Unpack, LooksLikeFrame, NormalizeId;
    var at := Addressed(w, data);
    if at.Some? && path == w.sessions[at.value].tmp {
      assert IsTmp(w, path);
    }
  }

  lemma EndTouches(digest: seq<byte> -> string, w: Worker, requestId: string, sha256: string, path: string)
    ensures var o := OnEnd(digest, w, requestId, sha256);
            Untouched(w, o.worker, path) || (o.reply.Stored? && o.reply.path == path)
  {
    hide NormalizeId;
  }

  /** Only a successful end changes a file that is no session's temporary file, and only its destination. */
  lemma StepTouches(digest: seq<byte> -> string, w: Worker, e: Event, path: string)
    ensures var o := Step(digest, w, e);
            || SameFile(w.files, o.worker.files, path)
            || IsTmp(w, path) || IsTmp(o.worker, path)
            || (e.End? && o.reply.Stored? && o.reply.path == path)
  {
    hide OnBegin, OnIncoming, OnEnd, SameFile, IsTmp;
    match e {
      case Begin(req) => BeginTouches(w, req, path);
      case Incoming(data) => IncomingTouches(w, data, path);
      case End(requestId, sha256) => EndTouches(digest, w, requestId, sha256, path);
      case Disconnect => DisconnectTouches(w, path);
    }
  }

  lemma DisconnectTouches(w: Worker, path: string)
    ensures Untouched(w, OnDisconnect(w).worker, path)
  {
  }

  // ---- What a session has received

  datatype Received = Received(seqNo: int, payload: seq<byte>)

  predicate Opens(e: Event, rid: string) {
    e.Begin? && BeginRefusal(e.req).None? && NormalizeId(e.req.requestId) == Some(rid)
  }

  predicate Carries(e: Event, rid: string) {
    && e.Incoming? && LooksLikeFrame(e.data) && Unpack(e.data).Some?
    && NormalizeId(Unpack(e.data).value.id) == Some(rid)
  }

  /** The frames sent for `rid` since its last begin, whatever the receiver made of them. */
  function SentSince(events: seq<Event>, rid: string): seq<Received> {
    if events == [] then []
    else
      var e, before := events[|events| - 1], SentSince(events[..|events| - 1], rid);
      if Opens(e, rid) then []
      else if Carries(e, rid) then before + [Received(Unpack(e.data).value.seqNo, Unpack(e.data).value.payload)]
      else before
  }

  function Payloads(sent: seq<Received>): seq<seq<byte>> {
    seq(|sent|, i requires 0 <= i < |sent| => sent[i].payload)
  }

  predicate InSequence(sent: seq<Received>) {
    forall k :: 0 <= k < |sent| ==> sent[k].seqNo == k
  }

  /** A live session has taken exactly the frames sent since its begin, numbered from 0, within its size. */
  ghost predicate SessionExact(s: Push, rid: string, sent: seq<Received>) {
    && |rid| == ID_BYTES && s.tmp == TmpPath(s.dest, rid)
    && InSequence(sent)
    && s.nextSeq == |sent|
    && s.hashed == Flatten(Payloads(sent))
    && s.written == |s.hashed|
    && (s.written <= s.expectedSize || sent == [])
  }

  ghost predicate SessionsExact(w: Worker, events: seq<Event>) {
    forall rid :: rid in w.sessions ==> SessionExact(w.sessions[rid], rid, SentSince(events, rid))
  }

  lemma AcceptExact(s: Push, rid: string, sent: seq<Received>, frame: Frame)
    requires SessionExact(s, rid, sent) && frame.seqNo == s.nextSeq
    requires Accept(s, frame.payload).written <= s.expectedSize
    ensures SessionExact(Accept(s, frame.payload), rid, sent + [Received(frame.seqNo, frame.payload)])
  {
    var more := sent + [Received(frame.seqNo, frame.payload)];
    assert Payloads(more) == Payloads(sent) + [frame.payload];
    FlattenConcat(Payloads(sent), [frame.payload]);
    assert Flatten([frame.payload]) == frame.payload;
  }

  lemma StepExact(digest: seq<byte> -> string, w: Worker, events: seq<Event>, e: Event)
    requires SessionsExact(w, events)
    ensures SessionsExact(Step(digest, w, e).worker, events + [e])
  {
    var w' := Step(digest, w, e).worker;
    forall rid | rid in w'.sessions ensures SessionExact(w'.sessions[rid], rid, SentSince(events + [e], rid)) {
      SentSnoc(events, e, rid);
      match e {
        case Begin(req) => BeginExact(w, events, req, rid);
        case Incoming(data) => IncomingExact(w, events, data, rid);
        case End(requestId, sha256) => assert w'.sessions[rid] == w.sessions[rid];
        case Disconnect =>
      }
    }
  }

  /** The frames sent for `rid`, with one more event. */
  function SentAfter(sent: seq<Received>, e: Event, rid: string): seq<Received> {
    if Opens(e, rid) then []
    else if Carries(e, rid) then sent + [Received(Unpack(e.data).value.seqNo, Unpack(e.data).value.payload)]
    else sent
  }

  lemma SentSnoc(events: seq<Event>, e: Event, rid: string)
    ensures SentSince(events + [e], rid) == SentAfter(SentSince(events, rid), e, rid)
  {
    hide Opens, Carries, Unpack;
    assert (events + [e])[..|events|] == events;
  }

  lemma BeginExact(w: Worker, events: seq<Event>, req: BeginRequest, rid: string)
    requires SessionsExact(w, events) && rid in OnBegin(w, req).worker.sessions
    ensures SessionExact(OnBegin(w, req).worker.sessions[rid], rid, SentAfter(SentSince(events, rid), Begin(req), rid))
  {
    hide SentSince;
  }

  lemma IncomingExact(w: Worker, events: seq<Event>, data: seq<byte>, rid: string)
    requires SessionsExact(w, events) && rid in OnIncoming(w, data).worker.sessions
    ensures SessionExact(OnIncoming(w, data).worker.sessions[rid], rid,
                         SentAfter(SentSince(events, rid), Incoming(data), rid))
  {
    hide SentSince, SessionExact, LooksLikeFrame, Unpack, NormalizeId;
    assert rid in w.sessions && SessionExact(w.sessions[rid], rid, SentSince(events, rid));
    if Carries(Incoming(data), rid) {
      assert Unpack(data).value.seqNo == w.sessions[rid].nextSeq;
      AcceptExact(w.sessions[rid], rid, SentSince(events, rid), Unpack(data).value);
    }
  }

  /** In every run, every live session is exact. */
  lemma {:induction false} RunExact(digest: seq<byte> -> string, files: map<string, seq<byte>>, events: seq<Event>)
    ensures SessionsExact(Run(digest, Worker(files, map[]), events), events)
  {
    if events != [] {
      var before, last := events[..|events| - 1], events[|events| - 1];
      RunExact(digest, files, before);
      StepExact(digest, Run(digest, Worker(files, map[]), before), before, last);
      assert before + [last] == events;
    }
  }

  // ---- Runs in which temporary files stay apart

  /**
   A begin whose temporary file no live session uses. Of other sessions than the one it replaces it is
   not the destination either, and its destination is not their temporary file.
   */
  ghost predicate KeepsApart(w: Worker, e: Event) {
    e.Begin? && BeginRefusal(e.req).None? ==>
      var dest, rid := e.req.dest.value, NormalizeId(e.req.requestId).value;
      var tmp := TmpPath(dest, rid);
      forall q :: q in w.sessions ==>
        && w.sessions[q].tmp != tmp
        && (q != rid ==> w.sessions[q].dest != tmp && w.sessions[q].tmp != dest)
  }

  ghost predicate RunKeepsApart(digest: seq<byte> -> string, w: Worker, events: seq<Event>) {
    events == []
    || (var before := events[..|events| - 1];
        RunKeepsApart(digest, w, before) && KeepsApart(Run(digest, w, before), events[|events| - 1]))
  }

  /** Every live session's temporary file is its own and holds what the session has received. */
  ghost predicate TmpsHold(w: Worker) {
    && (forall rid :: rid in w.sessions ==>
          && w.sessions[rid].tmp in w.files
          && w.files[w.sessions[rid].tmp] == w.sessions[rid].hashed
          && w.sessions[rid].tmp != w.sessions[rid].dest)
    && (forall r, q :: r in w.sessions && q in w.sessions && r != q ==>
          && w.sessions[r].tmp != w.sessions[q].tmp
          && w.sessions[r].dest != w.sessions[q].tmp)
  }

  lemma StepTmpsHold(digest: seq<byte> -> string, w: Worker, e: Event)
    requires TmpsHold(w) && KeepsApart(w, e)
    ensures TmpsHold(Step(digest, w, e).worker)
  {
    match e {
      case Begin(req) => BeginTmpsHold(w, req);
      case Incoming(data) => IncomingTmpsHold(w, data);
      case End(requestId, sha256) => EndTmpsHold(digest, w, requestId, sha256);
      case Disconnect =>
    }
  }

  lemma BeginTmpsHold(w: Worker, req: BeginRequest)
    requires TmpsHold(w) && KeepsApart(w, Begin(req))
    ensures TmpsHold(OnBegin(w, req).worker)
  {
    if BeginRefusal(req).None? {
      var tmp, dest := TmpPath(req.dest.value, NormalizeId(req.requestId).value), req.dest.value;
      assert |tmp| > |dest|;
    }
  }

  /** Only a begin that keeps temporary files apart leaves every session its own. */
  lemma BeginTmpsNeed(w: Worker, req: BeginRequest)
    requires TmpsHold(w) && TmpsHold(OnBegin(w, req).worker)
    ensures KeepsApart(w, Begin(req))
  {
    if BeginRefusal(req).None? {
      var rid, w' := NormalizeId(req.requestId).value, OnBegin(w, req).worker;
      var s := w'.sessions[rid];
      assert s.tmp == TmpPath(req.dest.value, rid) && s.dest == req.dest.value && s.tmp in w'.files;
      forall q | q in w.sessions
        ensures w.sessions[q].tmp != s.tmp && (q != rid ==> w.sessions[q].dest != s.tmp && w.sessions[q].tmp != s.dest)
      {
        if q != rid {
          assert q in w'.sessions && w'.sessions[q] == w.sessions[q];
        }
      }
    }
  }

  lemma DropTmpsHold(w: Worker, rid: string)
    requires rid in w.sessions
    requires TmpsHold(w)
    ensures TmpsHold(Drop(w, rid))
  {
  }

  lemma IncomingTmpsHold(w: Worker, data: seq<byte>)
    requires TmpsHold(w)
    ensures TmpsHold(OnIncoming(w, data).worker)
  {
    var at := Addressed(w, data);
    if at.Some? {
      var rid, payload := at.value, Unpack(data).value.payload;
      var s := w.sessions[rid];
      var w' := Worker(WriteTo(w.files, s.tmp, payload), w.sessions[rid := Accept(s, payload)]);
      assert TmpsHold(w');
      DropTmpsHold(w', rid);
      DropTmpsHold(w, rid);
    }
  }

  lemma EndTmpsHold(digest: seq<byte> -> string, w: Worker, requestId: string, sha256: string)
    requires TmpsHold(w)
    ensures TmpsHold(OnEnd(digest, w, requestId, sha256).worker)
  {
    var id := NormalizeId(requestId);
    if id.Some? && id.value in w.sessions {
      DropTmpsHold(w, id.value);
    }
  }

  /** After every event so far, each session's temporary file was its own. */
  ghost predicate HeldThroughout(digest: seq<byte> -> string, w: Worker, events: seq<Event>) {
    TmpsHold(Run(digest, w, events)) && (events == [] || HeldThroughout(digest, w, events[..|events| - 1]))
  }

  /** Temporary files hold what their sessions received throughout a run exactly when every begin keeps them apart. */
  lemma {:induction false} RunTmpsHold(digest: seq<byte> -> string, w: Worker, events: seq<Event>)
    requires TmpsHold(w)
    ensures HeldThroughout(digest, w, events) <==> RunKeepsApart(digest, w, events)
    decreases |events|
  {
    if events != [] {
      var before, last := events[..|events| - 1], events[|events| - 1];
      RunTmpsHold(digest, w, before);
      var mid := Run(digest, w, before);
      if RunKeepsApart(digest, w, events) {
        HeldNow(digest, w, before);
        StepTmpsHold(digest, mid, last);
      } else if HeldThroughout(digest, w, events) && last.Begin? {
        HeldNow(digest, w, before);
        BeginTmpsNeed(mid, last.req);
      }
    }
  }

  lemma HeldNow(digest: seq<byte> -> string, w: Worker, events: seq<Event>)
    requires HeldThroughout(digest, w, events)
    ensures TmpsHold(Run(digest, w, events))
  {
  }

  // ---- What an end stores

  /** What an end makes of a session that holds `content`. */
  ghost predicate EndExact(digest: seq<byte> -> string, w: Worker, rid: string, sha256: string, content: seq<byte>,
                           o: Outcome)
    requires rid in w.sessions
  {
    var s := w.sessions[rid];
    var earlier := if s.append && s.dest in w.files then w.files[s.dest] else [];
    if |content| == s.expectedSize && (sha256 == "" || digest(content) == sha256) then
      && o.reply == Stored(s.dest, |content|)
      && o.worker.files == (w.files - {s.tmp})[s.dest := earlier + content]
    else
      !o.reply.Stored? && o.worker.files == w.files - {s.tmp}
  }

  lemma EndOfSession(digest: seq<byte> -> string, w: Worker, requestId: string, sha256: string, rid: string)
    requires NormalizeId(requestId) == Some(rid) && rid in w.sessions && TmpsHold(w)
    requires w.sessions[rid].written == |w.sessions[rid].hashed|
    ensures EndExact(digest, w, rid, sha256, w.sessions[rid].hashed, OnEnd(digest, w, requestId, sha256))
  {
    var s := w.sessions[rid];
    var content := s.hashed;
    assert [] + content == content;
    if s.append && s.dest in w.files {
      MoveFile(w.files, s.tmp, s.dest, w.files[s.dest] + content);
    } else {
      MoveFile(w.files, s.tmp, s.dest, content);
    }
  }

  lemma MoveFile(files: map<string, seq<byte>>, tmp: string, dest: string, content: seq<byte>)
    requires tmp != dest
    ensures Unlink(files[dest := content], tmp) == Unlink(files, tmp)[dest := content]
  {
  }

  /**
   After any run in which temporary files stay apart, an end succeeds exactly when its session is
   live, the payloads sent since the begin have the declared size and, if a digest was given, that
   digest. The destination then gains exactly these payloads, numbered 0 to n-1, and no other file
   changes except that the temporary one is gone. Otherwise no file but the temporary one changes.
   */
  lemma EndStores(digest: seq<byte> -> string, files: map<string, seq<byte>>, events: seq<Event>,
                  requestId: string, sha256: string, rid: string)
    requires RunKeepsApart(digest, Worker(files, map[]), events) && NormalizeId(requestId) == Some(rid)
    ensures var w := Run(digest, Worker(files, map[]), events);
            var o, sent := OnEnd(digest, w, requestId, sha256), SentSince(events, rid);
            if rid in w.sessions then
              InSequence(sent) && EndExact(digest, w, rid, sha256, Flatten(Payloads(sent)), o)
            else
              o == Outcome(w, Refused(SessionMissing))
  {
    RunExact(digest, files, events);
    RunTmpsHold(digest, Worker(files, map[]), events);
    HeldNow(digest, Worker(files, map[]), events);
    var w := Run(digest, Worker(files, map[]), events);
    if rid in w.sessions {
      assert SessionExact(w.sessions[rid], rid, SentSince(events, rid));
      EndOfSession(digest, w, requestId, sha256, rid);
    }
  }

  // ---- A push begun again before it ended

  /** Only frames of one transfer. */
  predicate FramesOnly(events: seq<Event>) {
    forall i :: 0 <= i < |events| ==> events[i].Incoming?
  }

  /** The sessions left are some of those before, with the temporary files they had. */
  predicate SessionsFrom(w: Worker, w': Worker) {
    forall rid :: rid in w'.sessions ==> rid in w.sessions && w'.sessions[rid].tmp == w.sessions[rid].tmp
  }

  lemma FrameOpensNothing(w: Worker, data: seq<byte>, path: string)
    ensures var w' := OnIncoming(w, data).worker; SessionsFrom(w, w') && (path !in w.files ==> path !in w'.files)
  {
  }

  lemma {:induction false} FramesCreateNothing(digest: seq<byte> -> string, w: Worker, events: seq<Event>, path: string)
    requires FramesOnly(events)
    ensures var w' := Run(digest, w, events); SessionsFrom(w, w') && (path !in w.files ==> path !in w'.files)
    decreases |events|
  {
    if events != [] {
      hide OnIncoming;
      var front, last := events[..|events| - 1], events[|events| - 1];
      FramesCreateNothing(digest, w, front, path);
      FrameOpensNothing(Run(digest, w, front), last.data, path);
    }
  }

  /**
   Beginning a push again for the same id and destination while it is live removes the new temporary
   file with the old one: whatever frames follow, its end fails.
   */
  lemma RestartedPushFails(digest: seq<byte> -> string, w: Worker, req: BeginRequest, events: seq<Event>,
                           requestId: string, sha256: string, rid: string)
    requires BeginRefusal(req).None? && NormalizeId(req.requestId) == Some(rid) && NormalizeId(requestId) == Some(rid)
    requires rid in w.sessions && w.sessions[rid].tmp == TmpPath(req.dest.value, rid)
    requires FramesOnly(events)
    ensures OnEnd(digest, Run(digest, OnBegin(w, req).worker, events), requestId, sha256).reply.Refused?
  {
    FramesCreateNothing(digest, OnBegin(w, req).worker, events, TmpPath(req.dest.value, rid));
  }

  // ---- One transfer

  function Slices(content: seq<byte>, size: nat): (chunks: seq<seq<byte>>)
    requires size > 0
    ensures Flatten(chunks) == content
    ensures forall i :: 0 <= i < |chunks| ==> 0 < |chunks[i]| <= size
    decreases |content|
  {
    if content == [] then []
    else if |content| <= size then [content]
    else [content[..size]] + Slices(content[size..], size)
  }

  /** The next chunk a read of `size` bytes returns, and what is left. */
  lemma SlicesStep(done: seq<seq<byte>>, rest: seq<byte>, size: nat)
    requires size > 0 && rest != []
    ensures var n := if |rest| <= size then |rest| else size;
            done + Slices(rest, size) == done + [rest[..n]] + Slices(rest[n..], size)
  {
    if |rest| <= size {
      assert rest[..|rest|] == rest && rest[|rest|..] == [];
    }
  }

  method PackChunk(requestId: string, seqNo: nat, chunk: seq<byte>) returns (data: Option<seq<byte>>)
    ensures data == Pack(requestId, seqNo, chunk)
    ensures data.Some? <==> NormalizeId(requestId).Some? && seqNo < SEQ_LIMIT
  {
    data := Pack(requestId, seqNo, chunk);
  }

  /**
   The pull loop: reads the file chunk by chunk and packs every chunk with the next number. It raises
   exactly when there is a frame to pack and the id is not ASCII or the numbers run out.
   */
  method PullFrames(requestId: string, content: seq<byte>, size: nat) returns (frames: Option<seq<seq<byte>>>)
    requires size > 0
    ensures frames.Some? ==> FramesOf(requestId, Slices(content, size), frames.value)
    ensures frames.Some? <==> content == [] || (NormalizeId(requestId).Some? && |Slices(content, size)| <= SEQ_LIMIT)
  {
    var packed := [];
    var rest := content;
    ghost var done: seq<seq<byte>> := [];
    while rest != []
      invariant done + Slices(rest, size) == Slices(content, size)
      invariant FramesOf(requestId, done, packed)
      invariant rest == content || (NormalizeId(requestId).Some? && |packed| <= SEQ_LIMIT)
      decreases |rest|
    {
      var n := if |rest| <= size then |rest| else size;
      SlicesStep(done, rest, size);
      assert |done| < |Slices(content, size)|;
      var data := PackChunk(requestId, |packed|, rest[..n]);
      if data.None? {
        return None;
      }
      FramesOfSnoc(requestId, done, packed, rest[..n], data.value);
      packed, rest, done := packed + [data.value], rest[n..], done + [rest[..n]];
    }
    return Some(packed);
  }

  lemma FramesOfSnoc(requestId: string, chunks: seq<seq<byte>>, frames: seq<seq<byte>>, chunk: seq<byte>,
                     data: seq<byte>)
    requires FramesOf(requestId, chunks, frames) && Pack(requestId, |frames|, chunk) == Some(data)
    ensures FramesOf(requestId, chunks + [chunk], frames + [data])
  {
  }

  /** An event that can change the session of `rid`. */
  predicate Concerns(e: Event, rid: string) {
    || Opens(e, rid) || Carries(e, rid) || e.Disconnect?
    || (e.End? && NormalizeId(e.requestId) == Some(rid))
  }

  /** Events among which `plan` marks the arrivals of the transfer's frames; all others are about other sessions. */
  predicate Traffic(events: seq<Event>, plan: seq<Option<nat>>, frames: seq<seq<byte>>, rid: string) {
    && |events| == |plan|
    && forall i :: 0 <= i < |events| ==>
         if plan[i].Some? then plan[i].value < |frames| && events[i] == Incoming(frames[plan[i].value])
         else !Concerns(events[i], rid)
  }

  /** Which frames arrive, in the order of arrival. */
  function Arrivals(plan: seq<Option<nat>>): seq<nat> {
    if plan == [] then []
    else Arrivals(plan[..|plan| - 1]) + (if plan[|plan| - 1].Some? then [plan[|plan| - 1].value] else [])
  }

  /** Nothing but frames of the transfer arrives. */
  predicate Alone(plan: seq<Option<nat>>) {
    forall i :: 0 <= i < |plan| ==> plan[i].Some?
  }

  lemma OthersKeep(digest: seq<byte> -> string, w: Worker, e: Event, rid: string)
    requires !Concerns(e, rid)
    ensures var w' := Step(digest, w, e).worker;
            (rid in w'.sessions <==> rid in w.sessions) && (rid in w.sessions ==> w'.sessions[rid] == w.sessions[rid])
  {
  }

  predicate InOrder(order: seq<nat>) {
    forall i :: 0 <= i < |order| ==> order[i] == i
  }

  ghost predicate FramesOf(requestId: string, chunks: seq<seq<byte>>, frames: seq<seq<byte>>) {
    && |frames| == |chunks|
    && forall k :: 0 <= k < |frames| ==> Pack(requestId, k, chunks[k]) == Some(frames[k])
  }

  /** One frame of the transfer arrives at its session. */
  lemma FrameArrives(w: Worker, requestId: string, rid: string, k: nat, chunk: seq<byte>, data: seq<byte>)
    requires NormalizeId(requestId) == Some(rid) && AllHex(rid) && Pack(requestId, k, chunk) == Some(data)
    ensures Unpack(data) == Some(BlobCodec.Frame(rid, k, chunk))
    ensures Addressed(w, data) == if rid in w.sessions then Some(rid) else None
  {
    UnpackInvertsPack(requestId, k, chunk);
    NormalizeStable(requestId);
  }

  lemma ChunkSum(chunks: seq<seq<byte>>, k: nat)
    requires k < |chunks|
    ensures Flatten(chunks[..k + 1]) == Flatten(chunks[..k]) + chunks[k]
    ensures |Flatten(chunks[..k + 1])| <= |Flatten(chunks)|
  {
    assert chunks[..k + 1] == chunks[..k] + [chunks[k]];
    FlattenConcat(chunks[..k], [chunks[k]]);
    assert Flatten([chunks[k]]) == chunks[k];
    assert chunks == chunks[..k + 1] + chunks[k + 1..];
    FlattenConcat(chunks[..k + 1], chunks[k + 1..]);
  }

  /** The session `fresh` after it has taken the first `k` chunks. */
  function AfterChunks(start: Push, chunks: seq<seq<byte>>, k: nat): Push
    requires k <= |chunks|
  {
    start.(hashed := Flatten(chunks[..k]), nextSeq := k, written := |Flatten(chunks[..k])|)
  }

  /** The `last` frame arrives: it is taken if it is the next one, and ends the session otherwise. */
  lemma DeliverOne(w: Worker, requestId: string, rid: string, start: Push, chunks: seq<seq<byte>>, k: nat,
                   last: nat, data: seq<byte>)
    requires NormalizeId(requestId) == Some(rid) && AllHex(rid) && last < |chunks| && k <= |chunks|
    requires Pack(requestId, last, chunks[last]) == Some(data)
    requires rid in w.sessions && w.sessions[rid] == AfterChunks(start, chunks, k)
    requires start.expectedSize == |Flatten(chunks)|
    ensures var w' := OnIncoming(w, data).worker;
            if last == k then rid in w'.sessions && w'.sessions[rid] == AfterChunks(start, chunks, k + 1)
            else rid !in w'.sessions
  {
    FrameArrives(w, requestId, rid, last, chunks[last], data);
    if last == k {
      ChunkSum(chunks, k);
    }
  }

  /** A transfer that has been opened and has received nothing. */
  ghost predicate Fresh(w: Worker, rid: string, chunks: seq<seq<byte>>) {
    && rid in w.sessions && TmpsHold(w)
    && w.sessions[rid].expectedSize == |Flatten(chunks)|
    && w.sessions[rid] == AfterChunks(w.sessions[rid], chunks, 0)
  }

  /** Where a transfer stands after some arrivals: the session is live exactly while they came in order. */
  ghost predicate Stands(w: Worker, rid: string, chunks: seq<seq<byte>>, order: seq<nat>, w': Worker) {
    && TmpsHold(w')
    && (rid in w'.sessions <==> InOrder(order))
    && (rid in w'.sessions ==>
          && rid in w.sessions && |order| <= |chunks|
          && w'.sessions[rid] == AfterChunks(w.sessions[rid], chunks, |order|))
  }

  lemma TransferStep(w: Worker, requestId: string, rid: string, chunks: seq<seq<byte>>, order: seq<nat>,
                     mid: Worker, last: nat, data: seq<byte>)
    requires NormalizeId(requestId) == Some(rid) && AllHex(rid) && Fresh(w, rid, chunks)
    requires Stands(w, rid, chunks, order, mid)
    requires last < |chunks| && Pack(requestId, last, chunks[last]) == Some(data)
    ensures Stands(w, rid, chunks, order + [last], OnIncoming(mid, data).worker)
  {
    hide OnIncoming, NormalizeId, Pack, TmpsHold, AfterChunks, InOrder;
    IncomingTmpsHold(mid, data);
    OrderSnoc(order, last);
    if rid in mid.sessions {
      DeliverOne(mid, requestId, rid, w.sessions[rid], chunks, |order|, last, data);
    } else {
      FrameArrives(mid, requestId, rid, last, chunks[last], data);
      UnknownFrame(mid, data);
    }
  }

  lemma UnknownFrame(w: Worker, data: seq<byte>)
    requires Addressed(w, data).None?
    ensures OnIncoming(w, data).worker == w
  {
  }

  lemma OrderSnoc(order: seq<nat>, last: nat)
    ensures InOrder(order + [last]) <==> InOrder(order) && last == |order|
  {
    var longer := order + [last];
    assert longer[|order|] == last && forall i :: 0 <= i < |order| ==> longer[i] == order[i];
  }

  /** One more event: a frame of the transfer, or something about another session. */
  lemma TrafficStep(digest: seq<byte> -> string, w: Worker, requestId: string, rid: string, chunks: seq<seq<byte>>,
                    frames: seq<seq<byte>>, order: seq<nat>, mid: Worker, e: Event, arrival: Option<nat>)
    requires NormalizeId(requestId) == Some(rid) && AllHex(rid) && FramesOf(requestId, chunks, frames)
    requires Fresh(w, rid, chunks) && Stands(w, rid, chunks, order, mid) && KeepsApart(mid, e)
    requires Traffic([e], [arrival], frames, rid)
    ensures Stands(w, rid, chunks, order + (if arrival.Some? then [arrival.value] else []), Step(digest, mid, e).worker)
  {
    if arrival.Some? {
      assert e == Incoming(frames[arrival.value]) by { assert [e][0] == e && [arrival][0] == arrival; }
      TransferStep(w, requestId, rid, chunks, order, mid, arrival.value, frames[arrival.value]);
    } else {
      assert !Concerns(e, rid) by { assert [e][0] == e && [arrival][0] == arrival; }
      OthersKeep(digest, mid, e, rid);
      StepTmpsHold(digest, mid, e);
      assert order + [] == order;
    }
  }

  lemma TrafficSplit(events: seq<Event>, plan: seq<Option<nat>>, frames: seq<seq<byte>>, rid: string)
    requires Traffic(events, plan, frames, rid) && events != []
    ensures Traffic(events[..|events| - 1], plan[..|plan| - 1], frames, rid)
    ensures Traffic([events[|events| - 1]], [plan[|plan| - 1]], frames, rid)
  {
  }

  /** Whichever frames arrive in whatever order, with any traffic of other sessions in between. */
  lemma {:induction false} TransferProgress(digest: seq<byte> -> string, w: Worker, requestId: string, rid: string,
                                            chunks: seq<seq<byte>>, frames: seq<seq<byte>>,
                                            events: seq<Event>, plan: seq<Option<nat>>)
    requires NormalizeId(requestId) == Some(rid) && AllHex(rid) && FramesOf(requestId, chunks, frames)
    requires Fresh(w, rid, chunks) && Traffic(events, plan, frames, rid) && RunKeepsApart(digest, w, events)
    ensures Stands(w, rid, chunks, Arrivals(plan), Run(digest, w, events))
    decreases |events|
  {
    if events == [] {
      assert Arrivals(plan) == [];
    } else {
      var n := |events| - 1;
      TrafficSplit(events, plan, frames, rid);
      TransferProgress(digest, w, requestId, rid, chunks, frames, events[..n], plan[..n]);
      TrafficStep(digest, w, requestId, rid, chunks, frames, Arrivals(plan[..n]), Run(digest, w, events[..n]),
                  events[n], plan[n]);
    }
  }

  /** Frames alone change no destination. */
  lemma {:induction false} AloneKeepsFile(digest: seq<byte> -> string, w: Worker, events: seq<Event>, rid: string)
    requires TmpsHold(w) && rid in w.sessions && FramesOnly(events)
    ensures SameFile(w.files, Run(digest, w, events).files, w.sessions[rid].dest)
    decreases |events|
  {
    if events != [] {
      var front, last, dest := events[..|events| - 1], events[|events| - 1], w.sessions[rid].dest;
      AloneKeepsFile(digest, w, front, rid);
      StepTouches(digest, Run(digest, w, front), last, dest);
      assert !IsTmp(w, dest);
      FramesCreateNothing(digest, w, front, dest);
      FramesCreateNothing(digest, w, events, dest);
      NoTmpFrom(w, Run(digest, w, front), dest);
      NoTmpFrom(w, Run(digest, w, events), dest);
      hide IsTmp, SessionsFrom, Step;
      assert Run(digest, w, events) == Step(digest, Run(digest, w, front), last).worker;
    }
  }

  lemma NoTmpFrom(w: Worker, w': Worker, path: string)
    requires SessionsFrom(w, w') && !IsTmp(w, path)
    ensures !IsTmp(w', path)
  {
  }

  /** In-order arrivals are all of them exactly when no byte is missing. */
  lemma AllArrived(chunks: seq<seq<byte>>, n: nat)
    requires n <= |chunks| && forall i :: 0 <= i < |chunks| ==> chunks[i] != []
    ensures |Flatten(chunks[..n])| == |Flatten(chunks)| <==> n == |chunks|
  {
    assert chunks == chunks[..n] + chunks[n..];
    FlattenConcat(chunks[..n], chunks[n..]);
    if n < |chunks| {
      assert Flatten(chunks[n..]) == chunks[n] + Flatten(chunks[n..][1..]);
    } else {
      assert chunks[..n] == chunks;
    }
  }

  /**
   A file sent in frames, among any traffic of other sessions, is stored if and only if every frame
   arrives exactly once and in order: a dropped, repeated or reordered frame makes the end fail. What
   is stored is the file, behind what the destination held before if it is appended.
   */
  lemma TransferExact(digest: seq<byte> -> string, w: Worker, requestId: string, rid: string, content: seq<byte>,
                      size: nat, frames: seq<seq<byte>>, events: seq<Event>, plan: seq<Option<nat>>, sha256: string)
    requires NormalizeId(requestId) == Some(rid) && AllHex(rid) && size > 0
    requires FramesOf(requestId, Slices(content, size), frames) && Fresh(w, rid, Slices(content, size))
    requires Traffic(events, plan, frames, rid) && RunKeepsApart(digest, w, events)
    requires sha256 == "" || sha256 == digest(content)
    ensures var w', order := Run(digest, w, events), Arrivals(plan);
            var o, s := OnEnd(digest, w', requestId, sha256), w.sessions[rid];
            && (o.reply.Stored? <==> InOrder(order) && |order| == |frames|)
            && (o.reply.Stored? ==>
                  var earlier := if s.append && s.dest in w'.files then w'.files[s.dest] else [];
                  s.dest in o.worker.files && o.worker.files[s.dest] == earlier + content)
            && (Alone(plan) ==> SameFile(w.files, w'.files, s.dest))
  {
    hide Run, RunKeepsApart, OnEnd, TmpsHold, NormalizeId;
    var chunks, order := Slices(content, size), Arrivals(plan);
    TransferProgress(digest, w, requestId, rid, chunks, frames, events, plan);
    var w' := Run(digest, w, events);
    if Alone(plan) {
      forall i | 0 <= i < |events| ensures events[i].Incoming? { assert plan[i].Some?; }
      AloneKeepsFile(digest, w, events, rid);
    }
    if rid in w'.sessions {
      EndOfSession(digest, w', requestId, sha256, rid);
      AllArrived(chunks, |order|);
      assert |order| == |chunks| ==> chunks[..|order|] == chunks;
    } else {
      NoSession(digest, w', requestId, sha256, rid);
    }
  }

  lemma NoSession(digest: seq<byte> -> string, w: Worker, requestId: string, sha256: string, rid: string)
    requires NormalizeId(requestId) == Some(rid) && rid !in w.sessions
    ensures OnEnd(digest, w, requestId, sha256).reply == Refused(SessionMissing)
  {
  }

  /** A begin opens such a transfer if and only if it keeps temporary files apart. */
  lemma BeginIsFresh(w: Worker, req: BeginRequest, rid: string, content: seq<byte>, size: nat)
    requires TmpsHold(w) && size > 0
    requires BeginRefusal(req).None? && NormalizeId(req.requestId) == Some(rid) && req.size == |content|
    ensures Fresh(OnBegin(w, req).worker, rid, Slices(content, size)) <==> KeepsApart(w, Begin(req))
  {
    if KeepsApart(w, Begin(req)) {
      BeginTmpsHold(w, req);
    } else if TmpsHold(OnBegin(w, req).worker) {
      BeginTmpsNeed(w, req);
    }
  }
}
