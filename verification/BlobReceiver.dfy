/**
 The worker's side of a blob push: a begin opens a session with a temporary file, frames append to
 it in sequence, an end checks size and digest and moves the file to its destination.

 Files are modelled by name. A handle whose name was unlinked writes nowhere, which is exact as long
 as no two live sessions share a temporary file.
 */
module BlobReceiver {
  import opened Bytes
  import opened Text
  import opened BlobCodec

  const STREAM_MAX_BYTES: int := 1024 * 1024 * 1024

  datatype Push = Push(requestId: string, dest: string, tmp: string, expectedSize: int, append: bool,
                       hashed: seq<byte>, nextSeq: nat, written: nat)

  datatype Worker = Worker(files: map<string, seq<byte>>, sessions: map<string, Push>)

  datatype BeginRequest = BeginRequest(requestId: string, workspaceOpen: bool, dest: Option<string>, size: int,
                                       maxBytes: int, append: bool)

  datatype Event =
    | Begin(req: BeginRequest)
    | Incoming(data: seq<byte>)
    | End(requestId: string, sha256: string)
    | Disconnect

  datatype Error =
    | IdNotAscii | WorkspaceNotOpen | FileTooLarge | PathRefused
    | SeqGap(expected: nat, got: int) | SizeExceeded
    | SessionMissing | DigestMismatch | SizeMismatch | FileMissing

  /** What the worker sends back, if anything. */
  datatype Reply = Silent | Ready | Stored(path: string, bytesWritten: nat) | Refused(error: Error)

  datatype Outcome = Outcome(worker: Worker, reply: Reply)

  function Unlink(files: map<string, seq<byte>>, path: string): map<string, seq<byte>> {
    files - {path}
  }

  function TmpPath(dest: string, rid: string): string
    requires |rid| >= 8
  {
    dest + "." + rid[..8] + ".part"
  }

  /** The request's limit: at least one byte, at most the protocol's. */
  function SizeLimit(maxBytes: int): int {
    var asked := if maxBytes == 0 then STREAM_MAX_BYTES else maxBytes;
    var positive := if asked < 1 then 1 else asked;
    if positive < STREAM_MAX_BYTES then positive else STREAM_MAX_BYTES
  }

  function BeginRefusal(req: BeginRequest): Option<Error> {
    if NormalizeId(req.requestId).None? then Some(IdNotAscii)
    else if !req.workspaceOpen then Some(WorkspaceNotOpen)
    else if req.size > SizeLimit(req.maxBytes) then Some(FileTooLarge)
    else if req.dest.None? then Some(PathRefused)
    else None
  }

  function OnBegin(w: Worker, req: BeginRequest): Outcome {
    var refusal := BeginRefusal(req);
    if refusal.Some? then Outcome(w, Refused(refusal.value))
    else
      var rid, dest := NormalizeId(req.requestId).value, req.dest.value;
      var tmp := TmpPath(dest, rid);
      var created := w.files[tmp := []];
      var files := if rid in w.sessions then Unlink(created, w.sessions[rid].tmp) else created;
      Outcome(Worker(files, w.sessions[rid := Push(req.requestId, dest, tmp, req.size, req.append, [], 0, 0)]), Ready)
  }

  /** The session a frame belongs to: recognised, unpacked, its id normalised once more. */
  function Addressed(w: Worker, data: seq<byte>): Option<string> {
    if !LooksLikeFrame(data) || Unpack(data).None? then None
    else
      var rid := NormalizeId(Unpack(data).value.id);
      if rid.Some? && rid.value in w.sessions then rid else None
  }

  function Drop(w: Worker, rid: string): Worker
    requires rid in w.sessions
  {
    Worker(Unlink(w.files, w.sessions[rid].tmp), w.sessions - {rid})
  }

  /** The session after one more accepted payload. */
  function Accept(s: Push, payload: seq<byte>): Push {
    s.(hashed := s.hashed + payload, nextSeq := s.nextSeq + 1, written := s.written + |payload|)
  }

  function WriteTo(files: map<string, seq<byte>>, path: string, payload: seq<byte>): map<string, seq<byte>> {
    if path in files then files[path := files[path] + payload] else files
  }

  function OnIncoming(w: Worker, data: seq<byte>): Outcome {
    var at := Addressed(w, data);
    if at.None? then Outcome(w, Silent)
    else
      var rid, frame := at.value, Unpack(data).value;
      var s := w.sessions[rid];
      if frame.seqNo != s.nextSeq then Outcome(Drop(w, rid), Refused(SeqGap(s.nextSeq, frame.seqNo)))
      else
        var s' := Accept(s, frame.payload);
        var w' := Worker(WriteTo(w.files, s.tmp, frame.payload), w.sessions[rid := s']);
        if s'.written > s.expectedSize then Outcome(Drop(w', rid), Refused(SizeExceeded)) else Outcome(w', Silent)
  }

  function OnEnd(digest: seq<byte> -> string, w: Worker, requestId: string, sha256: string): Outcome {
    var id := NormalizeId(requestId);
    if id.None? then Outcome(w, Refused(IdNotAscii))
    else if id.value !in w.sessions then Outcome(w, Refused(SessionMissing))
    else
      var s := w.sessions[id.value];
      var dropped := Drop(w, id.value);
      if sha256 != "" && digest(s.hashed) != sha256 then Outcome(dropped, Refused(DigestMismatch))
      else if s.written != s.expectedSize then Outcome(dropped, Refused(SizeMismatch))
      else if s.tmp !in w.files then Outcome(dropped, Refused(FileMissing))
      else
        var content := if s.append && s.dest in w.files then w.files[s.dest] + w.files[s.tmp] else w.files[s.tmp];
        Outcome(Worker(Unlink(w.files[s.dest := content], s.tmp), dropped.sessions), Stored(s.dest, s.written))
  }

  function OnDisconnect(w: Worker): Outcome {
    Outcome(Worker(w.files - (set rid | rid in w.sessions :: w.sessions[rid].tmp), map[]), Silent)
  }

  function Step(digest: seq<byte> -> string, w: Worker, e: Event): Outcome {
    match e
    case Begin(req) => OnBegin(w, req)
    case Incoming(data) => OnIncoming(w, data)
    case End(requestId, sha256) => OnEnd(digest, w, requestId, sha256)
    case Disconnect => OnDisconnect(w)
  }

  function Run(digest: seq<byte> -> string, w: Worker, events: seq<Event>): Worker {
    if events == [] then w
    else Step(digest, Run(digest, w, events[..|events| - 1]), events[|events| - 1]).worker
  }

  // ---- What each message comes to

  /** The path holds the same in both, or nothing in both. */
  predicate SameFile(f: map<string, seq<byte>>, g: map<string, seq<byte>>, path: string) {
    (path in f <==> path in g) && (path in f ==> f[path] == g[path])
  }

  predicate IsTmp(w: Worker, path: string) {
    exists rid :: rid in w.sessions && w.sessions[rid].tmp == path
  }

  /** The size is within the limit asked for, which is 1 GiB at most and by default, and 1 byte at least. */
  ghost predicate WithinLimit(size: int, maxBytes: int) {
    size <= 1 || (size <= 1073741824 && (maxBytes == 0 || size <= maxBytes))
  }

  /** A begin is refused for the first reason that applies, and otherwise replaces any session of its id. */
  ghost predicate Begun(w: Worker, req: BeginRequest, o: Outcome) {
    if NormalizeId(req.requestId).None? then o == Outcome(w, Refused(IdNotAscii))
    else if !req.workspaceOpen then o == Outcome(w, Refused(WorkspaceNotOpen))
    else if !WithinLimit(req.size, req.maxBytes) then o == Outcome(w, Refused(FileTooLarge))
    else if req.dest.None? then o == Outcome(w, Refused(PathRefused))
    else
      var rid, dest := NormalizeId(req.requestId).value, req.dest.value;
      var tmp := dest + "." + rid[..8] + ".part";
      && o.reply == Ready
      && o.worker.sessions == w.sessions[rid := Push(req.requestId, dest, tmp, req.size, req.append, [], 0, 0)]
      && forall path ::
           if rid in w.sessions && path == w.sessions[rid].tmp then path !in o.worker.files
           else if path == tmp then path in o.worker.files && o.worker.files[path] == []
           else SameFile(w.files, o.worker.files, path)
  }

  lemma BeginOutcome(w: Worker, req: BeginRequest)
    ensures Begun(w, req, OnBegin(w, req))
  {
    hide NormalizeId;
  }

  /** The session and its temporary file are gone, and nothing else is. */
  ghost predicate SessionGone(w: Worker, w': Worker, rid: string)
    requires rid in w.sessions
  {
    && w'.sessions == w.sessions - {rid}
    && forall path :: if path == w.sessions[rid].tmp then path !in w'.files else SameFile(w.files, w'.files, path)
  }

  /** The payload is behind what the session and its temporary file held. */
  ghost predicate Appended(w: Worker, w': Worker, rid: string, payload: seq<byte>)
    requires rid in w.sessions
  {
    var s := w.sessions[rid];
    && w'.sessions == w.sessions[rid := s.(hashed := s.hashed + payload, nextSeq := s.nextSeq + 1,
                                           written := s.written + |payload|)]
    && forall path ::
         if path == s.tmp && path in w.files then path in w'.files && w'.files[path] == w.files[path] + payload
         else SameFile(w.files, w'.files, path)
  }

  /** A frame for no session is ignored; one out of order or beyond the size ends its session; others are appended. */
  ghost predicate Taken(w: Worker, data: seq<byte>, o: Outcome) {
    var known := LooksLikeFrame(data) && Unpack(data).Some? && NormalizeId(Unpack(data).value.id).Some?;
    if !known || NormalizeId(Unpack(data).value.id).value !in w.sessions then o == Outcome(w, Silent)
    else
      var rid, frame := NormalizeId(Unpack(data).value.id).value, Unpack(data).value;
      var s := w.sessions[rid];
      if frame.seqNo != s.nextSeq then
        o.reply == Refused(SeqGap(s.nextSeq, frame.seqNo)) && SessionGone(w, o.worker, rid)
      else if s.written + |frame.payload| > s.expectedSize then
        o.reply == Refused(SizeExceeded) && SessionGone(w, o.worker, rid)
      else o.reply == Silent && Appended(w, o.worker, rid, frame.payload)
  }

  lemma IncomingOutcome(w: Worker, data: seq<byte>)
    ensures Taken(w, data, OnIncoming(w, data))
  {
    hide NormalizeId, LooksLikeFrame, Unpack;
  }

  /**
   An end checks the digest, if one is given, the size and the file, in this order; the session goes
   either way, and its file goes to the destination or away.
   */
  ghost predicate EndedPush(digest: seq<byte> -> string, w: Worker, requestId: string, sha256: string, o: Outcome) {
    var id := NormalizeId(requestId);
    if id.None? then o == Outcome(w, Refused(IdNotAscii))
    else if id.value !in w.sessions then o == Outcome(w, Refused(SessionMissing))
    else
      var s := w.sessions[id.value];
      if sha256 != "" && digest(s.hashed) != sha256 then
        o.reply == Refused(DigestMismatch) && SessionGone(w, o.worker, id.value)
      else if s.written != s.expectedSize then o.reply == Refused(SizeMismatch) && SessionGone(w, o.worker, id.value)
      else if s.tmp !in w.files then o.reply == Refused(FileMissing) && SessionGone(w, o.worker, id.value)
      else
        && o.reply == Stored(s.dest, s.written) && o.worker.sessions == w.sessions - {id.value}
        && forall path ::
             if path == s.tmp then path !in o.worker.files
             else if path == s.dest then
               && path in o.worker.files
               && o.worker.files[path]
                  == (if s.append && s.dest in w.files then w.files[s.dest] else []) + w.files[s.tmp]
             else SameFile(w.files, o.worker.files, path)
  }

  lemma EndOutcome(digest: seq<byte> -> string, w: Worker, requestId: string, sha256: string)
    ensures EndedPush(digest, w, requestId, sha256, OnEnd(digest, w, requestId, sha256))
  {
    hide NormalizeId;
    var id := NormalizeId(requestId);
    if id.Some? && id.value in w.sessions && w.sessions[id.value].tmp in w.files {
      var content := w.files[w.sessions[id.value].tmp];
      assert [] + content == content;
    }
  }

  /** No session is left, no session's temporary file, and every other file is as it was. */
  ghost predicate AllAborted(w: Worker, w': Worker) {
    && w'.sessions == map[]
    && forall path ::
         if IsTmp(w, path) then path !in w'.files
         else SameFile(w.files, w'.files, path)
  }

  lemma DisconnectOutcome(w: Worker)
    ensures AllAborted(w, OnDisconnect(w).worker)
  {
  }

  // ---- The worker object

  class RemoteWorkerClient {
    const digest: seq<byte> -> string
    var files: map<string, seq<byte>>
    var pushSessions: map<string, Push>

    function State(): Worker
      reads this
    {
      Worker(files, pushSessions)
    }

    constructor (digest: seq<byte> -> string, files: map<string, seq<byte>>)
      ensures this.digest == digest && State() == Worker(files, map[])
    {
      this.digest, this.files, pushSessions := digest, files, map[];
    }

    method BlobPushBegin(req: BeginRequest) returns (reply: Reply)
      modifies this
      ensures Outcome(State(), reply) == OnBegin(old(State()), req)
      ensures Begun(old(State()), req, Outcome(State(), reply))
    {
      hide Begun;
      BeginOutcome(State(), req);
      var id := NormalizeId(req.requestId);
      if id.None? {
        return Refused(IdNotAscii);
      }
      var rid := id.value;
      if !req.workspaceOpen {
        return Refused(WorkspaceNotOpen);
      }
      if req.size > SizeLimit(req.maxBytes) {
        return Refused(FileTooLarge);
      }
      if req.dest.None? {
        return Refused(PathRefused);
      }
      var dest := req.dest.value;
      var tmp := TmpPath(dest, rid);
      files := files[tmp := []];
      if rid in pushSessions {
        var stale := pushSessions[rid];
        pushSessions := pushSessions - {rid};
        files := Unlink(files, stale.tmp);
      }
      pushSessions := pushSessions[rid := Push(req.requestId, dest, tmp, req.size, req.append, [], 0, 0)];
      assert pushSessions == old(pushSessions)[rid := Push(req.requestId, dest, tmp, req.size, req.append, [], 0, 0)];
      return Ready;
    }

    /** Closes and forgets a session and removes its temporary file. */
    method DropSession(rid: string)
      requires rid in pushSessions
      modifies this
      ensures State() == Drop(old(State()), rid)
    {
      files := Unlink(files, pushSessions[rid].tmp);
      pushSessions := pushSessions - {rid};
    }

    method HandleBinary(data: seq<byte>) returns (reply: Reply)
      modifies this
      ensures Outcome(State(), reply) == OnIncoming(old(State()), data)
      ensures Taken(old(State()), data, Outcome(State(), reply))
    {
      hide Taken;
      IncomingOutcome(State(), data);
      var at := Addressed(State(), data);
      if at.None? {
        return Silent;
      }
      var rid, frame := at.value, Unpack(data).value;
      var session := pushSessions[rid];
      if frame.seqNo != session.nextSeq {
        DropSession(rid);
        return Refused(SeqGap(session.nextSeq, frame.seqNo));
      }
      files := WriteTo(files, session.tmp, frame.payload);
      session := Accept(session, frame.payload);
      pushSessions := pushSessions[rid := session];
      if session.written > session.expectedSize {
        DropSession(rid);
        return Refused(SizeExceeded);
      }
      return Silent;
    }

    method BlobPushEnd(requestId: string, sha256: string) returns (reply: Reply)
      modifies this
      ensures Outcome(State(), reply) == OnEnd(digest, old(State()), requestId, sha256)
      ensures EndedPush(digest, old(State()), requestId, sha256, Outcome(State(), reply))
    {
      hide EndedPush;
      EndOutcome(digest, State(), requestId, sha256);
      var id := NormalizeId(requestId);
      if id.None? {
        return Refused(IdNotAscii);
      }
      if id.value !in pushSessions {
        return Refused(SessionMissing);
      }
      var session := pushSessions[id.value];
      pushSessions := pushSessions - {id.value};
      if sha256 != "" && digest(session.hashed) != sha256 {
        files := Unlink(files, session.tmp);
        return Refused(DigestMismatch);
      }
      if session.written != session.expectedSize {
        files := Unlink(files, session.tmp);
        return Refused(SizeMismatch);
      }
      if session.tmp !in files {
        files := Unlink(files, session.tmp);
        return Refused(FileMissing);
      }
      if session.append && session.dest in files {
        files := files[session.dest := files[session.dest] + files[session.tmp]];
      } else {
        files := files[session.dest := files[session.tmp]];
      }
      files := Unlink(files, session.tmp);
      return Stored(session.dest, session.written);
    }

    /** The connection is gone: every session and its temporary file go too. */
    method AbortPushSessions()
      modifies this
      ensures State() == OnDisconnect(old(State())).worker
      ensures AllAborted(old(State()), State())
    {
      DisconnectOutcome(State());
      var open := pushSessions.Keys;
      ghost var removed: set<string> := {};
      while open != {}
        invariant open <= pushSessions.Keys && pushSessions == old(pushSessions)
        invariant removed == set rid | rid in pushSessions && rid !in open :: pushSessions[rid].tmp
        invariant files == old(files) - removed
        decreases open
      {
        var rid :| rid in open;
        files := Unlink(files, pushSessions[rid].tmp);
        open := open - {rid};
        removed := removed + {pushSessions[rid].tmp};
      }
      pushSessions := map[];
    }
  }
}
