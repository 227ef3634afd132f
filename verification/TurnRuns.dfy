/**
 What the loop of an agent turn does, step by step, and what every run of it keeps.

 Everything the loop does not decide itself comes from an `Environment`, whose functions are
 arbitrary; what is proved of a turn is proved for every environment. A loop that is left by an
 exception or a cancellation rolls the message list back; one whose generator is closed does not.
 */
module TurnRuns {
  import opened Text
  import opened Conversation
  import opened Loader
  import opened Clearing
  import opened TurnPairing

  datatype Status = Completed | Fallback | Overflow | Error

  /** What the loop yields to the kernel. */
  datatype Action = ContextOverflow | ToolCall(id: Option<string>) | Return(status: Status)

  datatype LlmOutcome =
    | Replied(content: string, calls: seq<Option<string>>)
    | ContextTooLong
    | Failed

  /** How an await or a yield ends: normally, by an exception raised there, or by closing the generator. */
  datatype Fate = Proceeds | Raises | Closes

  datatype Environment = Environment(
    externalRows: seq<(bool, string)>,                    // rows other terminals added: from the user?, text
    llm: nat -> LlmOutcome,                               // the outcome of the n-th model call
    lacksReasoning: nat -> bool,                          // its tool calls come without the reasoning they need
    synthesises: nat -> bool,                             // ... but an empty reasoning may be filled in
    overTokenLimit: nat -> bool,                          // a sub-agent's token limit is reached after it
    windowFull: nat -> bool,                              // the n-th iteration finds the context over threshold
    compressionFate: nat -> Fate,                         // how the kernel's compression there ends
    compressed: (nat, seq<Message>) -> seq<Message>,      // any list the kernel may leave behind
    toolFate: (nat, nat) -> Fate,                         // how the k-th tool call of an iteration ends
    toolText: (nat, nat) -> string,
    finalRaises: nat -> bool,                             // recording a final answer fails
    goalOpen: nat -> bool,                                // goals are active, enabled and not suppressed
    restored: nat -> string)                              // contents of messages shrunk before a rollback

  datatype Reply =
    | Answer(content: string, calls: seq<Option<string>>, call: nat)
    | Incomplete
    | Raised

  datatype Step = Again | Returned(status: Status) | Failure | Closed(betweenResults: bool)

  const RETRY_LIMIT: nat := 1

  datatype Limits = Limits(
    maxIterations: int,
    nudgeLimit: int,
    maxResultTokens: int,
    keepRecent: int,
    minTokens: int,
    pathOf: string -> string)
  {
    function Iterations(): nat {
      if maxIterations > 0 then maxIterations else 0
    }
  }

  predicate NoReturn(actions: seq<Action>) {
    forall a :: a in actions ==> !a.Return?
  }

  /** `now` continues `was` without returning. */
  ghost predicate Extends(was: seq<Action>, now: seq<Action>) {
    was <= now && NoReturn(now[|was|..])
  }

  /** `now` continues `was` and ends with its only new return. */
  ghost predicate EndsWithReturn(was: seq<Action>, now: seq<Action>, status: Status) {
    && now != [] && now[|now| - 1] == Return(status)
    && Extends(was, now[..|now| - 1])
  }

  /** The messages of `ms` with the contents their shared objects hold by now. */
  function Reread(ms: seq<Message>, contents: nat -> string): seq<Message> {
    seq(|ms|, i requires 0 <= i < |ms| => if ms[i].role.Tool? then ms[i].(content := contents(i)) else ms[i])
  }

  function RowMessage(row: (bool, string)): Message {
    Message(if row.0 then User else Assistant, NoCalls, None, row.1)
  }

  function Rows(rows: seq<(bool, string)>): seq<Message> {
    seq(|rows|, i requires 0 <= i < |rows| => RowMessage(rows[i]))
  }

  const GOAL_CHECK: Message := Message(User, NoCalls, None, "goal check")

  function FinalAnswer(content: string): Message {
    Message(Assistant, NoCalls, None, content)
  }

  function UserText(text: string): Message {
    Message(User, NoCalls, None, text)
  }

  /** A repaired history still has every call answered once the user has spoken. */
  lemma OpensAnswered(ms: seq<Message>, text: string)
    ensures AllAnswered(Repair(ms) + [UserText(text)])
  {
    RepairFixpoint(ms);
    AppendPlain(Repair(ms), UserText(text));
  }

  function ToolText(env: Environment, call: nat): nat -> string {
    (k: nat) => env.toolText(call, k)
  }

  /** The tool calls of a reply end as the first one that does not proceed says, after the results before it. */
  ghost predicate ToolsRun(env: Environment, reply: Reply, was: seq<Message>, now: seq<Message>, fate: Fate)
    requires reply.Answer?
  {
    exists n: nat ::
      && n <= |reply.calls|
      && now == was + [CallerFor(reply.content, reply.calls)] + Results(reply.calls, ToolText(env, reply.call), n)
      && (forall k :: 0 <= k < n ==> env.toolFate(reply.call, k).Proceeds?)
      && (if n == |reply.calls| then fate.Proceeds? else fate == env.toolFate(reply.call, n) && !fate.Proceeds?)
  }

  /** The first `n` tool calls as they are handed to the kernel. */
  function CallActions(ids: seq<Option<string>>, n: nat): seq<Action>
    requires n <= |ids|
  {
    seq(n, k requires 0 <= k < n => ToolCall(ids[k]))
  }

  /** What a usable reply does to the messages, and how the step ends. */
  ghost predicate Handled(env: Environment, reply: Reply, mayCheckGoals: bool, was: seq<Message>, now: seq<Message>,
                          step: Step)
    requires reply.Answer?
  {
    if env.overTokenLimit(reply.call) then step == Returned(Overflow) && now == was
    else if reply.calls != [] then
      match step
      case Again => ToolsRun(env, reply, was, now, Proceeds)
      case Failure => ToolsRun(env, reply, was, now, Raises)
      case Closed(_) => step.betweenResults && ToolsRun(env, reply, was, now, Closes)
      case Returned(_) => false
    else if reply.content == "" then step == Returned(Fallback) && now == was
    else if env.finalRaises(reply.call) then step == Failure && now == was + [FinalAnswer(reply.content)]
    else if mayCheckGoals && env.goalOpen(reply.call) then
      step == Again && now == was + [FinalAnswer(reply.content)] + [GOAL_CHECK]
    else step == Returned(Completed) && now == was + [FinalAnswer(reply.content)]
  }

  /** Why an iteration returns with its status: what the last model call replied. */
  ghost predicate Verdict(env: Environment, calls: nat, ms: seq<Message>, status: Status) {
    && calls > 0
    && var last := calls - 1;
      match status
      case Completed => ms != [] && ms[|ms| - 1].content != ""
          && env.llm(last) == Replied(ms[|ms| - 1].content, []) && ms[|ms| - 1] == FinalAnswer(ms[|ms| - 1].content)
      case Fallback => env.llm(last) == Replied("", [])
      case Overflow => env.overTokenLimit(last)
      case Error => env.lacksReasoning(last) && !env.synthesises(last)
  }

  // ---- Asking the model

  /** A reply with tool calls but without the reasoning they need, which may not be filled in. */
  predicate IncompleteReply(env: Environment, call: nat) {
    var outcome := env.llm(call);
    outcome.Replied? && outcome.calls != [] && env.lacksReasoning(call) && !env.synthesises(call)
  }

  function TooLong(env: Environment, first: nat, n: nat): nat
    decreases n
  {
    if n == 0 then 0 else TooLong(env, first, n - 1) + (if env.llm(first + n - 1).ContextTooLong? then 1 else 0)
  }

  function Incompletes(env: Environment, first: nat, n: nat): nat
    decreases n
  {
    if n == 0 then 0 else Incompletes(env, first, n - 1) + (if IncompleteReply(env, first + n - 1) then 1 else 0)
  }

  /** The first `n` calls all end in a retry: none fails or gives a usable reply, and no retry is used up. */
  ghost predicate AllRetried(env: Environment, first: nat, n: nat) {
    && TooLong(env, first, n) + Incompletes(env, first, n) == n
    && TooLong(env, first, n) <= 1 && Incompletes(env, first, n) <= RETRY_LIMIT
  }

  /** The `n`-th call is the first not to be retried, and `reply` is what it leads to. */
  ghost predicate AskedUntil(env: Environment, first: nat, n: nat, reply: Reply) {
    && n >= 1 && AllRetried(env, first, n - 1)
    && var last := first + n - 1;
       match reply
       case Answer(content, calls, call) =>
         call == last && env.llm(last) == Replied(content, calls) && !IncompleteReply(env, last)
       case Incomplete => IncompleteReply(env, last) && Incompletes(env, first, n) == RETRY_LIMIT + 1
       case Raised => env.llm(last).Failed? || (env.llm(last).ContextTooLong? && TooLong(env, first, n) == 2)
  }

  function Shrunk(l: Limits, ms: seq<Message>, keep: int, floor: int): seq<Message> {
    ClearAll(ScrubAll(ms, l.maxResultTokens, l.pathOf), keep, floor, l.pathOf)
  }

  /** What the recovery from an overflow leaves: shrunk, compressed and shrunk again, with no recent result kept. */
  function Compacted(l: Limits, env: Environment, call: nat, ms: seq<Message>): seq<Message> {
    Shrunk(l, env.compressed(call, Shrunk(l, ms, 0, 0)), 0, 0)
  }

  /** The history in front of the next call, after `n` calls that were retried. */
  function Pending(l: Limits, env: Environment, first: nat, n: nat, ms: seq<Message>): seq<Message>
    decreases n
  {
    if n == 0 then ms
    else
      var asked := Repair(Pending(l, env, first, n - 1, ms));
      if env.llm(first + n - 1).ContextTooLong? then Compacted(l, env, first + n - 1, asked) else asked
  }

  /** The history the last of `n` calls was asked with. */
  function Asked(l: Limits, env: Environment, first: nat, n: nat, ms: seq<Message>): seq<Message>
    requires n >= 1
  {
    Repair(Pending(l, env, first, n - 1, ms))
  }

  lemma NoCallYet(l: Limits, env: Environment, first: nat, ms: seq<Message>)
    ensures TooLong(env, first, 0) == Incompletes(env, first, 0) == 0 && Pending(l, env, first, 0, ms) == ms
  {
  }

  /** One more call that is retried. */
  lemma CallRetried(l: Limits, env: Environment, first: nat, n: nat, ms: seq<Message>)
    ensures TooLong(env, first, n + 1)
         == TooLong(env, first, n) + (if env.llm(first + n).ContextTooLong? then 1 else 0)
    ensures Incompletes(env, first, n + 1)
         == Incompletes(env, first, n) + (if IncompleteReply(env, first + n) then 1 else 0)
    ensures env.llm(first + n).ContextTooLong?
            ==> Pending(l, env, first, n + 1, ms) == Compacted(l, env, first + n, Repair(Pending(l, env, first, n, ms)))
    ensures !env.llm(first + n).ContextTooLong?
            ==> Pending(l, env, first, n + 1, ms) == Repair(Pending(l, env, first, n, ms))
  {
    hide Repair, Compacted;
  }

  // ---- One iteration

  /** Where a run stands between two iterations. */
  datatype Point = Point(messages: seq<Message>, calls: nat, nudges: nat)

  /** The history after the check: shrunk, and over the threshold compressed and, if that went well, shrunk again. */
  function Windowed(l: Limits, env: Environment, iteration: nat, p: Point): seq<Message> {
    var shrunk := Shrunk(l, p.messages, l.keepRecent, l.minTokens);
    if !env.windowFull(iteration) then shrunk
    else
      var compressed := env.compressed(p.calls, shrunk);
      if env.compressionFate(iteration).Proceeds? then Shrunk(l, compressed, l.keepRecent, l.minTokens) else compressed
  }

  /** The iteration ends at the kernel's compression. */
  predicate Blocked(env: Environment, iteration: nat) {
    env.windowFull(iteration) && !env.compressionFate(iteration).Proceeds?
  }

  predicate MayCheckGoals(l: Limits, iteration: nat, nudges: nat) {
    iteration < l.maxIterations && nudges < l.nudgeLimit
  }

  /** What a reply to `asked` makes of the messages and the nudges, and how the step ends. */
  ghost predicate Answered(l: Limits, env: Environment, iteration: nat, nudges: nat, asked: seq<Message>, reply: Reply,
                           now: Point, step: Step) {
    match reply
    case Raised => step == Failure && now.messages == asked && now.nudges == nudges
    case Incomplete => step == Returned(Error) && now.messages == asked && now.nudges == nudges
    case Answer(_, calls, _) =>
      && Handled(env, reply, MayCheckGoals(l, iteration, nudges), asked, now.messages, step)
      && now.nudges == nudges + (if step.Again? && calls == [] then 1 else 0)
  }

  /** The `iteration`-th iteration leads from `was` to `now` and ends as `step` says. */
  ghost predicate Iterated(l: Limits, env: Environment, iteration: nat, was: Point, now: Point, step: Step) {
    var windowed := Windowed(l, env, iteration, was);
    if Blocked(env, iteration) then
      && now == was.(messages := windowed)
      && step == (if env.compressionFate(iteration).Raises? then Failure else Closed(false))
    else
      && was.calls < now.calls
      && exists reply :: LedBy(l, env, iteration, was, now, step, reply)
  }

  /** The history in which the iteration gets its reply. */
  function AskedIn(l: Limits, env: Environment, iteration: nat, was: Point, calls: nat): seq<Message>
    requires was.calls < calls
  {
    Asked(l, env, was.calls, calls - was.calls, Windowed(l, env, iteration, was))
  }

  /** `reply` is what the calls of the iteration lead to, and the step is what it leads to. */
  ghost predicate LedBy(l: Limits, env: Environment, iteration: nat, was: Point, now: Point, step: Step, reply: Reply)
    requires was.calls < now.calls
  {
    && AskedUntil(env, was.calls, now.calls - was.calls, reply)
    && Answered(l, env, iteration, was.nudges, AskedIn(l, env, iteration, was, now.calls), reply, now, step)
  }

  // ---- What an iteration keeps

  /** Nothing the loop waits for raises or closes it. */
  ghost predicate Quiet(env: Environment) {
    && (forall c :: env.llm(c).Replied?)
    && (forall i :: env.compressionFate(i).Proceeds?)
    && (forall c, k :: env.toolFate(c, k).Proceeds?)
    && (forall c :: !env.finalRaises(c))
  }

  /** In a quiet environment an iteration goes on or returns. */
  lemma QuietStep(l: Limits, env: Environment, iteration: nat, was: Point, now: Point, step: Step)
    requires Quiet(env) && Iterated(l, env, iteration, was, now, step)
    ensures step.Again? || step.Returned?
  {
    hide Repair, Windowed, Pending;
  }

  /** Why an iteration failed or was closed: the one thing in it that did not go well, and was its last. */
  ghost predicate Cause(env: Environment, iteration: nat, before: nat, calls: nat, step: Step) {
    var last := calls - 1;
    match step
    case Failure =>
      || (Blocked(env, iteration) && env.compressionFate(iteration).Raises?)
      || (before <= last && env.llm(last).Failed?)
      || (before < last && env.llm(last).ContextTooLong?
          && exists c: nat :: before <= c < last && env.llm(c).ContextTooLong?)
      || (before <= last && env.llm(last).Replied? && env.llm(last).calls == [] && env.finalRaises(last))
      || (before <= last && StopsAt(env, last, Raises))
    case Closed(false) => Blocked(env, iteration) && env.compressionFate(iteration).Closes?
    case Closed(true) => before <= last && StopsAt(env, last, Closes)
    case _ => true
  }

  /** A tool call of the reply is the first not to proceed, and ends with `fate`. */
  ghost predicate StopsAt(env: Environment, call: nat, fate: Fate) {
    && env.llm(call).Replied?
    && exists k: nat ::
         && k < |env.llm(call).calls| && env.toolFate(call, k) == fate
         && forall j: nat :: j < k ==> env.toolFate(call, j).Proceeds?
  }

  lemma {:induction false} TooLongFound(env: Environment, first: nat, n: nat)
    requires TooLong(env, first, n) > 0
    ensures exists c: nat :: first <= c < first + n && env.llm(c).ContextTooLong?
    decreases n
  {
    if !env.llm(first + n - 1).ContextTooLong? {
      TooLongFound(env, first, n - 1);
    }
  }

  lemma ToolsStop(env: Environment, reply: Reply, was: seq<Message>, now: seq<Message>, fate: Fate)
    requires reply.Answer? && ToolsRun(env, reply, was, now, fate) && !fate.Proceeds?
    requires env.llm(reply.call).Replied? && env.llm(reply.call).calls == reply.calls
    ensures StopsAt(env, reply.call, fate)
  {
  }

  /** Every failure and every closing has its cause in the environment. */
  lemma StepCause(l: Limits, env: Environment, iteration: nat, was: Point, now: Point, step: Step)
    requires Iterated(l, env, iteration, was, now, step)
    ensures Cause(env, iteration, was.calls, now.calls, step)
  {
    hide Repair, Windowed, Pending, Answered, AskedUntil;
    if !Blocked(env, iteration) {
      var reply :| LedBy(l, env, iteration, was, now, step, reply);
      AnswerCause(l, env, iteration, was, AskedIn(l, env, iteration, was, now.calls), reply, now, step);
    }
  }

  lemma AnswerCause(l: Limits, env: Environment, iteration: nat, was: Point, asked: seq<Message>, reply: Reply,
                    now: Point, step: Step)
    requires !Blocked(env, iteration) && was.calls < now.calls
    requires AskedUntil(env, was.calls, now.calls - was.calls, reply)
    requires Answered(l, env, iteration, was.nudges, asked, reply, now, step)
    ensures Cause(env, iteration, was.calls, now.calls, step)
  {
    hide Repair, Windowed, Pending;
    var n, last := now.calls - was.calls, now.calls - 1;
    match reply {
      case Raised =>
        if env.llm(last).ContextTooLong? {
          TooLongFound(env, was.calls, n - 1);
        }
      case Incomplete =>
      case Answer(_, _, _) =>
        if step.Failure? && reply.calls != [] {
          ToolsStop(env, reply, asked, now.messages, Raises);
        } else if step.Closed? {
          ToolsStop(env, reply, asked, now.messages, Closes);
        }
    }
  }

  /** `now` is `was` up to the contents of tool messages, with more behind it. */
  ghost predicate Continues(was: seq<Message>, now: seq<Message>) {
    |was| <= |now| && SameShape(was, now[..|was|])
  }

  lemma ContinuesTrans(a: seq<Message>, b: seq<Message>, c: seq<Message>)
    requires Continues(a, b) && Continues(b, c)
    ensures Continues(a, c)
  {
  }

  lemma ContinuesAppend(a: seq<Message>, b: seq<Message>, more: seq<Message>)
    requires Continues(a, b)
    ensures Continues(a, b + more)
  {
    assert (b + more)[..|a|] == b[..|a|];
  }

  /** The history is never compressed. */
  ghost predicate Uncompressed(env: Environment) {
    (forall i :: !env.windowFull(i)) && (forall c :: !env.llm(c).ContextTooLong?)
  }

  lemma ShrunkKeeps(l: Limits, ms: seq<Message>, keep: int, floor: int)
    ensures SameShape(ms, Shrunk(l, ms, keep, floor))
    ensures AllAnswered(Shrunk(l, ms, keep, floor)) <==> AllAnswered(ms)
  {
    var scrubbed := ScrubAll(ms, l.maxResultTokens, l.pathOf);
    ScrubKeepsShape(ms, l.maxResultTokens, l.pathOf);
    ClearKeepsShapeAndIsIdempotent(scrubbed, keep, floor, l.pathOf);
    ShapeKeepsPairing(ms, Shrunk(l, ms, keep, floor));
  }

  /** Shrunk with no recent result kept, every tool result is empty or a placeholder. */
  lemma NothingLeftToClear(l: Limits, ms: seq<Message>)
    ensures forall m :: m in Shrunk(l, ms, 0, 0) && m.role.Tool? ==> m.content == "" || ShowsPlaceholder(m.content)
  {
    var scrubbed := ScrubAll(ms, l.maxResultTokens, l.pathOf);
    var shrunk := ClearAll(scrubbed, 0, 0, l.pathOf);
    forall m | m in shrunk && m.role.Tool? ensures m.content == "" || ShowsPlaceholder(m.content) {
      var i :| 0 <= i < |shrunk| && shrunk[i] == m;
      ToolPositionFound(scrubbed, |scrubbed|, i);
      PlaceholderRecognised(scrubbed[i], l.pathOf);
      AlreadyClearedIff(m.content);
    }
  }

  /** Without compression, asking the model leaves a fully answered history as it is. */
  lemma {:induction false} AskedKeeps(l: Limits, env: Environment, first: nat, n: nat, ms: seq<Message>)
    requires Uncompressed(env) && Repair(ms) == ms
    ensures Pending(l, env, first, n, ms) == ms
    decreases n
  {
    hide Repair, Compacted;
    if n > 0 {
      AskedKeeps(l, env, first, n - 1, ms);
      assert !env.llm(first + n - 1).ContextTooLong?;
      assert Pending(l, env, first, n, ms) == Repair(Pending(l, env, first, n - 1, ms));
    }
  }

  lemma AnsweredAppends(l: Limits, env: Environment, iteration: nat, nudges: nat, asked: seq<Message>, reply: Reply,
                        now: Point, step: Step)
    requires Answered(l, env, iteration, nudges, asked, reply, now, step)
    ensures exists more :: now.messages == asked + more
  {
    hide AskedUntil;
    if now.messages == asked {
      assert now.messages == asked + [];
    } else if reply.calls != [] {
      var caller, text := CallerFor(reply.content, reply.calls), ToolText(env, reply.call);
      var n: nat :| n <= |reply.calls| && now.messages == asked + [caller] + Results(reply.calls, text, n);
      assert now.messages == asked + ([caller] + Results(reply.calls, text, n));
    } else if step.Again? {
      assert now.messages == asked + ([FinalAnswer(reply.content)] + [GOAL_CHECK]);
    }
  }

  /** Without compression, an iteration only appends to the history and shrinks tool results in it. */
  lemma StepContinues(l: Limits, env: Environment, iteration: nat, was: Point, now: Point, step: Step)
    requires Uncompressed(env) && AllAnswered(was.messages) && Iterated(l, env, iteration, was, now, step)
    ensures Continues(was.messages, now.messages)
  {
    hide Repair, ClearAll, ScrubAll, Answered;
    var windowed := Windowed(l, env, iteration, was);
    ShrunkKeeps(l, was.messages, l.keepRecent, l.minTokens);
    assert Continues(was.messages, windowed) by { assert windowed[..|was.messages|] == windowed; }
    RepairFixpoint(windowed);
    AskedKeeps(l, env, was.calls, now.calls - was.calls - 1, windowed);
    assert AskedIn(l, env, iteration, was, now.calls) == windowed;
    var reply :| LedBy(l, env, iteration, was, now, step, reply);
    AnsweredAppends(l, env, iteration, was.nudges, windowed, reply, now, step);
    var more :| now.messages == windowed + more;
    ContinuesAppend(was.messages, windowed, more);
  }

  /** The status of a returned iteration is the one its last call calls for. */
  lemma StepVerdict(l: Limits, env: Environment, iteration: nat, was: Point, now: Point, step: Step)
    requires Iterated(l, env, iteration, was, now, step) && step.Returned?
    ensures Verdict(env, now.calls, now.messages, step.status)
  {
    hide Repair, Windowed, Pending;
    var reply :| LedBy(l, env, iteration, was, now, step, reply);
  }

  // ---- Runs

  /** The points a run passed: each iteration before the last point went on. */
  ghost predicate Traced(l: Limits, env: Environment, trace: seq<Point>) {
    && 0 < |trace| <= l.Iterations() + 1
    && forall i :: 0 < i < |trace| ==> Iterated(l, env, i, trace[i - 1], trace[i], Again)
  }

  /** How a run ends behind its trace: in one more iteration, rolled back if that failed, or with none left. */
  ghost predicate Ended(l: Limits, env: Environment, trace: seq<Point>, end: Point, step: Step)
    requires trace != []
  {
    var before := trace[|trace| - 1];
    if |trace| == l.Iterations() + 1 then step == Returned(Overflow) && end == before
    else
      && !step.Again?
      && exists now ::
           && Iterated(l, env, |trace|, before, now, step)
           && end == if step.Failure? then now.(messages := Reread(before.messages, env.restored)) else now
  }

  lemma RereadKeeps(ms: seq<Message>, contents: nat -> string)
    ensures SameShape(ms, Reread(ms, contents)) && Continues(ms, Reread(ms, contents))
    ensures AllAnswered(Reread(ms, contents)) <==> AllAnswered(ms)
  {
    assert Reread(ms, contents)[..|ms|] == Reread(ms, contents);
    ShapeKeepsPairing(ms, Reread(ms, contents));
  }

  /** A run in a quiet environment returns. */
  lemma QuietEnd(l: Limits, env: Environment, trace: seq<Point>, end: Point, step: Step)
    requires Quiet(env) && trace != [] && Ended(l, env, trace, end, step)
    ensures step.Returned?
  {
    var before := trace[|trace| - 1];
    if |trace| != l.Iterations() + 1 {
      var now :| Iterated(l, env, |trace|, before, now, step);
      QuietStep(l, env, |trace|, before, now, step);
    }
  }

  /** A run that failed or was closed did so for a cause in its last iteration. */
  lemma EndCause(l: Limits, env: Environment, trace: seq<Point>, end: Point, step: Step)
    requires trace != [] && Ended(l, env, trace, end, step) && !step.Returned?
    ensures Cause(env, |trace|, trace[|trace| - 1].calls, end.calls, step)
  {
    var before := trace[|trace| - 1];
    var now :| && Iterated(l, env, |trace|, before, now, step)
               && end == if step.Failure? then now.(messages := Reread(before.messages, env.restored)) else now;
    StepCause(l, env, |trace|, before, now, step);
  }

  lemma EndVerdict(l: Limits, env: Environment, trace: seq<Point>, end: Point, step: Step)
    requires 0 < |trace| <= l.Iterations() + 1 && Ended(l, env, trace, end, step) && step.Returned?
    ensures if |trace| == l.Iterations() + 1 then step == Returned(Overflow)
            else Verdict(env, end.calls, end.messages, step.status)
  {
    if |trace| != l.Iterations() + 1 {
      StepVerdict(l, env, |trace|, trace[|trace| - 1], end, step);
    }
  }

  /** Without compression, the history a run started with is the front of the one it ends with, whatever the end. */
  lemma RunContinues(l: Limits, env: Environment, trace: seq<Point>, end: Point, step: Step)
    requires Uncompressed(env) && Traced(l, env, trace) && Ended(l, env, trace, end, step)
    requires TraceAnswered(trace)
    ensures Continues(trace[0].messages, end.messages)
  {
    var before := trace[|trace| - 1];
    TraceContinues(l, env, trace, |trace| - 1);
    if |trace| == l.Iterations() + 1 {
    } else if step.Failure? {
      RereadKeeps(before.messages, env.restored);
      ContinuesTrans(trace[0].messages, before.messages, end.messages);
    } else {
      StepContinues(l, env, |trace|, before, end, step);
      ContinuesTrans(trace[0].messages, before.messages, end.messages);
    }
  }

  lemma {:induction false} TraceContinues(l: Limits, env: Environment, trace: seq<Point>, k: nat)
    requires Uncompressed(env) && Traced(l, env, trace) && k < |trace|
    requires TraceAnswered(trace)
    ensures Continues(trace[0].messages, trace[k].messages)
    decreases k
  {
    if k == 0 {
      assert trace[0].messages[..|trace[0].messages|] == trace[0].messages;
    } else {
      TraceContinues(l, env, trace, k - 1);
      StepContinues(l, env, k, trace[k - 1], trace[k], Again);
      ContinuesTrans(trace[0].messages, trace[k - 1].messages, trace[k].messages);
    }
  }

  ghost predicate TraceAnswered(trace: seq<Point>) {
    forall i :: 0 <= i < |trace| ==> AllAnswered(trace[i].messages)
  }

  lemma TracedOneMore(l: Limits, env: Environment, trace: seq<Point>, now: Point)
    requires Traced(l, env, trace) && TraceAnswered(trace) && |trace| <= l.Iterations() && AllAnswered(now.messages)
    requires Iterated(l, env, |trace|, trace[|trace| - 1], now, Again)
    ensures Traced(l, env, trace + [now]) && TraceAnswered(trace + [now])
  {
    hide Iterated, AllAnswered;
  }

  lemma EndedAfter(l: Limits, env: Environment, trace: seq<Point>, now: Point, end: Point, step: Step)
    requires 0 < |trace| <= l.Iterations() && !step.Again?
    requires Iterated(l, env, |trace|, trace[|trace| - 1], now, step)
    requires end == if step.Failure? then now.(messages := Reread(trace[|trace| - 1].messages, env.restored)) else now
    ensures Ended(l, env, trace, end, step)
  {
    hide Iterated, Reread;
  }

  lemma EndedSpent(l: Limits, env: Environment, trace: seq<Point>)
    requires |trace| == l.Iterations() + 1
    ensures Ended(l, env, trace, trace[|trace| - 1], Returned(Overflow))
  {
  }

  /** What follows for the whole run from its trace and its end. */
  lemma RunFacts(l: Limits, env: Environment, trace: seq<Point>, end: Point, step: Step)
    requires Traced(l, env, trace) && TraceAnswered(trace) && Ended(l, env, trace, end, step)
    ensures Quiet(env) ==> step.Returned?
    ensures !step.Returned? ==> Cause(env, |trace|, trace[|trace| - 1].calls, end.calls, step)
    ensures Uncompressed(env) ==> Continues(trace[0].messages, end.messages)
    ensures step.Returned? && |trace| <= l.Iterations() ==> Verdict(env, end.calls, end.messages, step.status)
  {
    hide Ended, Iterated, Cause, Verdict, Quiet, Uncompressed, Continues, TraceAnswered, AllAnswered;
    if Quiet(env) { QuietEnd(l, env, trace, end, step); }
    if !step.Returned? { EndCause(l, env, trace, end, step); } else { EndVerdict(l, env, trace, end, step); }
    if Uncompressed(env) { RunContinues(l, env, trace, end, step); }
  }

  /** Left by closing the generator after some results of a call. */
  ghost predicate CutShort(ms: seq<Message>) {
    exists base, content, ids, text, n: nat ::
      && AllAnswered(base) && n < |ids|
      && ms == base + [CallerFor(content, ids)] + Results(ids, text, n)
  }

  /** The final repair changes nothing after a return or a failure, and appends answers to a run cut short. */
  lemma FinalRepair(l: Limits, env: Environment, start: seq<Message>, left: seq<Message>, step: Step)
    requires step.Returned? || step.Failure? ==> AllAnswered(left)
    requires step == Closed(true) ==> CutShort(left)
    requires Uncompressed(env) ==> Continues(start, left)
    requires !step.Again? && (Uncompressed(env) ==> step != Closed(false))
    ensures AllAnswered(Repair(left)) && |Repair(left)| == |left| + |UnansweredIds(left)|
    ensures step.Returned? || step.Failure? ==> Repair(left) == left
    ensures step == Closed(true) ==> Repair(left) == left + Synthesised(UnansweredIds(left))
    ensures Uncompressed(env) ==> Continues(start, Repair(left))
  {
    hide Repair, Synthesised, UnansweredIds, SameShape;
    RepairFixpoint(left);
    RepairGrowth(left);
    if step == Closed(true) {
      var base, content, ids, text, n: nat :| AllAnswered(base) && n < |ids|
        && left == base + [CallerFor(content, ids)] + Results(ids, text, n);
      RepairAppends(base, CallerFor(content, ids), Results(ids, text, n));
      if Uncompressed(env) {
        ContinuesAppend(start, left, Synthesised(UnansweredIds(left)));
      }
    }
  }

  /** One return, at the very end, exactly when the step returns. */
  ghost predicate StepYields(was: seq<Action>, now: seq<Action>, step: Step) {
    if step.Returned? then EndsWithReturn(was, now, step.status) else Extends(was, now)
  }

  lemma StepYieldsAfter(was: seq<Action>, mid: seq<Action>, now: seq<Action>, step: Step)
    requires Extends(was, mid) && StepYields(mid, now, step)
    ensures StepYields(was, now, step)
  {
    var last := if step.Returned? then now[..|now| - 1] else now;
    assert last[|was|..] == mid[|was|..] + last[|mid|..];
  }
}
