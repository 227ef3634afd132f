/**
 What decides how an iteration and a run end: the outcome of the last model call, of its tool calls,
 and the goals, nudges and iterations that are left. Nothing here speaks of how the loop gets there.
 */
module TurnOutcomes {
  import opened Text
  import opened Conversation
  import opened Clearing
  import opened TurnPairing
  import opened TurnRuns

  /** A reply with tool calls that lacks the reasoning they need for good. */
  ghost predicate WithoutReasoning(env: Environment, call: nat) {
    && env.llm(call).Replied? && env.llm(call).calls != []
    && env.lacksReasoning(call) && !env.synthesises(call)
  }

  /**
   The calls from `first` to `last` are what asking the model once takes: each but the last exceeded
   the context or lacked its reasoning, neither happened twice among them, and the last one did
   neither unless one before it had done the same.
   */
  ghost predicate AskedOnce(env: Environment, first: nat, last: nat) {
    && first <= last
    && (forall c :: first <= c < last ==> env.llm(c).ContextTooLong? || WithoutReasoning(env, c))
    && (forall c, d :: first <= c < d < last ==> !(env.llm(c).ContextTooLong? && env.llm(d).ContextTooLong?))
    && (forall c, d :: first <= c < d < last ==> !(WithoutReasoning(env, c) && WithoutReasoning(env, d)))
    && (env.llm(last).ContextTooLong? ==> exists c: nat :: first <= c < last && env.llm(c).ContextTooLong?)
    && (WithoutReasoning(env, last) ==> exists c: nat :: first <= c < last && WithoutReasoning(env, c))
  }

  lemma {:induction false} OverflowsCounted(env: Environment, first: nat, n: nat)
    ensures TooLong(env, first, n) + Incompletes(env, first, n) <= n
    ensures TooLong(env, first, n) > 0 <==> exists c: nat :: first <= c < first + n && env.llm(c).ContextTooLong?
    ensures TooLong(env, first, n) <= 1 ==>
              forall c, d :: first <= c < d < first + n ==> !(env.llm(c).ContextTooLong? && env.llm(d).ContextTooLong?)
    decreases n
  {
    if n > 0 {
      OverflowsCounted(env, first, n - 1);
      var last := first + n - 1;
      if env.llm(last).ContextTooLong? {
        assert first <= last < first + n;
      }
    }
  }

  lemma {:induction false} LackingCounted(env: Environment, first: nat, n: nat)
    ensures Incompletes(env, first, n) > 0 <==> exists c: nat :: first <= c < first + n && WithoutReasoning(env, c)
    ensures Incompletes(env, first, n) <= 1 ==>
              forall c, d :: first <= c < d < first + n ==> !(WithoutReasoning(env, c) && WithoutReasoning(env, d))
    decreases n
  {
    if n > 0 {
      LackingCounted(env, first, n - 1);
      var last := first + n - 1;
      assert IncompleteReply(env, last) <==> WithoutReasoning(env, last);
    }
  }

  lemma {:induction false} EachRetried(env: Environment, first: nat, n: nat)
    requires TooLong(env, first, n) + Incompletes(env, first, n) == n
    ensures forall c :: first <= c < first + n ==> env.llm(c).ContextTooLong? || WithoutReasoning(env, c)
    decreases n
  {
    if n > 0 {
      OverflowsCounted(env, first, n - 1);
      EachRetried(env, first, n - 1);
    }
  }

  /** The model is asked up to the first call that is not retried, and that one's outcome is the reply. */
  lemma AskedUntilOnce(env: Environment, first: nat, n: nat, reply: Reply)
    requires AskedUntil(env, first, n, reply)
    ensures AskedOnce(env, first, first + n - 1)
    ensures reply.Raised? <==> !env.llm(first + n - 1).Replied?
    ensures reply.Incomplete? <==> WithoutReasoning(env, first + n - 1)
    ensures reply.Answer? ==>
              reply.call == first + n - 1 && env.llm(first + n - 1) == Replied(reply.content, reply.calls)
  {
    OverflowsCounted(env, first, n - 1);
    LackingCounted(env, first, n - 1);
    EachRetried(env, first, n - 1);
  }

  // ---- The step a call calls for

  /** Goals are open after the call, and a nudge and an iteration are left to go back to them. */
  ghost predicate SentBack(l: Limits, env: Environment, iteration: nat, nudges: nat, last: nat) {
    env.goalOpen(last) && nudges < l.nudgeLimit && iteration < l.maxIterations
  }

  /** How a reply that is not over the token limit ends the iteration. */
  ghost predicate ReplyCallsFor(l: Limits, env: Environment, iteration: nat, nudges: nat, last: nat, content: string,
                                calls: seq<Option<string>>, step: Step)
  {
    if calls != [] then
      && (step == Again <==> forall k :: 0 <= k < |calls| ==> env.toolFate(last, k).Proceeds?)
      && (step == Failure <==> StopsAt(env, last, Raises))
      && (step == Closed(true) <==> StopsAt(env, last, Closes))
      && !step.Returned? && step != Closed(false)
    else if content == "" then step == Returned(Fallback)
    else if env.finalRaises(last) then step == Failure
    else step == if SentBack(l, env, iteration, nudges, last) then Again else Returned(Completed)
  }

  ghost predicate CalledFor(l: Limits, env: Environment, iteration: nat, nudges: nat, last: nat, step: Step) {
    match env.llm(last)
    case Failed => step == Failure
    case ContextTooLong => step == Failure
    case Replied(content, calls) =>
      if WithoutReasoning(env, last) then step == Returned(Error)
      else if env.overTokenLimit(last) then step == Returned(Overflow)
      else ReplyCallsFor(l, env, iteration, nudges, last, content, calls, step)
  }

  /** The caller is at `at`, what is behind it are its results, and they stop where a call does not proceed. */
  ghost predicate EndsWithCaller(env: Environment, last: nat, content: string, calls: seq<Option<string>>,
                                 ms: seq<Message>, at: nat)
    requires at < |ms| <= at + 1 + |calls|
  {
    && ms[at].role.Assistant? && ms[at].content == content
    && ms[at].toolCalls.Calls? && |ms[at].toolCalls.entries| == |calls|
    && (forall k :: 0 <= k < |calls| ==> ms[at].toolCalls.entries[k] == Call(calls[k]))
    && (forall k :: at < k < |ms| ==>
          && ms[k] == Message(Tool, NoCalls, calls[k - at - 1], env.toolText(last, k - at - 1))
          && env.toolFate(last, k - at - 1).Proceeds?)
    && (|ms| - at - 1 < |calls| ==> !env.toolFate(last, |ms| - at - 1).Proceeds?)
  }

  /** What a reply that is not over the token limit adds to the list it was asked with. */
  ghost predicate ReplyRecorded(env: Environment, last: nat, content: string, calls: seq<Option<string>>,
                                asked: seq<Message>, ms: seq<Message>, step: Step)
  {
    if calls != [] then
      |asked| < |ms| <= |asked| + 1 + |calls| && EndsWithCaller(env, last, content, calls, ms, |asked|)
    else if content == "" then ms == asked
    else
      && |ms| == |asked| + (if step.Again? then 2 else 1)
      && ms[|asked|] == Message(Assistant, NoCalls, None, content)
      && (step.Again? ==> ms[|asked| + 1] == Message(User, NoCalls, None, "goal check"))
  }

  /** The list behind the one the model was asked with: what the last reply adds, if it is usable. */
  ghost predicate Recorded(env: Environment, last: nat, asked: seq<Message>, ms: seq<Message>, step: Step) {
    var out := env.llm(last);
    && asked <= ms
    && if out.Replied? && !WithoutReasoning(env, last) && !env.overTokenLimit(last)
       then ReplyRecorded(env, last, out.content, out.calls, asked, ms, step)
       else ms == asked
  }

  // ---- The history the model is asked with

  /** Oversized results are scrubbed, then stale ones are cleared. */
  ghost predicate ShrunkAs(l: Limits, was: seq<Message>, now: seq<Message>, keep: int, floor: int) {
    exists mid :: ScrubbedAs(was, mid, l.maxResultTokens) && ClearedAs(mid, now, keep, floor)
  }

  lemma ShrunkIs(l: Limits, ms: seq<Message>, keep: int, floor: int)
    ensures ShrunkAs(l, ms, Shrunk(l, ms, keep, floor), keep, floor)
  {
    hide ScrubAll, ClearAll, ScrubbedAs, ClearedAs;
    ScrubAllAs(ms, l.maxResultTokens, l.pathOf);
    ClearAllAs(ScrubAll(ms, l.maxResultTokens, l.pathOf), keep, floor, l.pathOf);
  }

  /** What the window check of an iteration makes of the list, with `calls` calls made before it. */
  ghost predicate WindowedAs(l: Limits, env: Environment, iteration: nat, calls: nat, was: seq<Message>,
                             now: seq<Message>)
  {
    exists shrunk :: && ShrunkAs(l, was, shrunk, l.keepRecent, l.minTokens)
                     && AfterWindow(l, env, iteration, calls, shrunk, now)
  }

  ghost predicate AfterWindow(l: Limits, env: Environment, iteration: nat, calls: nat, shrunk: seq<Message>,
                              now: seq<Message>)
  {
    if !env.windowFull(iteration) then now == shrunk
    else if !env.compressionFate(iteration).Proceeds? then now == env.compressed(calls, shrunk)
    else ShrunkAs(l, env.compressed(calls, shrunk), now, l.keepRecent, l.minTokens)
  }

  lemma WindowedIs(l: Limits, env: Environment, iteration: nat, p: Point)
    ensures WindowedAs(l, env, iteration, p.calls, p.messages, Windowed(l, env, iteration, p))
  {
    hide Shrunk, ShrunkAs;
    var shrunk := Shrunk(l, p.messages, l.keepRecent, l.minTokens);
    ShrunkIs(l, p.messages, l.keepRecent, l.minTokens);
    ShrunkIs(l, env.compressed(p.calls, shrunk), l.keepRecent, l.minTokens);
    assert AfterWindow(l, env, iteration, p.calls, shrunk, Windowed(l, env, iteration, p));
  }

  /** What the recovery from the overflow of a call leaves. */
  ghost predicate CompactedAs(l: Limits, env: Environment, call: nat, was: seq<Message>, now: seq<Message>) {
    exists shrunk :: ShrunkAs(l, was, shrunk, 0, 0) && ShrunkAs(l, env.compressed(call, shrunk), now, 0, 0)
  }

  lemma CompactedIs(l: Limits, env: Environment, call: nat, ms: seq<Message>)
    ensures CompactedAs(l, env, call, ms, Compacted(l, env, call, ms))
  {
    hide Shrunk, ShrunkAs;
    ShrunkIs(l, ms, 0, 0);
    ShrunkIs(l, env.compressed(call, Shrunk(l, ms, 0, 0)), 0, 0);
  }

  /** The list with which the last of the calls is asked: repaired, and compacted if one before exceeded the context. */
  ghost predicate AskedWith(l: Limits, env: Environment, first: nat, last: nat, was: seq<Message>,
                            asked: seq<Message>)
  {
    && ((forall c :: first <= c < last ==> !env.llm(c).ContextTooLong?) ==> asked == Repair(was))
    && forall c: nat :: first <= c < last && env.llm(c).ContextTooLong? ==>
         exists compacted :: CompactedAs(l, env, c, Repair(was), compacted) && asked == Repair(compacted)
  }

  lemma {:induction false} NothingCompacted(l: Limits, env: Environment, first: nat, n: nat, ms: seq<Message>)
    requires forall c :: first <= c < first + n ==> !env.llm(c).ContextTooLong?
    ensures Repair(Pending(l, env, first, n, ms)) == Repair(ms)
    decreases n
  {
    hide Repair, Compacted;
    if n > 0 {
      NothingCompacted(l, env, first, n - 1, ms);
      RepairFixpoint(Pending(l, env, first, n - 1, ms));
    }
  }

  lemma {:induction false} CompactedInBetween(l: Limits, env: Environment, first: nat, n: nat, ms: seq<Message>, c: nat)
    requires first <= c < first + n && env.llm(c).ContextTooLong?
    requires forall d :: first <= d < first + n && d != c ==> !env.llm(d).ContextTooLong?
    ensures Repair(Pending(l, env, first, n, ms)) == Repair(Compacted(l, env, c, Repair(ms)))
    decreases n
  {
    hide Repair, Compacted;
    if c == first + n - 1 {
      NothingCompacted(l, env, first, n - 1, ms);
    } else {
      CompactedInBetween(l, env, first, n - 1, ms, c);
      RepairFixpoint(Pending(l, env, first, n - 1, ms));
    }
  }

  lemma AskedIs(l: Limits, env: Environment, first: nat, n: nat, ms: seq<Message>)
    requires n >= 1 && AskedOnce(env, first, first + n - 1)
    ensures AskedWith(l, env, first, first + n - 1, ms, Asked(l, env, first, n, ms))
  {
    hide Repair, Compacted, CompactedAs;
    var last := first + n - 1;
    if forall c :: first <= c < last ==> !env.llm(c).ContextTooLong? {
      NothingCompacted(l, env, first, n - 1, ms);
    }
    forall c: nat | first <= c < last && env.llm(c).ContextTooLong?
      ensures exists m :: CompactedAs(l, env, c, Repair(ms), m) && Asked(l, env, first, n, ms) == Repair(m)
    {
      CompactedInBetween(l, env, first, n - 1, ms, c);
      CompactedIs(l, env, c, Repair(ms));
    }
  }

  /**
   What asking the model once comes to: the calls it takes, the list the last one is asked with, and its
   outcome as the reply.
   */
  ghost predicate AskedFor(l: Limits, env: Environment, first: nat, last: nat, was: seq<Message>, now: seq<Message>,
                           reply: Reply)
  {
    && AskedOnce(env, first, last) && AskedWith(l, env, first, last, was, now)
    && (reply.Raised? <==> !env.llm(last).Replied?)
    && (reply.Incomplete? <==> WithoutReasoning(env, last))
    && (reply.Answer? ==> reply.call == last && env.llm(last) == Replied(reply.content, reply.calls))
  }

  lemma AskedFacts(l: Limits, env: Environment, first: nat, n: nat, ms: seq<Message>, reply: Reply)
    requires AskedUntil(env, first, n, reply)
    ensures AskedFor(l, env, first, first + n - 1, ms, Asked(l, env, first, n, ms), reply)
  {
    hide AskedOnce, AskedWith, Asked, AskedUntil, WithoutReasoning;
    AskedUntilOnce(env, first, n, reply);
    AskedIs(l, env, first, n, ms);
  }

  // ---- Iterations

  /** The list in which the iteration's last reply is recorded. */
  ghost predicate AskedAfter(l: Limits, env: Environment, iteration: nat, was: Point, last: nat, asked: seq<Message>) {
    exists windowed :: && WindowedAs(l, env, iteration, was.calls, was.messages, windowed)
                       && AskedWith(l, env, was.calls, last, windowed, asked)
  }

  /** What an iteration whose last call is `last` adds to the list it asked the model with. */
  ghost predicate Added(l: Limits, env: Environment, iteration: nat, was: Point, last: nat, ms: seq<Message>,
                        step: Step)
  {
    exists asked :: AskedAfter(l, env, iteration, was, last, asked) && Recorded(env, last, asked, ms, step)
  }

  /** How an iteration ends, what it makes of the list and what it costs. */
  ghost predicate Outcome(l: Limits, env: Environment, iteration: nat, was: Point, now: Point, step: Step) {
    if env.windowFull(iteration) && !env.compressionFate(iteration).Proceeds? then
      && WindowedAs(l, env, iteration, was.calls, was.messages, now.messages)
      && now.calls == was.calls && now.nudges == was.nudges
      && step == (if env.compressionFate(iteration).Raises? then Failure else Closed(false))
    else
      && was.calls < now.calls
      && AskedOnce(env, was.calls, now.calls - 1)
      && CalledFor(l, env, iteration, was.nudges, now.calls - 1, step)
      && now.nudges == was.nudges + (if step.Again? && env.llm(now.calls - 1).calls == [] then 1 else 0)
      && Added(l, env, iteration, was, now.calls - 1, now.messages, step)
  }

  lemma HandledCallsFor(l: Limits, env: Environment, iteration: nat, nudges: nat, reply: Reply, was: seq<Message>,
                        now: seq<Message>, step: Step)
    requires reply.Answer? && Handled(env, reply, MayCheckGoals(l, iteration, nudges), was, now, step)
    requires !env.overTokenLimit(reply.call) && env.llm(reply.call) == Replied(reply.content, reply.calls)
    ensures ReplyCallsFor(l, env, iteration, nudges, reply.call, reply.content, reply.calls, step)
    ensures was <= now && ReplyRecorded(env, reply.call, reply.content, reply.calls, was, now, step)
  {
    if reply.calls != [] {
      var fate := if step.Again? then Proceeds else if step.Failure? then Raises else Closes;
      ToolsRecorded(env, reply, was, now, fate);
    }
  }

  /** A caller and the results of its first calls, which all went well, end the list they are behind. */
  lemma CallerStored(env: Environment, reply: Reply, was: seq<Message>, now: seq<Message>, n: nat)
    requires reply.Answer? && n <= |reply.calls|
    requires now == was + [CallerFor(reply.content, reply.calls)] + Results(reply.calls, ToolText(env, reply.call), n)
    requires forall k :: 0 <= k < n ==> env.toolFate(reply.call, k).Proceeds?
    requires n < |reply.calls| ==> !env.toolFate(reply.call, n).Proceeds?
    ensures was < now && |now| == |was| + 1 + n
    ensures EndsWithCaller(env, reply.call, reply.content, reply.calls, now, |was|)
  {
  }

  /** What running the tools stores, and where it stops. */
  lemma ToolsRecorded(env: Environment, reply: Reply, was: seq<Message>, now: seq<Message>, fate: Fate)
    requires reply.Answer? && ToolsRun(env, reply, was, now, fate)
    requires env.llm(reply.call) == Replied(reply.content, reply.calls)
    ensures was < now && |was| < |now| <= |was| + 1 + |reply.calls|
    ensures EndsWithCaller(env, reply.call, reply.content, reply.calls, now, |was|)
    ensures fate.Proceeds? <==> forall k :: 0 <= k < |reply.calls| ==> env.toolFate(reply.call, k).Proceeds?
    ensures fate.Raises? <==> StopsAt(env, reply.call, Raises)
    ensures fate.Closes? <==> StopsAt(env, reply.call, Closes)
  {
    var text := ToolText(env, reply.call);
    var n: nat :|
      && n <= |reply.calls|
      && now == was + [CallerFor(reply.content, reply.calls)] + Results(reply.calls, text, n)
      && (forall k :: 0 <= k < n ==> env.toolFate(reply.call, k).Proceeds?)
      && (if n == |reply.calls| then fate.Proceeds? else fate == env.toolFate(reply.call, n) && !fate.Proceeds?);
    CallerStored(env, reply, was, now, n);
  }

  /** Every iteration ends as the outcome of its last call calls for, and adds what its reply says to the list. */
  lemma StepOutcome(l: Limits, env: Environment, iteration: nat, was: Point, now: Point, step: Step)
    requires Iterated(l, env, iteration, was, now, step)
    ensures Outcome(l, env, iteration, was, now, step)
  {
    hide Repair, Windowed, Asked, Answered, AskedUntil, AskedOnce, WindowedAs, AskedWith, CalledFor, Recorded;
    WindowedIs(l, env, iteration, was);
    if !Blocked(env, iteration) {
      var reply :| LedBy(l, env, iteration, was, now, step, reply);
      AskedUntilOnce(env, was.calls, now.calls - was.calls, reply);
      var windowed := Windowed(l, env, iteration, was);
      AskedIs(l, env, was.calls, now.calls - was.calls, windowed);
      ReplyOutcome(l, env, iteration, was.nudges, AskedIn(l, env, iteration, was, now.calls), reply, now, step);
    }
  }

  lemma ReplyOutcome(l: Limits, env: Environment, iteration: nat, nudges: nat, asked: seq<Message>, reply: Reply,
                     now: Point, step: Step)
    requires now.calls > 0 && Answered(l, env, iteration, nudges, asked, reply, now, step)
    requires reply.Raised? <==> !env.llm(now.calls - 1).Replied?
    requires reply.Incomplete? <==> WithoutReasoning(env, now.calls - 1)
    requires reply.Answer? ==>
               reply.call == now.calls - 1 && env.llm(now.calls - 1) == Replied(reply.content, reply.calls)
    ensures CalledFor(l, env, iteration, nudges, now.calls - 1, step)
    ensures Recorded(env, now.calls - 1, asked, now.messages, step)
    ensures now.nudges == nudges + (if step.Again? && env.llm(now.calls - 1).calls == [] then 1 else 0)
  {
    hide ReplyCallsFor, ReplyRecorded;
    if reply.Answer? && !env.overTokenLimit(reply.call) {
      HandledCallsFor(l, env, iteration, nudges, reply, asked, now.messages, step);
    }
  }

  // ---- Runs

  /**
   Each iteration of the run ended as its last call called for; a run that spent its iterations
   overflows, and what a failed iteration had made of the list is undone.
   */
  ghost predicate RunOutcome(l: Limits, env: Environment, trace: seq<Point>, end: Point, step: Step)
    requires trace != []
  {
    var last := trace[|trace| - 1];
    && (forall i :: 0 < i < |trace| ==> Outcome(l, env, i, trace[i - 1], trace[i], Again))
    && (|trace| > l.maxIterations ==> step == Returned(Overflow) && end == last)
    && (|trace| <= l.maxIterations ==> exists now :: LastOutcome(l, env, |trace|, last, now, end, step))
  }

  ghost predicate LastOutcome(l: Limits, env: Environment, iteration: nat, was: Point, now: Point, end: Point,
                              step: Step)
  {
    && !step.Again? && Outcome(l, env, iteration, was, now, step)
    && end.calls == now.calls && end.nudges == now.nudges
    && (if step.Failure? then SameShape(was.messages, end.messages) else end.messages == now.messages)
  }

  lemma RunEndsSo(l: Limits, env: Environment, trace: seq<Point>, end: Point, step: Step)
    requires Traced(l, env, trace) && Ended(l, env, trace, end, step)
    ensures RunOutcome(l, env, trace, end, step)
    ensures step == Returned(Completed) ==>
              && |trace| <= l.maxIterations && end.calls > 0
              && (!env.goalOpen(end.calls - 1) || end.nudges >= l.nudgeLimit || |trace| == l.maxIterations)
  {
    hide Iterated, Outcome, Reread;
    forall i | 0 < i < |trace| ensures Outcome(l, env, i, trace[i - 1], trace[i], Again) {
      StepOutcome(l, env, i, trace[i - 1], trace[i], Again);
    }
    var last := trace[|trace| - 1];
    if |trace| <= l.maxIterations {
      var now :| && Iterated(l, env, |trace|, last, now, step)
                 && end == if step.Failure? then now.(messages := Reread(last.messages, env.restored)) else now;
      StepOutcome(l, env, |trace|, last, now, step);
      RereadKeeps(last.messages, env.restored);
      assert LastOutcome(l, env, |trace|, last, now, end, step);
    }
    if step == Returned(Completed) {
      CompletedWithoutGoals(l, env, trace, end);
    }
  }

  /** A run completes only without open goals, or with no nudge or no iteration left to send the model back to them. */
  lemma CompletedWithoutGoals(l: Limits, env: Environment, trace: seq<Point>, end: Point)
    requires trace != [] && RunOutcome(l, env, trace, end, Returned(Completed))
    ensures |trace| <= l.maxIterations && end.calls > 0
    ensures !env.goalOpen(end.calls - 1) || end.nudges >= l.nudgeLimit || |trace| == l.maxIterations
  {
    hide AskedOnce, Added, WindowedAs;
    var last := trace[|trace| - 1];
    var now :| LastOutcome(l, env, |trace|, last, now, end, Returned(Completed));
  }
}
