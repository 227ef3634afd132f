/** The agent object: prepare, run the loop against the model, the kernel and the tools, finalize. */
module AgentTurn {
  import opened Text
  import opened Conversation
  import opened Loader
  import opened Clearing
  import opened TurnPairing
  import opened TurnRuns
  import opened TurnOutcomes

  class AgentCore {
    const context: ConversationContext
    const limits: Limits
    var nudges: nat
    var llmCalls: nat
    var actions: seq<Action>
    var requests: seq<seq<Message>>

    constructor (limits: Limits)
      ensures fresh(context) && context.messages == [] && this.limits == limits
      ensures nudges == llmCalls == 0 && actions == [] && requests == []
    {
      context := new ConversationContext();
      this.limits := limits;
      nudges, llmCalls, actions, requests := 0, 0, [], [];
    }

    ghost function Here(): Point
      reads this, context
    {
      Point(context.messages, llmCalls, nudges)
    }

    /** Every request sent to the model so far is one its API accepts. */
    ghost predicate RequestsAccepted()
      reads this`requests
    {
      forall r :: r in requests ==> WellPaired(r)
    }

    method Append(m: Message)
      modifies context
      ensures context.messages == old(context.messages) + [m]
    {
      context.messages := context.messages + [m];
    }

    method Yield(a: Action)
      modifies this`actions
      ensures actions == old(actions) + [a]
    {
      actions := actions + [a];
    }

    /** Shrinks tool results; the pairing stays what it was. */
    method ShrinkToolResults(keep: int, floor: int)
      modifies context
      ensures context.messages == Shrunk(limits, old(context.messages), keep, floor)
      ensures ShrunkAs(limits, old(context.messages), context.messages, keep, floor)
      ensures SameShape(old(context.messages), context.messages)
      ensures AllAnswered(context.messages) <==> AllAnswered(old(context.messages))
    {
      var scrub := ScrubOversizedToolResults(context, limits.maxResultTokens, limits.pathOf);
      var clear := ClearStaleToolResults(context, keep, floor, limits.pathOf);
      ShrunkKeeps(limits, old(context.messages), keep, floor);
    }

    /** Repairs the history in place and builds the request from it. */
    method Assemble()
      modifies this`requests, context
      ensures context.messages == Repair(old(context.messages)) && AllAnswered(context.messages)
      ensures requests == old(requests) + [StripOrphans(context.messages)]
      ensures old(RequestsAccepted()) ==> RequestsAccepted()
    {
      var inserted := context.RepairDanglingAssistantToolCalls();
      RequestWellPaired(old(context.messages));
      RepairFixpoint(old(context.messages));
      var payload := StripOrphanToolMessages(context.messages);
      requests := requests + [payload];
    }

    /** One model call: assembles the request and sends it. */
    method Ask(env: Environment) returns (outcome: LlmOutcome)
      modifies this`requests, this`llmCalls, context
      ensures context.messages == Repair(old(context.messages)) && AllAnswered(context.messages)
      ensures llmCalls == old(llmCalls) + 1 && |requests| == |old(requests)| + 1
      ensures old(RequestsAccepted()) ==> RequestsAccepted()
      ensures outcome == env.llm(old(llmCalls))
    {
      Assemble();
      outcome := env.llm(llmCalls);
      llmCalls := llmCalls + 1;
    }

    /** Makes the history as small as shrinking and the kernel's compression can. */
    method Compact(env: Environment, call: nat)
      modifies context
      ensures context.messages == Compacted(limits, env, call, old(context.messages))
      ensures CompactedAs(limits, env, call, old(context.messages), context.messages)
      ensures SameShape(env.compressed(call, Shrunk(limits, old(context.messages), 0, 0)), context.messages)
      ensures forall m :: m in context.messages && m.role.Tool? ==> m.content == "" || ShowsPlaceholder(m.content)
    {
      CompactedIs(limits, env, call, context.messages);
      ShrinkToolResults(0, 0);
      context.messages := env.compressed(call, context.messages);
      ghost var compressed := context.messages;
      ShrinkToolResults(0, 0);
      NothingLeftToClear(limits, compressed);
    }

    /** Asks the model until it gives a usable reply: at most one overflow retry and one reasoning retry. */
    method AskModel(env: Environment) returns (reply: Reply)
      modifies this`requests, this`llmCalls, this`actions, context
      ensures AllAnswered(context.messages)
      ensures old(llmCalls) < llmCalls <= old(llmCalls) + 3
      ensures |requests| - |old(requests)| == llmCalls - old(llmCalls)
      ensures old(RequestsAccepted()) ==> RequestsAccepted()
      ensures AskedUntil(env, old(llmCalls), llmCalls - old(llmCalls), reply)
      ensures context.messages == Asked(limits, env, old(llmCalls), llmCalls - old(llmCalls), old(context.messages))
      ensures AskedFor(limits, env, old(llmCalls), llmCalls - 1, old(context.messages), context.messages, reply)
      ensures if reply.Incomplete? then EndsWithReturn(old(actions), actions, Error) else actions == old(actions)
    {
      hide Repair, Compacted, AllAnswered, SameShape, AlreadyCleared, RequestsAccepted, TooLong, Incompletes, Pending;
      hide AskedFor, CompactedAs, ShowsPlaceholder;
      var missingRetries, overflowRetried := 0, false;
      ghost var first, was := llmCalls, context.messages;
      NoCallYet(limits, env, first, was);
      while true
        invariant llmCalls == first + missingRetries + (if overflowRetried then 1 else 0)
        invariant missingRetries <= RETRY_LIMIT
        invariant Incompletes(env, first, llmCalls - first) == missingRetries
        invariant TooLong(env, first, llmCalls - first) == (if overflowRetried then 1 else 0)
        invariant context.messages == Pending(limits, env, first, llmCalls - first, was)
        invariant |requests| - |old(requests)| == llmCalls - first
        invariant actions == old(actions)
        invariant old(RequestsAccepted()) ==> RequestsAccepted()
        decreases !overflowRetried, RETRY_LIMIT - missingRetries
      {
        var call := llmCalls;
        CallRetried(limits, env, first, call - first, was);
        var outcome := Ask(env);
        match outcome {
          case Failed =>
            reply := Raised;
            AskedFacts(limits, env, first, llmCalls - first, was, reply);
            return;
          case ContextTooLong =>
            if overflowRetried {
              reply := Raised;
              AskedFacts(limits, env, first, llmCalls - first, was, reply);
              return;
            }
            overflowRetried := true;
            Compact(env, call);
          case Replied(content, calls) =>
            if calls != [] && env.lacksReasoning(call) && !env.synthesises(call) {
              missingRetries := missingRetries + 1;
              if missingRetries > RETRY_LIMIT {
                Yield(Return(Error));
                reply := Incomplete;
                AskedFacts(limits, env, first, llmCalls - first, was, reply);
                return;
              }
            } else {
              reply := Answer(content, calls, call);
              AskedFacts(limits, env, first, llmCalls - first, was, reply);
              return;
            }
        }
      }
    }

    /** Stores the assistant message with its calls, then one result per call as the kernel delivers them. */
    method RunTools(env: Environment, reply: Reply) returns (fate: Fate)
      requires reply.Answer? && reply.calls != [] && AllAnswered(context.messages)
      modifies this`actions, context
      ensures Extends(old(actions), actions)
      ensures fate.Proceeds? ==> AllAnswered(context.messages)
      ensures fate.Closes? ==> CutShort(context.messages)
      ensures ToolsRun(env, reply, old(context.messages), context.messages, fate)
      ensures old(context.messages) < context.messages
      ensures |context.messages| <= |old(context.messages)| + 1 + |reply.calls|
      ensures EndsWithCaller(env, reply.call, reply.content, reply.calls, context.messages, |old(context.messages)|)
      ensures var stored := |context.messages| - |old(context.messages)| - 1;
              var started := if fate.Proceeds? then stored else stored + 1;
              && fate == (if stored == |reply.calls| then Proceeds else env.toolFate(reply.call, stored))
              && 0 <= started <= |reply.calls| && |actions| == |old(actions)| + started && old(actions) <= actions
              && forall k :: 0 <= k < started ==> actions[|old(actions)| + k] == ToolCall(reply.calls[k])
    {
      hide EndsWithCaller, AllAnswered;
      var ids, call := reply.calls, reply.call;
      ghost var base, text := context.messages, ToolText(env, call);
      Append(CallerFor(reply.content, ids));
      for k := 0 to |ids|
        invariant context.messages == base + [CallerFor(reply.content, ids)] + Results(ids, text, k)
        invariant actions == old(actions) + CallActions(ids, k)
        invariant forall j :: 0 <= j < k ==> env.toolFate(call, j).Proceeds?
      {
        Yield(ToolCall(ids[k]));
        assert CallActions(ids, k + 1) == CallActions(ids, k) + [ToolCall(ids[k])];
        fate := env.toolFate(call, k);
        if !fate.Proceeds? {
          CallerStored(env, reply, base, context.messages, k);
          return;
        }
        Append(Message(Tool, NoCalls, ids[k], env.toolText(call, k)));
        assert Results(ids, text, k + 1) == Results(ids, text, k) + [context.messages[|context.messages| - 1]];
      }
      fate := Proceeds;
      CallerStored(env, reply, base, context.messages, |ids|);
      AllResultsAnswer(base, reply.content, ids, text);
    }

    /** Sends the model back to its goals, unless there are none or the nudges are spent. */
    method TryInjectGoalCheck(env: Environment, call: nat) returns (injected: bool)
      requires AllAnswered(context.messages)
      modifies this`nudges, context
      ensures AllAnswered(context.messages)
      ensures nudges == old(nudges) + (if injected then 1 else 0)
      ensures injected <==> env.goalOpen(call) && old(nudges) < limits.nudgeLimit
      ensures context.messages == old(context.messages) + (if injected then [GOAL_CHECK] else [])
    {
      injected := false;
      if env.goalOpen(call) && nudges < limits.nudgeLimit {
        nudges := nudges + 1;
        AppendPlain(context.messages, GOAL_CHECK);
        Append(GOAL_CHECK);
        injected := true;
      }
    }

    /** Shrinks old results and, over the threshold, hands the history to the kernel's compression. */
    method CheckWindow(env: Environment, iteration: nat) returns (fate: Fate)
      requires AllAnswered(context.messages)
      modifies this`actions, context
      ensures Extends(old(actions), actions)
      ensures if env.windowFull(iteration) then
                fate == env.compressionFate(iteration) && actions == old(actions) + [ContextOverflow]
              else fate.Proceeds? && actions == old(actions) && SameShape(old(context.messages), context.messages)
      ensures context.messages == Windowed(limits, env, iteration, old(Here()))
      ensures WindowedAs(limits, env, iteration, llmCalls, old(context.messages), context.messages)
    {
      WindowedIs(limits, env, iteration, Here());
      ShrinkToolResults(limits.keepRecent, limits.minTokens);
      fate := Proceeds;
      if env.windowFull(iteration) {
        Yield(ContextOverflow);
        context.messages := env.compressed(llmCalls, context.messages);
        fate := env.compressionFate(iteration);
        if fate.Proceeds? {
          ShrinkToolResults(limits.keepRecent, limits.minTokens);
        }
      }
    }

    /** Records a final answer; the loop goes on only after a goal check. */
    method Finish(env: Environment, reply: Reply, iteration: nat) returns (step: Step)
      requires reply.Answer? && reply.calls == [] && AllAnswered(context.messages)
      modifies this`actions, this`nudges, context
      ensures step.Again? || step.Returned? ==> AllAnswered(context.messages)
      ensures !step.Closed?
      ensures if step.Returned? then EndsWithReturn(old(actions), actions, step.status) else actions == old(actions)
      ensures GoalStep(old(nudges), nudges, reply, step, iteration)
      ensures !env.overTokenLimit(reply.call) ==>
                Handled(env, reply, MayCheckGoals(limits, iteration, old(nudges)),
                        old(context.messages), context.messages, step)
    {
      if reply.content == "" {
        Yield(Return(Fallback));
        return Returned(Fallback);
      }
      var answer := FinalAnswer(reply.content);
      AppendPlain(context.messages, answer);
      Append(answer);
      if env.finalRaises(reply.call) {
        return Failure;
      }
      if iteration < limits.maxIterations {
        var injected := TryInjectGoalCheck(env, reply.call);
        if injected {
          return Again;
        }
      }
      Yield(Return(Completed));
      return Returned(Completed);
    }

    /** A goal check is injected only within the limit, and only when another iteration follows. */
    ghost predicate GoalStep(before: nat, after: nat, reply: Reply, step: Step, iteration: nat)
      requires reply.Answer?
    {
      && after == before + (if step.Again? && reply.calls == [] then 1 else 0)
      && (after == before || MayCheckGoals(limits, iteration, before))
    }

    /** What a usable reply leads to. */
    method HandleReply(env: Environment, reply: Reply, iteration: nat) returns (step: Step)
      requires reply.Answer? && AllAnswered(context.messages)
      modifies this`actions, this`nudges, context
      ensures step.Again? || step.Returned? ==> AllAnswered(context.messages)
      ensures step.Closed? ==> CutShort(context.messages)
      ensures StepYields(old(actions), actions, step)
      ensures GoalStep(old(nudges), nudges, reply, step, iteration)
      ensures Handled(env, reply, MayCheckGoals(limits, iteration, old(nudges)),
                      old(context.messages), context.messages, step)
      ensures env.llm(reply.call) == Replied(reply.content, reply.calls) && !env.overTokenLimit(reply.call) ==>
                && ReplyCallsFor(limits, env, iteration, old(nudges), reply.call, reply.content, reply.calls, step)
                && ReplyRecorded(env, reply.call, reply.content, reply.calls, old(context.messages), context.messages,
                                 step)
      ensures env.overTokenLimit(reply.call) ==> step == Returned(Overflow) && context.messages == old(context.messages)
    {
      if env.overTokenLimit(reply.call) {
        Yield(Return(Overflow));
        return Returned(Overflow);
      }
      if reply.calls != [] {
        var fate := RunTools(env, reply);
        match fate {
          case Raises => return Failure;
          case Closes => return Closed(true);
          case Proceeds => return Again;
        }
      }
      step := Finish(env, reply, iteration);
    }

    /** One iteration of the loop, the `iteration`-th. */
    method Iterate(env: Environment, iteration: nat) returns (step: Step)
      requires AllAnswered(context.messages)
      modifies this, context
      ensures Iterated(limits, env, iteration, old(Here()), Here(), step)
      ensures step.Again? || step.Returned? ==> AllAnswered(context.messages)
      ensures step == Closed(true) ==> CutShort(context.messages)
      ensures StepYields(old(actions), actions, step)
      ensures old(llmCalls) <= llmCalls <= old(llmCalls) + 3
      ensures old(RequestsAccepted()) ==> RequestsAccepted()
      ensures nudges == old(nudges)
           || (nudges == old(nudges) + 1 && nudges <= limits.nudgeLimit && step.Again?
               && iteration < limits.maxIterations)
    {
      hide Asked, Windowed, AskedUntil, Handled, AllAnswered, CutShort, Extends, SameShape, RequestsAccepted;
      hide AskedFor, WindowedAs, ReplyCallsFor, ReplyRecorded;
      ghost var was := Here();
      var fate := CheckWindow(env, iteration);
      ghost var before := actions;
      match fate {
        case Raises => return Failure;
        case Closes => return Closed(false);
        case Proceeds =>
      }
      var reply := AskModel(env);
      match reply {
        case Raised => step := Failure;
        case Incomplete => step := Returned(Error);
        case Answer(_, _, _) => step := HandleReply(env, reply, iteration);
      }
      assert LedBy(limits, env, iteration, was, Here(), step, reply);
      StepYieldsAfter(old(actions), before, actions, step);
    }

    /** Runs iterations until one returns, fails or is closed, or their number is spent. */
    method RunLoop(env: Environment) returns (step: Step, ghost trace: seq<Point>)
      requires AllAnswered(context.messages)
      requires nudges == llmCalls == 0 && actions == [] && requests == []
      modifies this, context
      ensures Traced(limits, env, trace) && trace[0] == old(Here())
      ensures Ended(limits, env, trace, Here(), step)
      ensures Quiet(env) ==> step.Returned?
      ensures !step.Returned? ==> Cause(env, |trace|, trace[|trace| - 1].calls, llmCalls, step)
      ensures Uncompressed(env) ==> Continues(old(context.messages), context.messages)
      ensures !step.Again?
      ensures step.Returned? || step.Failure? ==> AllAnswered(context.messages)
      ensures step == Closed(true) ==> CutShort(context.messages)
      ensures StepYields([], actions, step)
      ensures llmCalls <= 3 * limits.Iterations()
      ensures nudges == 0 || (nudges <= limits.nudgeLimit && nudges <= limits.maxIterations - 1)
      ensures step.Returned? && |trace| <= limits.maxIterations ==>
                Verdict(env, llmCalls, context.messages, step.status)
      ensures RunOutcome(limits, env, trace, Here(), step)
      ensures step == Returned(Completed) ==>
                && |trace| <= limits.maxIterations && llmCalls > 0
                && (!env.goalOpen(llmCalls - 1) || nudges >= limits.nudgeLimit || |trace| == limits.maxIterations)
      ensures RequestsAccepted()
    {
      hide Iterated, Ended, Reread, SameShape, Verdict, Cause, Continues, Quiet, Uncompressed, CutShort, RunOutcome;
      var iteration := 0;
      trace := [Here()];
      while iteration < limits.maxIterations
        invariant 0 <= iteration <= limits.Iterations() && |trace| == iteration + 1
        invariant Traced(limits, env, trace) && TraceAnswered(trace)
        invariant trace[0] == old(Here()) && trace[iteration] == Here()
        invariant RequestsAccepted() && NoReturn(actions)
        invariant llmCalls <= 3 * iteration
        invariant nudges == 0 || (nudges <= limits.nudgeLimit && nudges <= limits.maxIterations - 1)
        invariant nudges <= iteration
      {
        iteration := iteration + 1;
        var previousMessages, before := context.messages, actions;
        step := Iterate(env, iteration);
        ghost var now := Here();
        StepYieldsAfter([], before, actions, step);
        if step.Failure? {
          context.messages := Reread(previousMessages, env.restored);
          RereadKeeps(previousMessages, env.restored);
        }
        if !step.Again? {
          EndedAfter(limits, env, trace, now, Here(), step);
          RunFacts(limits, env, trace, Here(), step);
          RunEndsSo(limits, env, trace, Here(), step);
          return;
        }
        TracedOneMore(limits, env, trace, Here());
        trace := trace + [Here()];
      }
      Yield(Return(Overflow));
      step := Returned(Overflow);
      EndedSpent(limits, env, trace);
      RunFacts(limits, env, trace, Here(), step);
      RunEndsSo(limits, env, trace, Here(), step);
    }

    /** Adds the rows other terminals wrote since this turn's last look at the history. */
    method SyncExternalRows(rows: seq<(bool, string)>)
      modifies context
      ensures context.messages == old(context.messages) + Rows(rows)
      ensures |context.messages| == |old(context.messages)| + |rows| && old(context.messages) <= context.messages
      ensures forall k :: 0 <= k < |rows| ==>
                context.messages[|old(context.messages)| + k]
                == Message(if rows[k].0 then User else Assistant, NoCalls, None, rows[k].1)
    {
      ghost var was := context.messages;
      for i := 0 to |rows|
        invariant context.messages == was + Rows(rows)[..i]
      {
        Append(RowMessage(rows[i]));
        assert Rows(rows)[..i + 1] == Rows(rows)[..i] + [Rows(rows)[i]];
      }
    }

    /** Merges what other terminals added, repairs what an earlier turn left open and adds the user's text. */
    method PrepareTurn(env: Environment, text: string)
      modifies this, context
      ensures context.messages == Repair(old(context.messages) + Rows(env.externalRows)) + [UserText(text)]
      ensures |Rows(env.externalRows)| == |env.externalRows|
      ensures forall k :: 0 <= k < |env.externalRows| ==>
                Rows(env.externalRows)[k]
                == Message(if env.externalRows[k].0 then User else Assistant, NoCalls, None, env.externalRows[k].1)
      ensures context.messages[|context.messages| - 1] == Message(User, NoCalls, None, text)
      ensures AllAnswered(context.messages)
      ensures nudges == llmCalls == 0 && actions == [] && requests == []
    {
      SyncExternalRows(env.externalRows);
      ghost var merged := context.messages;
      var inserted := context.RepairDanglingAssistantToolCalls();
      nudges, llmCalls, actions, requests := 0, 0, [], [];
      Append(UserText(text));
      OpensAnswered(merged, text);
    }

    /** A whole turn. The final repair has work only if the turn was closed without a rollback. */
    method ProcessInput(env: Environment, text: string)
      returns (step: Step, inserted: nat, ghost trace: seq<Point>, ghost left: Point)
      modifies this, context
      ensures AllAnswered(context.messages)
      ensures Traced(limits, env, trace) && Ended(limits, env, trace, left, step)
      ensures trace[0] == Point(Repair(old(context.messages) + Rows(env.externalRows)) + [UserText(text)], 0, 0)
      ensures Here() == left.(messages := Repair(left.messages)) && inserted == |UnansweredIds(left.messages)|
      ensures step.Returned? || step.Failure? ==> inserted == 0 && context.messages == left.messages
      ensures step == Closed(true) ==> CutShort(left.messages)
      ensures step == Closed(true) ==> context.messages == left.messages + Synthesised(UnansweredIds(left.messages))
      ensures Quiet(env) ==> step.Returned?
      ensures !step.Returned? ==> Cause(env, |trace|, trace[|trace| - 1].calls, llmCalls, step)
      ensures Uncompressed(env) ==> Continues(trace[0].messages, context.messages)
      ensures !step.Again? && StepYields([], actions, step)
      ensures llmCalls <= 3 * limits.Iterations()
      ensures nudges == 0 || (nudges <= limits.nudgeLimit && nudges <= limits.maxIterations - 1)
      ensures step.Returned? && |trace| <= limits.maxIterations ==>
                Verdict(env, llmCalls, context.messages, step.status)
      ensures RunOutcome(limits, env, trace, left, step)
      ensures step == Returned(Completed) ==>
                && |trace| <= limits.maxIterations && llmCalls > 0
                && (!env.goalOpen(llmCalls - 1) || nudges >= limits.nudgeLimit || |trace| == limits.maxIterations)
      ensures RequestsAccepted()
    {
      hide Iterated, Ended, Traced, Verdict, Continues, Quiet, CutShort, RunOutcome;
      hide Repair, AllAnswered, UnansweredIds, RequestsAccepted;
      PrepareTurn(env, text);
      ghost var start := Here();
      step, trace := RunLoop(env);
      left := Here();
      inserted := context.RepairDanglingAssistantToolCalls();
      FinalRepair(limits, env, start.messages, left.messages, step);
      assert RequestsAccepted();
    }
  }
}
