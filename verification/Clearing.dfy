/**
 Shrinking tool results in place: oversized results anywhere, stale results beyond the most
 recent ones. Only contents change, so the pairing of calls and answers does not.
 */
module Clearing {
  import opened Text
  import opened Conversation
  import opened TokenBudget

  const CLEARED_MARKER: string := "[cleared tool_result"
  const SCRUBBED_MARKER: string := "[scrubbed oversized tool_result"

  datatype ScrubOutcome = ScrubOutcome(scrubbed: nat, skippedOk: nat, skippedAlready: nat)

  datatype ClearingOutcome = ClearingOutcome(cleared: nat, kept: nat, skippedSmall: nat, skippedAlready: nat)

  predicate AlreadyCleared(content: string) {
    var t := StripLeft(content);
    CLEARED_MARKER <= t || SCRUBBED_MARKER <= t
  }

  /** The text shows a placeholder: one of the two markers, behind nothing but blanks. */
  ghost predicate ShowsPlaceholder(content: string) {
    exists n :: 0 <= n <= |content|
      && (forall k :: 0 <= k < n ==> IsSpace(content[k]))
      && (CLEARED_MARKER <= content[n..] || SCRUBBED_MARKER <= content[n..])
  }

  /** What starts with a bracket after some blanks does so where trimming starts. */
  lemma BracketBehindBlanks(content: string, n: nat, m: nat)
    requires n <= |content| && m < |content| && content[m] == '['
    requires forall k :: 0 <= k < n ==> IsSpace(content[k])
    requires forall k :: 0 <= k < m ==> IsSpace(content[k])
    requires n == |content| || !IsSpace(content[n])
    ensures m == n
  {
    assert !IsSpace('[');
  }

  lemma AlreadyClearedIff(content: string)
    ensures AlreadyCleared(content) <==> ShowsPlaceholder(content)
  {
    hide IsSpace, StripLeft;
    var n := LeftStripped(content);
    if ShowsPlaceholder(content) {
      var m :| 0 <= m <= |content| && (forall k :: 0 <= k < m ==> IsSpace(content[k]))
        && (CLEARED_MARKER <= content[m..] || SCRUBBED_MARKER <= content[m..]);
      assert content[m] == content[m..][0] == '[';
      BracketBehindBlanks(content, n, m);
    }
  }

  /** The short text left in place of a result; `overflowPath` is empty when no dump was found. */
  function Placeholder(marker: string, callId: Option<string>, tokens: nat, overflowPath: string): string {
    var id := if callId.Some? && callId.value != "" then callId.value else "unknown";
    var hint := if overflowPath != "" then " re-fetch via overflow_path=" + overflowPath
                else " re-call tool or read prior overflow dump if any";
    marker + (" id=" + id + "; original~" + Decimal(tokens) + " tokens;" + hint + "]")
  }

  function Replaced(m: Message, marker: string, pathOf: string -> string): Message {
    m.(content := Placeholder(marker, m.toolCallId, Estimate(m.content), pathOf(m.content)))
  }

  /** Same messages up to their contents, and only tool messages may differ. */
  ghost predicate SameShape(a: seq<Message>, b: seq<Message>) {
    && |a| == |b|
    && forall i :: 0 <= i < |a| ==>
         && a[i].(content := b[i].content) == b[i]
         && (!a[i].role.Tool? ==> a[i] == b[i])
  }

  lemma ShapeKeepsRuns(a: seq<Message>, b: seq<Message>, i: int, k: int)
    requires SameShape(a, b)
    ensures InRunAfter(a, i, k) <==> InRunAfter(b, i, k)
  {
    if InRunAfter(a, i, k) || InRunAfter(b, i, k) {
      assert forall m :: i < m <= k ==> a[m].(content := b[m].content) == b[m];
    }
  }

  /** Shrinking contents neither breaks nor repairs the pairing of calls and answers. */
  lemma ShapeKeepsPairing(a: seq<Message>, b: seq<Message>)
    requires SameShape(a, b)
    ensures AllAnswered(a) <==> AllAnswered(b)
    ensures AllHeaded(a) <==> AllHeaded(b)
  {
    forall i, id | 0 <= i < |a| ensures AnsweredInRun(a, i, id) <==> AnsweredInRun(b, i, id) {
      forall k ensures InRunAfter(a, i, k) <==> InRunAfter(b, i, k) { ShapeKeepsRuns(a, b, i, k); }
    }
    forall k | 0 <= k < |a| ensures Headed(a, k) <==> Headed(b, k) {
      forall h ensures InRunAfter(a, h, k) <==> InRunAfter(b, h, k) { ShapeKeepsRuns(a, b, h, k); }
    }
  }

  // ---- Oversized results

  /** A tool result above the limit, whether or not it was replaced before. */
  predicate Oversized(m: Message, maxTokens: int) {
    maxTokens > 0 && m.role.Tool? && Estimate(m.content) > maxTokens
  }

  /** Only the contents of oversized results differ, and they start with the marker. */
  ghost predicate ScrubbedAs(was: seq<Message>, now: seq<Message>, maxTokens: int) {
    && |was| == |now|
    && forall i :: 0 <= i < |was| ==>
         if was[i].role.Tool? && 0 < maxTokens < Estimate(was[i].content)
         then now[i] == was[i].(content := now[i].content) && SCRUBBED_MARKER <= now[i].content
         else now[i] == was[i]
  }

  lemma ScrubAllAs(ms: seq<Message>, maxTokens: int, pathOf: string -> string)
    ensures ScrubbedAs(ms, ScrubAll(ms, maxTokens, pathOf), maxTokens)
  {
    hide Estimate;
  }

  function ScrubOne(m: Message, maxTokens: int, pathOf: string -> string): Message {
    if Oversized(m, maxTokens) then Replaced(m, SCRUBBED_MARKER, pathOf) else m
  }

  function ScrubAll(ms: seq<Message>, maxTokens: int, pathOf: string -> string): seq<Message> {
    seq(|ms|, i requires 0 <= i < |ms| => ScrubOne(ms[i], maxTokens, pathOf))
  }

  /** Decides the fate of one message and counts it. */
  method ScrubStep(m: Message, maxTokens: int, pathOf: string -> string, soFar: ScrubOutcome)
    returns (m': Message, outcome: ScrubOutcome)
    requires maxTokens > 0
    ensures m' == ScrubOne(m, maxTokens, pathOf)
    ensures outcome.scrubbed == soFar.scrubbed + (if Oversized(m, maxTokens) then 1 else 0)
  {
    m', outcome := m, soFar;
    if !m.role.Tool? {
      return;
    }
    var tokens := EstimateTokens(m.content);
    if AlreadyCleared(m.content) {
      if tokens <= maxTokens {
        outcome := outcome.(skippedAlready := outcome.skippedAlready + 1);
        return;
      }
    } else if tokens <= maxTokens {
      outcome := outcome.(skippedOk := outcome.skippedOk + 1);
      return;
    }
    m' := Replaced(m, SCRUBBED_MARKER, pathOf);
    outcome := outcome.(scrubbed := outcome.scrubbed + 1);
  }

  method ScrubOversizedToolResults(ctx: ConversationContext, maxTokens: int, pathOf: string -> string)
    returns (outcome: ScrubOutcome)
    modifies ctx
    ensures ctx.messages == ScrubAll(old(ctx.messages), maxTokens, pathOf)
    ensures ScrubbedAs(old(ctx.messages), ctx.messages, maxTokens)
    ensures outcome.scrubbed == 0 <==> forall m :: m in old(ctx.messages) ==> !Oversized(m, maxTokens)
  {
    ScrubAllAs(ctx.messages, maxTokens, pathOf);
    outcome := ScrubOutcome(0, 0, 0);
    ghost var was := ctx.messages;
    if ctx.messages == [] || maxTokens <= 0 {
      return;
    }
    for i := 0 to |ctx.messages|
      invariant |ctx.messages| == |was|
      invariant ctx.messages[i..] == was[i..]
      invariant ctx.messages[..i] == ScrubAll(was, maxTokens, pathOf)[..i]
      invariant outcome.scrubbed == 0 <==> forall j :: 0 <= j < i ==> !Oversized(was[j], maxTokens)
    {
      var m;
      m, outcome := ScrubStep(ctx.messages[i], maxTokens, pathOf, outcome);
      assert ctx.messages[i] == was[i..][0];
      ctx.messages := ctx.messages[i := m];
    }
  }

  lemma ScrubKeepsShape(ms: seq<Message>, maxTokens: int, pathOf: string -> string)
    ensures SameShape(ms, ScrubAll(ms, maxTokens, pathOf))
  {
  }

  /** What scrubbing leaves in place of a message. */
  function ScrubText(m: Message, pathOf: string -> string): string {
    Placeholder(SCRUBBED_MARKER, m.toolCallId, Estimate(m.content), pathOf(m.content))
  }

  /** The id a placeholder names. */
  function ShownId(callId: Option<string>): string {
    if callId.Some? && callId.value != "" then callId.value else "unknown"
  }

  /**
   What a placeholder costs: three quarters of the characters of its id, its token count, its path or
   the hint in its place and 83 or 103 fixed ones, and five more twelfths for each CJK character.
   */
  function PlaceholderTokens(callId: Option<string>, tokens: nat, path: string): nat {
    var id := ShownId(callId);
    var fixed := if path == "" then 103 else 83;
    (3 * (fixed + |id| + Digits(tokens) + |path|) + 5 * (Cjk(id) + Cjk(path))) / 12 + 1
  }

  const FETCH_HINT: string := " re-fetch via overflow_path="
  const RECALL_HINT: string := " re-call tool or read prior overflow dump if any"

  /** The fixed parts of a placeholder hold no CJK characters. */
  lemma FrameWeight()
    ensures TotalWeight(SCRUBBED_MARKER) == 93 && TotalWeight(" id=") == 12 && TotalWeight("; original~") == 33
    ensures TotalWeight(" tokens;") == 24 && TotalWeight("]") == 3
  {
    hide TotalWeight;
    PlainWeight(SCRUBBED_MARKER);
    PlainWeight(" id=");
    PlainWeight("; original~");
    PlainWeight(" tokens;");
    PlainWeight("]");
  }

  lemma HintWeight()
    ensures TotalWeight(FETCH_HINT) == 84 && TotalWeight(RECALL_HINT) == 144
  {
    hide TotalWeight;
    PlainWeight(FETCH_HINT);
    PlainWeight(RECALL_HINT);
  }

  lemma PartsWeight(id: string, tokens: nat, path: string)
    ensures TotalWeight(id) == 3 * |id| + 5 * Cjk(id) && TotalWeight(path) == 3 * |path| + 5 * Cjk(path)
    ensures TotalWeight(Decimal(tokens)) == 3 * Digits(tokens)
  {
    hide TotalWeight, Cjk, Decimal, Digits;
    WeightByCjk(id);
    WeightByCjk(path);
    DecimalDigits(tokens);
    PlainWeight(Decimal(tokens));
  }

  /** A placeholder, part by part: its marker, the id, the token count and the path or a hint in its place. */
  lemma PlaceholderParts(marker: string, callId: Option<string>, tokens: nat, path: string)
    ensures Placeholder(marker, callId, tokens, path)
         == marker + " id=" + ShownId(callId) + "; original~" + Decimal(tokens) + " tokens;"
            + ((if path == "" then RECALL_HINT else FETCH_HINT) + path) + "]"
  {
    hide Decimal;
    assert RECALL_HINT + "" == RECALL_HINT;
    FrontApart(marker, " id=", ShownId(callId), "; original~", Decimal(tokens), " tokens;",
               (if path == "" then RECALL_HINT else FETCH_HINT) + path, "]");
  }

  lemma FrontApart(a: string, b: string, c: string, d: string, e: string, f: string, g: string, h: string)
    ensures a + (b + c + d + e + f + g + h) == a + b + c + d + e + f + g + h
  {
  }

  lemma ScrubCost(m: Message, pathOf: string -> string)
    ensures Estimate(ScrubText(m, pathOf)) == PlaceholderTokens(m.toolCallId, Estimate(m.content), pathOf(m.content))
  {
    hide Decimal, Digits, TotalWeight, Cjk, ShownId, Placeholder;
    var id, tokens, path := ShownId(m.toolCallId), Estimate(m.content), pathOf(m.content);
    var hint := if path == "" then RECALL_HINT else FETCH_HINT;
    PlaceholderParts(SCRUBBED_MARKER, m.toolCallId, tokens, path);
    SumWeight(SCRUBBED_MARKER, " id=", id, "; original~", Decimal(tokens), " tokens;", hint + path, "]");
    WeightConcat(hint, path);
    FrameWeight();
    HintWeight();
    PartsWeight(id, tokens, path);
    assert ScrubText(m, pathOf) != "";
  }

  lemma SumWeight(a: string, b: string, c: string, d: string, e: string, f: string, g: string, h: string)
    ensures TotalWeight(a + b + c + d + e + f + g + h)
         == TotalWeight(a) + TotalWeight(b) + TotalWeight(c) + TotalWeight(d)
            + TotalWeight(e) + TotalWeight(f) + TotalWeight(g) + TotalWeight(h)
  {
    hide TotalWeight;
    WeightConcat(a, b);
    WeightConcat(a + b, c);
    WeightConcat(a + b + c, d);
    WeightConcat(a + b + c + d, e);
    WeightConcat(a + b + c + d + e, f);
    WeightConcat(a + b + c + d + e + f, g);
    WeightConcat(a + b + c + d + e + f + g, h);
  }

  /** Scrubbing brings every tool result under the limit exactly when the limit reaches the placeholders' cost. */
  lemma ScrubSettles(ms: seq<Message>, maxTokens: int, pathOf: string -> string)
    ensures (forall m :: m in ScrubAll(ms, maxTokens, pathOf) ==> !Oversized(m, maxTokens))
       <==> (forall m :: m in ms && Oversized(m, maxTokens) ==>
               PlaceholderTokens(m.toolCallId, Estimate(m.content), pathOf(m.content)) <= maxTokens)
  {
    hide PlaceholderTokens, Placeholder, Estimate;
    var all := ScrubAll(ms, maxTokens, pathOf);
    forall m | m in ms && Oversized(m, maxTokens)
      ensures Replaced(m, SCRUBBED_MARKER, pathOf) in all
      ensures Estimate(Replaced(m, SCRUBBED_MARKER, pathOf).content)
           == PlaceholderTokens(m.toolCallId, Estimate(m.content), pathOf(m.content))
    {
      var i :| 0 <= i < |ms| && ms[i] == m;
      assert all[i] == Replaced(m, SCRUBBED_MARKER, pathOf);
      ScrubCost(m, pathOf);
    }
    forall m' | m' in all ensures exists m :: m in ms && m' == ScrubOne(m, maxTokens, pathOf) {
      var i :| 0 <= i < |all| && all[i] == m';
      assert ms[i] in ms;
    }
  }

  /** No placeholder is cheaper than 22 tokens. */
  lemma PlaceholderCost(m: Message, pathOf: string -> string)
    ensures Estimate(ScrubText(m, pathOf)) >= 22
  {
    hide ScrubText, Estimate;
    ScrubCost(m, pathOf);
  }

  /** Under a limit of 21 tokens or less, what was too large stays too large, however often it is scrubbed. */
  lemma SmallLimitNeverSettles(m: Message, maxTokens: int, pathOf: string -> string)
    requires maxTokens <= 21
    ensures Oversized(ScrubOne(m, maxTokens, pathOf), maxTokens) <==> Oversized(m, maxTokens)
  {
    PlaceholderCost(m, pathOf);
  }

  // ---- Stale results

  /** How many of the first `n` messages are tool messages. */
  function ToolsBelow(ms: seq<Message>, n: nat): (count: nat)
    requires n <= |ms|
    ensures count <= n
  {
    if n == 0 then 0 else ToolsBelow(ms, n - 1) + (if ms[n - 1].role.Tool? then 1 else 0)
  }

  /** How many tool messages come after position `i`. */
  function YoungerTools(ms: seq<Message>, i: nat): int
    requires i < |ms|
  {
    ToolsBelow(ms, |ms|) - ToolsBelow(ms, i + 1)
  }

  /** A tool result with at least `keepRecent` younger ones, not yet replaced, above the size floor. */
  predicate Stale(ms: seq<Message>, i: nat, keepRecent: int, minTokens: int)
    requires i < |ms|
  {
    && keepRecent >= 0
    && ms[i].role.Tool?
    && YoungerTools(ms, i) >= keepRecent
    && !AlreadyCleared(ms[i].content)
    && Estimate(ms[i].content) > minTokens
    && Estimate(ms[i].content) > 0
  }

  function ClearOne(ms: seq<Message>, i: nat, keepRecent: int, minTokens: int, pathOf: string -> string): Message
    requires i < |ms|
  {
    if Stale(ms, i, keepRecent, minTokens) then Replaced(ms[i], CLEARED_MARKER, pathOf) else ms[i]
  }

  function ClearAll(ms: seq<Message>, keepRecent: int, minTokens: int, pathOf: string -> string): seq<Message> {
    seq(|ms|, i requires 0 <= i < |ms| => ClearOne(ms, i, keepRecent, minTokens, pathOf))
  }

  /** The positions of the tool messages among the first `n`, oldest first. */
  function ToolPositions(ms: seq<Message>, n: nat): (idx: seq<nat>)
    requires n <= |ms|
    ensures |idx| == ToolsBelow(ms, n)
    ensures forall p :: 0 <= p < |idx| ==> idx[p] < n
  {
    if n == 0 then []
    else if ms[n - 1].role.Tool? then ToolPositions(ms, n - 1) + [n - 1]
    else ToolPositions(ms, n - 1)
  }

  /** A tool message's place in the list of positions is the number of tool messages before it. */
  lemma {:induction false} ToolPositionRank(ms: seq<Message>, n: nat, p: nat)
    requires n <= |ms| && p < ToolsBelow(ms, n)
    ensures var i := ToolPositions(ms, n)[p];
            ms[i].role.Tool? && ToolsBelow(ms, i) == p && ToolsBelow(ms, i + 1) == p + 1
  {
    if p < ToolsBelow(ms, n - 1) {
      ToolPositionRank(ms, n - 1, p);
    }
  }

  lemma {:induction false} ToolPositionFound(ms: seq<Message>, n: nat, i: nat)
    requires i < n <= |ms| && ms[i].role.Tool?
    ensures ToolsBelow(ms, i) < ToolsBelow(ms, n) && ToolPositions(ms, n)[ToolsBelow(ms, i)] == i
  {
    if i < n - 1 {
      ToolPositionFound(ms, n - 1, i);
    }
  }

  /** The list of positions and the rank of a tool message among the first `n` messages undo each other. */
  lemma ToolPositionsInverse(ms: seq<Message>, n: nat)
    requires n <= |ms|
    ensures var idx := ToolPositions(ms, n);
            && (forall p :: 0 <= p < |idx| ==> ms[idx[p]].role.Tool? && ToolsBelow(ms, idx[p]) == p)
            && (forall i :: 0 <= i < n && ms[i].role.Tool? ==>
                  ToolsBelow(ms, i) < |idx| && idx[ToolsBelow(ms, i)] == i)
  {
    var idx := ToolPositions(ms, n);
    forall p | 0 <= p < |idx| ensures ms[idx[p]].role.Tool? && ToolsBelow(ms, idx[p]) == p {
      ToolPositionRank(ms, n, p);
    }
    forall i | 0 <= i < n && ms[i].role.Tool? ensures ToolsBelow(ms, i) < |idx| && idx[ToolsBelow(ms, i)] == i {
      ToolPositionFound(ms, n, i);
    }
  }

  method FindToolIndices(ms: seq<Message>) returns (idx: seq<nat>)
    ensures idx == ToolPositions(ms, |ms|)
  {
    idx := [];
    for i := 0 to |ms|
      invariant idx == ToolPositions(ms, i)
    {
      if ms[i].role.Tool? {
        idx := idx + [i];
      }
    }
  }

  /** Decides the fate of the tool message at `i`, of which `recent` says whether it is among the kept ones. */
  method ClearStep(msg: Message, ghost ms: seq<Message>, i: nat, recent: bool, keepRecent: int, minTokens: int,
                   pathOf: string -> string, soFar: ClearingOutcome)
    returns (m: Message, outcome: ClearingOutcome)
    requires keepRecent >= 0 && i < |ms| && ms[i] == msg && msg.role.Tool?
    requires recent <==> YoungerTools(ms, i) < keepRecent
    ensures m == ClearOne(ms, i, keepRecent, minTokens, pathOf)
    ensures outcome.cleared == soFar.cleared + (if Stale(ms, i, keepRecent, minTokens) then 1 else 0)
  {
    m, outcome := msg, soFar;
    if recent {
      outcome := outcome.(kept := outcome.kept + 1);
    } else if AlreadyCleared(m.content) {
      outcome := outcome.(skippedAlready := outcome.skippedAlready + 1);
    } else {
      var tokens := EstimateTokens(m.content);
      if tokens <= (if minTokens > 0 then minTokens else 0) {
        outcome := outcome.(skippedSmall := outcome.skippedSmall + 1);
      } else {
        m := Replaced(m, CLEARED_MARKER, pathOf);
        outcome := outcome.(cleared := outcome.cleared + 1);
      }
    }
  }

  /** `now` is `goal` at the first `p` tool messages and `was` everywhere else. */
  ghost predicate DoneUpTo(now: seq<Message>, was: seq<Message>, goal: seq<Message>, p: nat) {
    && |now| == |was| == |goal|
    && forall i :: 0 <= i < |was| ==>
         now[i] == if was[i].role.Tool? && ToolsBelow(was, i) < p then goal[i] else was[i]
  }

  /** The tool messages behind position `i`. */
  ghost function ToolsBehind(ms: seq<Message>, i: nat): set<nat> {
    set k | i < k < |ms| && ms[k].role.Tool?
  }

  lemma {:induction false} ToolsCounted(ms: seq<Message>, i: nat, n: nat)
    requires i < n <= |ms|
    ensures |set k: nat | i < k < n && ms[k].role.Tool?| == ToolsBelow(ms, n) - ToolsBelow(ms, i + 1)
  {
    var between := set k: nat | i < k < n && ms[k].role.Tool?;
    if n == i + 1 {
      assert between == {};
    } else {
      ToolsCounted(ms, i, n - 1);
      var before := set k: nat | i < k < n - 1 && ms[k].role.Tool?;
      assert n - 1 !in before;
      if ms[n - 1].role.Tool? {
        assert between == before + {n - 1};
      } else {
        assert between == before;
      }
    }
  }

  /**
   Only the contents of tool results differ that have at least `keepRecent` others behind them, show no
   placeholder and cost more than the floor; they start with the marker.
   */
  ghost predicate ClearedAs(was: seq<Message>, now: seq<Message>, keepRecent: int, minTokens: int) {
    && |was| == |now|
    && forall i :: 0 <= i < |was| ==>
         if && keepRecent >= 0 && was[i].role.Tool? && |ToolsBehind(was, i)| >= keepRecent
            && !ShowsPlaceholder(was[i].content)
            && Estimate(was[i].content) > (if minTokens > 0 then minTokens else 0)
         then now[i] == was[i].(content := now[i].content) && CLEARED_MARKER <= now[i].content
         else now[i] == was[i]
  }

  lemma ClearAllAs(ms: seq<Message>, keepRecent: int, minTokens: int, pathOf: string -> string)
    ensures ClearedAs(ms, ClearAll(ms, keepRecent, minTokens, pathOf), keepRecent, minTokens)
  {
    hide Estimate, AlreadyCleared, ShowsPlaceholder;
    forall i | 0 <= i < |ms|
      ensures |ToolsBehind(ms, i)| == YoungerTools(ms, i)
      ensures AlreadyCleared(ms[i].content) <==> ShowsPlaceholder(ms[i].content)
    {
      ToolsCounted(ms, i, |ms|);
      assert ToolsBehind(ms, i) == set k: nat | i < k < |ms| && ms[k].role.Tool?;
      AlreadyClearedIff(ms[i].content);
    }
  }

  method ClearStaleToolResults(ctx: ConversationContext, keepRecent: int, minTokens: int, pathOf: string -> string)
    returns (outcome: ClearingOutcome)
    modifies ctx
    ensures ctx.messages == ClearAll(old(ctx.messages), keepRecent, minTokens, pathOf)
    ensures ClearedAs(old(ctx.messages), ctx.messages, keepRecent, minTokens)
  {
    ClearAllAs(ctx.messages, keepRecent, minTokens, pathOf);
    outcome := ClearingOutcome(0, 0, 0, 0);
    ghost var was := ctx.messages;
    ghost var goal := ClearAll(was, keepRecent, minTokens, pathOf);
    if ctx.messages == [] || keepRecent < 0 {
      return;
    }
    var idx := FindToolIndices(ctx.messages);
    var firstKept := if keepRecent <= |idx| then |idx| - keepRecent else 0;
    for p := 0 to |idx|
      invariant DoneUpTo(ctx.messages, was, goal, p)
    {
      var i := idx[p];
      ToolPositionRank(was, |was|, p);
      var m;
      m, outcome := ClearStep(ctx.messages[i], was, i, p >= firstKept, keepRecent, minTokens, pathOf, outcome);
      StepDone(ctx.messages, was, goal, p);
      ctx.messages := ctx.messages[i := m];
    }
    AllDone(ctx.messages, was, goal);
  }

  lemma StepDone(now: seq<Message>, was: seq<Message>, goal: seq<Message>, p: nat)
    requires DoneUpTo(now, was, goal, p) && p < ToolsBelow(was, |was|)
    ensures var i := ToolPositions(was, |was|)[p]; DoneUpTo(now[i := goal[i]], was, goal, p + 1)
  {
    var i := ToolPositions(was, |was|)[p];
    ToolPositionRank(was, |was|, p);
    forall j | 0 <= j < |was| && was[j].role.Tool? ensures ToolsBelow(was, j) == p ==> j == i {
      ToolPositionFound(was, |was|, j);
    }
  }

  lemma AllDone(now: seq<Message>, was: seq<Message>, goal: seq<Message>)
    requires DoneUpTo(now, was, goal, ToolsBelow(was, |was|))
    requires forall i :: 0 <= i < |was| && !was[i].role.Tool? ==> goal[i] == was[i]
    ensures now == goal
  {
    forall i | 0 <= i < |was| ensures now[i] == goal[i] {
      if was[i].role.Tool? {
        ToolPositionFound(was, |was|, i);
      }
    }
  }

  /** Clearing touches contents only, and what is left needs no further clearing. */
  lemma ClearKeepsShapeAndIsIdempotent(ms: seq<Message>, keepRecent: int, minTokens: int, pathOf: string -> string)
    ensures SameShape(ms, ClearAll(ms, keepRecent, minTokens, pathOf))
    ensures var once := ClearAll(ms, keepRecent, minTokens, pathOf);
            ClearAll(once, keepRecent, minTokens, pathOf) == once
  {
    var once := ClearAll(ms, keepRecent, minTokens, pathOf);
    forall i | 0 <= i < |ms| ensures !Stale(once, i, keepRecent, minTokens) {
      if Stale(ms, i, keepRecent, minTokens) {
        PlaceholderRecognised(ms[i], pathOf);
      } else {
        ShapeKeepsToolCount(ms, once, |ms|);
        ShapeKeepsToolCount(ms, once, i + 1);
      }
    }
  }

  lemma PlaceholderRecognised(m: Message, pathOf: string -> string)
    ensures AlreadyCleared(Replaced(m, CLEARED_MARKER, pathOf).content)
  {
    var t := Replaced(m, CLEARED_MARKER, pathOf).content;
    assert t[0] == CLEARED_MARKER[0] == '[';
    assert StripLeft(t) == t;
    assert CLEARED_MARKER <= t;
  }

  lemma {:induction false} ShapeKeepsToolCount(a: seq<Message>, b: seq<Message>, n: nat)
    requires n <= |a| == |b| && forall i :: 0 <= i < |a| ==> a[i].role == b[i].role
    ensures ToolsBelow(a, n) == ToolsBelow(b, n)
  {
    if n > 0 {
      ShapeKeepsToolCount(a, b, n - 1);
    }
  }
}
