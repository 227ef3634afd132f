/**
 The message list of a conversation and the repair that keeps tool calls answered.

 A chat API rejects a history in which an assistant message asks for tool calls and the tool
 messages right after it do not answer every one of them. `AllAnswered` is that requirement.
 */
module Conversation {
  import opened Text

  datatype Role = User | Assistant | Tool | OtherRole(name: string)

  /** One element of `tool_calls`; an element that is not an object carries no id. */
  datatype CallEntry = NotAnObject | Call(id: Option<string>)

  /** `tool_calls`: absent or empty-valued, a value that is true but no list, or a list. */
  datatype ToolCalls = NoCalls | NotAList | Calls(entries: seq<CallEntry>)

  datatype Message = Message(role: Role, toolCalls: ToolCalls, toolCallId: Option<string>, content: string)

  const SYNTH_INTERRUPTED_TOOL: string := "(the tool call was interrupted; no output)"

  // ---- What a single message asks for and answers

  predicate HasToolCalls(m: Message) {
    m.toolCalls.NotAList? || (m.toolCalls.Calls? && m.toolCalls.entries != [])
  }

  predicate IsCaller(m: Message) {
    m.role.Assistant? && HasToolCalls(m)
  }

  /** An id that is present and not blank, trimmed. */
  function UsableId(id: Option<string>): Option<string> {
    if id.Some? && Strip(id.value) != "" then Some(Strip(id.value)) else None
  }

  function CallIds(entries: seq<CallEntry>): seq<string> {
    if entries == [] then []
    else
      var id := if entries[0].Call? then UsableId(entries[0].id) else None;
      (if id.Some? then [id.value] else []) + CallIds(entries[1..])
  }

  function RequiredIds(m: Message): seq<string> {
    if m.role.Assistant? && m.toolCalls.Calls? then CallIds(m.toolCalls.entries) else []
  }

  function AnswerId(m: Message): Option<string> {
    UsableId(m.toolCallId)
  }

  function Interrupted(id: string): Message {
    Message(Tool, NoCalls, Some(id), SYNTH_INTERRUPTED_TOOL)
  }

  // ---- Pairing, stated on positions

  /** Position `k` belongs to the tool run that directly follows position `i`. */
  ghost predicate InRunAfter(ms: seq<Message>, i: int, k: int) {
    && 0 <= i < k < |ms|
    && forall m :: i < m <= k ==> ms[m].role.Tool?
  }

  ghost predicate AnsweredInRun(ms: seq<Message>, i: int, id: string) {
    exists k :: InRunAfter(ms, i, k) && AnswerId(ms[k]) == Some(id)
  }

  /** Every id an assistant message asks for is answered in the tool run right after it. */
  ghost predicate AllAnswered(ms: seq<Message>) {
    forall i, id :: 0 <= i < |ms| && id in RequiredIds(ms[i]) ==> AnsweredInRun(ms, i, id)
  }

  /** The tool message at `k` sits in a run headed by an assistant message with tool calls. */
  ghost predicate Headed(ms: seq<Message>, k: int) {
    exists h :: InRunAfter(ms, h, k) && ms[h].role.Assistant? && ms[h].toolCalls !in {NoCalls, Calls([])}
  }

  ghost predicate AllHeaded(ms: seq<Message>) {
    forall k :: 0 <= k < |ms| && ms[k].role.Tool? ==> Headed(ms, k)
  }

  /** The entry is a call with an id that is not blank. */
  ghost predicate HasId(e: CallEntry) {
    e.Call? && e.id.Some? && Strip(e.id.value) != ""
  }

  /** The entry at `c` of the message at `i` asks for an answer. */
  ghost predicate AsksAt(ms: seq<Message>, i: int, c: int) {
    && 0 <= i < |ms| && ms[i].role.Assistant? && ms[i].toolCalls.Calls?
    && 0 <= c < |ms[i].toolCalls.entries| && HasId(ms[i].toolCalls.entries[c])
  }

  /** The message at `k` gives back the same id, up to blanks around it. */
  ghost predicate AnswersAt(ms: seq<Message>, i: int, c: int, k: int)
    requires AsksAt(ms, i, c)
  {
    && InRunAfter(ms, i, k) && ms[k].toolCallId.Some?
    && Strip(ms[k].toolCallId.value) == Strip(ms[i].toolCalls.entries[c].id.value)
  }

  /** `ids` are the trimmed ids of the entries that have one: those at the increasing positions `at`. */
  ghost predicate IdsOf(entries: seq<CallEntry>, at: seq<nat>, ids: seq<string>) {
    |at| == |ids| && Increasing(at) && TakenAt(entries, at, ids) && AllTaken(entries, at)
  }

  ghost predicate Increasing(at: seq<nat>) {
    forall j, k :: 0 <= j < k < |at| ==> at[j] < at[k]
  }

  ghost predicate TakenAt(entries: seq<CallEntry>, at: seq<nat>, ids: seq<string>)
    requires |at| == |ids|
  {
    forall k :: 0 <= k < |at| ==>
      at[k] < |entries| && HasId(entries[at[k]]) && ids[k] == Strip(entries[at[k]].id.value)
  }

  ghost predicate AllTaken(entries: seq<CallEntry>, at: seq<nat>) {
    forall c :: 0 <= c < |entries| && HasId(entries[c]) ==> c in at
  }

  /** The positions one further, behind position 0 if `own`. */
  function Further(own: bool, at: seq<nat>): seq<nat> {
    (if own then [0] else []) + seq(|at|, k requires 0 <= k < |at| => at[k] + 1)
  }

  lemma FurtherAt(own: bool, at: seq<nat>)
    ensures |Further(own, at)| == |at| + (if own then 1 else 0)
    ensures own ==> Further(own, at)[0] == 0
    ensures forall k :: 0 <= k < |at| ==> Further(own, at)[if own then k + 1 else k] == at[k] + 1
    ensures forall p :: p in at ==> p + 1 in Further(own, at)
  {
    var further := Further(own, at);
    forall p | p in at ensures p + 1 in further {
      var k :| 0 <= k < |at| && at[k] == p;
      assert further[if own then k + 1 else k] == p + 1;
    }
  }

  lemma FurtherIncreasing(own: bool, at: seq<nat>)
    requires Increasing(at)
    ensures Increasing(Further(own, at))
  {
  }

  lemma FurtherTaken(e: CallEntry, entries: seq<CallEntry>, at: seq<nat>, ids: seq<string>)
    requires |at| == |ids| && TakenAt(entries, at, ids)
    ensures TakenAt([e] + entries, Further(HasId(e), at), (if HasId(e) then [Strip(e.id.value)] else []) + ids)
  {
    hide HasId, Strip;
  }

  lemma FurtherAll(e: CallEntry, entries: seq<CallEntry>, at: seq<nat>)
    requires AllTaken(entries, at)
    ensures AllTaken([e] + entries, Further(HasId(e), at))
  {
    hide HasId, Further;
    FurtherAt(HasId(e), at);
    forall c | 0 <= c < |[e] + entries| && HasId(([e] + entries)[c]) ensures c in Further(HasId(e), at) {
      if c > 0 {
        assert HasId(entries[c - 1]) && c - 1 in at;
      }
    }
  }

  /** The ids collected from the entries are those of the calls that have one, trimmed, in order. */
  lemma {:induction false} CallIdsAt(entries: seq<CallEntry>) returns (at: seq<nat>)
    ensures IdsOf(entries, at, CallIds(entries))
  {
    at := [];
    if entries != [] {
      var e, rest := entries[0], entries[1..];
      var later := CallIdsAt(rest);
      at := Further(HasId(e), later);
      FurtherAt(HasId(e), later);
      FurtherIncreasing(HasId(e), later);
      FurtherTaken(e, rest, later, CallIds(rest));
      FurtherAll(e, rest, later);
      hide Increasing, TakenAt, AllTaken, Further, Strip;
      assert entries == [e] + rest;
      assert CallIds(entries) == (if HasId(e) then [Strip(e.id.value)] else []) + CallIds(rest);
    }
  }

  /** In plain terms: every call with an id has, in the run behind its message, a tool message with that id. */
  lemma AnsweredPlainly(ms: seq<Message>)
    ensures AllAnswered(ms) <==> forall i, c :: AsksAt(ms, i, c) ==> exists k :: AnswersAt(ms, i, c, k)
  {
    hide Strip, CallIds;
    forall i, c | AsksAt(ms, i, c)
      ensures Strip(ms[i].toolCalls.entries[c].id.value) in RequiredIds(ms[i])
      ensures AnsweredInRun(ms, i, Strip(ms[i].toolCalls.entries[c].id.value)) <==> exists k :: AnswersAt(ms, i, c, k)
    {
      var at := CallIdsAt(ms[i].toolCalls.entries);
      var k :| 0 <= k < |at| && at[k] == c;
      assert CallIds(ms[i].toolCalls.entries)[k] == Strip(ms[i].toolCalls.entries[c].id.value);
      AnswerPlainly(ms, i, c);
    }
    forall i, id | 0 <= i < |ms| && id in RequiredIds(ms[i])
      ensures exists c :: AsksAt(ms, i, c) && Strip(ms[i].toolCalls.entries[c].id.value) == id
    {
      var at := CallIdsAt(ms[i].toolCalls.entries);
      var k :| 0 <= k < |at| && RequiredIds(ms[i])[k] == id;
      assert AsksAt(ms, i, at[k]);
    }
  }

  lemma AnswerPlainly(ms: seq<Message>, i: int, c: int)
    requires AsksAt(ms, i, c)
    ensures AnsweredInRun(ms, i, Strip(ms[i].toolCalls.entries[c].id.value)) <==> exists k :: AnswersAt(ms, i, c, k)
  {
    hide Strip;
    var id := Strip(ms[i].toolCalls.entries[c].id.value);
    forall k | InRunAfter(ms, i, k) ensures AnswerId(ms[k]) == Some(id) <==> AnswersAt(ms, i, c, k) {}
  }

  // ---- The repair, as a function of the list

  function LeadingTools(ms: seq<Message>): (n: nat)
    ensures n <= |ms|
  {
    if ms == [] || !ms[0].role.Tool? then 0 else 1 + LeadingTools(ms[1..])
  }

  function IdSet(id: Option<string>): set<string> {
    if id.Some? then {id.value} else {}
  }

  /** The ids answered by the tool run a list starts with. */
  function LeadingAnswers(ms: seq<Message>): set<string> {
    if ms == [] || !ms[0].role.Tool? then {} else IdSet(AnswerId(ms[0])) + LeadingAnswers(ms[1..])
  }

  function Missing(required: seq<string>, found: set<string>): seq<string> {
    if required == [] then []
    else (if required[0] in found then [] else [required[0]]) + Missing(required[1..], found)
  }

  function Synthesised(ids: seq<string>): seq<Message> {
    seq(|ids|, k requires 0 <= k < |ids| => Interrupted(ids[k]))
  }

  /** The ids a list's first message asks for and the run after it does not answer. */
  function MissingAtHead(ms: seq<Message>): seq<string>
    requires ms != []
  {
    Missing(RequiredIds(ms[0]), LeadingAnswers(ms[1..]))
  }

  function Repair(ms: seq<Message>): seq<Message> {
    if ms == [] then []
    else if RequiredIds(ms[0]) == [] then [ms[0]] + Repair(ms[1..])
    else
      var after, n := ms[1..], LeadingTools(ms[1..]);
      [ms[0]] + (after[..n] + (Synthesised(MissingAtHead(ms)) + Repair(after[n..])))
  }

  /** Every call of the list that its tool run leaves unanswered, in order, with repetitions. */
  function UnansweredIds(ms: seq<Message>): seq<string> {
    if ms == [] then [] else MissingAtHead(ms) + UnansweredIds(ms[1..])
  }

  // ---- The position statements follow the recursion

  ghost predicate AnsweredRec(ms: seq<Message>) {
    ms == [] || (MissingAtHead(ms) == [] && AnsweredRec(ms[1..]))
  }

  lemma {:induction false} MissingMember(required: seq<string>, found: set<string>, id: string)
    ensures id in Missing(required, found) <==> id in required && id !in found
  {
    if required != [] {
      MissingMember(required[1..], found, id);
    }
  }

  lemma {:induction false} LeadingAnswersMember(ms: seq<Message>, id: string)
    ensures id in LeadingAnswers(ms)
       <==> exists k :: 0 <= k < LeadingTools(ms) && AnswerId(ms[k]) == Some(id)
  {
    if ms != [] && ms[0].role.Tool? {
      LeadingAnswersMember(ms[1..], id);
      if k :| 0 <= k < LeadingTools(ms[1..]) && AnswerId(ms[1..][k]) == Some(id) {
        assert AnswerId(ms[k + 1]) == Some(id);
      }
      if k :| 0 <= k < LeadingTools(ms) && AnswerId(ms[k]) == Some(id) {
        assert k > 0 ==> AnswerId(ms[1..][k - 1]) == Some(id);
      }
    }
  }

  /** The leading run is exactly the longest all-tool prefix. */
  lemma {:induction false} LeadingToolsRun(ms: seq<Message>, k: nat)
    requires k <= |ms|
    ensures k <= LeadingTools(ms) <==> forall m :: 0 <= m < k ==> ms[m].role.Tool?
  {
    if k > 0 && ms[0].role.Tool? {
      LeadingToolsRun(ms[1..], k - 1);
      assert forall m :: 0 < m < k ==> ms[m] == ms[1..][m - 1];
      assert forall m :: 0 <= m < k - 1 ==> ms[1..][m] == ms[m + 1];
    }
  }

  lemma AnsweredInRunIff(ms: seq<Message>, i: nat, id: string)
    requires i < |ms|
    ensures AnsweredInRun(ms, i, id) <==> id in LeadingAnswers(ms[i + 1..])
  {
    var rest := ms[i + 1..];
    LeadingAnswersMember(rest, id);
    if k :| InRunAfter(ms, i, k) && AnswerId(ms[k]) == Some(id) {
      assert forall m :: 0 <= m < k - i ==> rest[m] == ms[i + 1 + m];
      LeadingToolsRun(rest, k - i);
      assert AnswerId(rest[k - i - 1]) == Some(id);
    }
    if k :| 0 <= k < LeadingTools(rest) && AnswerId(rest[k]) == Some(id) {
      LeadingToolsRun(rest, k + 1);
      assert forall m :: i < m <= i + 1 + k ==> ms[m] == rest[m - i - 1];
      assert InRunAfter(ms, i, i + 1 + k);
    }
  }

  lemma {:induction false} AnsweredRecAt(ms: seq<Message>)
    ensures AnsweredRec(ms) <==> forall i {:trigger ms[i..]} :: 0 <= i < |ms| ==> MissingAtHead(ms[i..]) == []
  {
    if ms != [] {
      AnsweredRecAt(ms[1..]);
      assert ms[0..] == ms;
      assert forall i {:trigger ms[i..]} :: 1 <= i < |ms| ==> ms[i..] == ms[1..][i - 1..];
      assert forall i {:trigger ms[1..][i..]} :: 0 <= i < |ms| - 1 ==> ms[1..][i..] == ms[i + 1..];
    }
  }

  lemma MissingAtHeadEmpty(ms: seq<Message>, i: nat)
    requires i < |ms|
    ensures MissingAtHead(ms[i..]) == [] <==> forall id :: id in RequiredIds(ms[i]) ==> AnsweredInRun(ms, i, id)
  {
    var required, found := RequiredIds(ms[i]), LeadingAnswers(ms[i + 1..]);
    assert ms[i..][1..] == ms[i + 1..];
    forall id ensures (id in Missing(required, found) <==> id in required && id !in found)
                   && (AnsweredInRun(ms, i, id) <==> id in found) {
      MissingMember(required, found, id);
      AnsweredInRunIff(ms, i, id);
    }
    if MissingAtHead(ms[i..]) != [] {
      assert Missing(required, found)[0] in Missing(required, found);
    }
  }

  lemma AnsweredIff(ms: seq<Message>)
    ensures AllAnswered(ms) <==> AnsweredRec(ms)
  {
    AnsweredRecAt(ms);
    forall i | 0 <= i < |ms|
      ensures MissingAtHead(ms[i..]) == [] <==> forall id :: id in RequiredIds(ms[i]) ==> AnsweredInRun(ms, i, id)
    {
      MissingAtHeadEmpty(ms, i);
    }
  }

  // ---- What the repair does to a list

  predicate AllTools(run: seq<Message>) {
    forall m :: m in run ==> m.role.Tool?
  }

  /** A tool message asks for nothing and counts towards the run a list starts with. */
  lemma ToolHead(ms: seq<Message>)
    requires ms != [] && ms[0].role.Tool?
    ensures LeadingTools(ms) == 1 + LeadingTools(ms[1..])
    ensures LeadingAnswers(ms) == IdSet(AnswerId(ms[0])) + LeadingAnswers(ms[1..])
    ensures UnansweredIds(ms) == UnansweredIds(ms[1..])
    ensures AnsweredRec(ms) <==> AnsweredRec(ms[1..])
  {
  }

  lemma {:induction false} ToolRun(run: seq<Message>, rest: seq<Message>)
    requires AllTools(run)
    ensures LeadingTools(run + rest) == |run| + LeadingTools(rest)
    ensures LeadingAnswers(run + rest) == LeadingAnswers(run) + LeadingAnswers(rest)
    ensures UnansweredIds(run + rest) == UnansweredIds(rest)
    ensures AnsweredRec(run + rest) <==> AnsweredRec(rest)
  {
    if run == [] {
      assert run + rest == rest;
    } else {
      hide LeadingTools, LeadingAnswers, UnansweredIds, AnsweredRec, IdSet, AnswerId;
      var tail := run[1..];
      assert (run + rest)[1..] == tail + rest && (run + rest)[0] == run[0];
      ToolHead(run);
      ToolHead(run + rest);
      ToolRun(tail, rest);
    }
  }

  /** Splits the tail of a list into its leading tool run and the rest, which no tool starts. */
  lemma SplitRun(ms: seq<Message>) returns (run: seq<Message>, rest: seq<Message>)
    ensures ms == run + rest && |run| == LeadingTools(ms) && AllTools(run)
    ensures rest == [] || !rest[0].role.Tool?
    ensures LeadingTools(rest) == 0 && LeadingAnswers(rest) == {}
  {
    var n := LeadingTools(ms);
    run, rest := ms[..n], ms[n..];
    LeadingToolsRun(ms, n);
    if n < |ms| {
      LeadingToolsRun(ms, n + 1);
    }
  }

  lemma {:induction false} CallIdsUsable(entries: seq<CallEntry>, id: string)
    requires id in CallIds(entries)
    ensures UsableId(Some(id)) == Some(id)
  {
    if entries[0].Call? && UsableId(entries[0].id) == Some(id) {
      StripIdentity(id);
    } else {
      CallIdsUsable(entries[1..], id);
    }
  }

  lemma {:induction false} SynthesisedAnswers(ids: seq<string>)
    requires forall id :: id in ids ==> UsableId(Some(id)) == Some(id)
    ensures AllTools(Synthesised(ids))
    ensures LeadingAnswers(Synthesised(ids)) == set id | id in ids
  {
    if ids != [] {
      SynthesisedAnswers(ids[1..]);
      assert Synthesised(ids)[1..] == Synthesised(ids[1..]);
    }
  }

  lemma {:induction false} MissingNone(required: seq<string>, found: set<string>)
    requires forall id :: id in required ==> id in found
    ensures Missing(required, found) == []
  {
    if required != [] {
      MissingNone(required[1..], found);
    }
  }

  /** What a caller's own run leaves unanswered. */
  function Gaps(caller: Message, run: seq<Message>): seq<string> {
    Missing(RequiredIds(caller), LeadingAnswers(run))
  }

  /** A list with a caller at its head, cut into the caller, its run and the rest. */
  ghost predicate Block(ms: seq<Message>, caller: Message, run: seq<Message>, rest: seq<Message>) {
    && ms == [caller] + (run + rest)
    && AllTools(run)
    && LeadingTools(rest) == 0
    && LeadingAnswers(rest) == {}
  }

  lemma CutBlock(ms: seq<Message>) returns (run: seq<Message>, rest: seq<Message>)
    requires ms != []
    ensures Block(ms, ms[0], run, rest)
  {
    run, rest := SplitRun(ms[1..]);
  }

  lemma BlockFacts(ms: seq<Message>, caller: Message, run: seq<Message>, rest: seq<Message>)
    requires Block(ms, caller, run, rest)
    ensures LeadingTools(ms[1..]) == |run|
    ensures MissingAtHead(ms) == Gaps(caller, run)
    ensures UnansweredIds(ms) == Gaps(caller, run) + UnansweredIds(rest)
    ensures AnsweredRec(ms) <==> Gaps(caller, run) == [] && AnsweredRec(rest)
  {
    assert ms[1..] == run + rest;
    ToolRun(run, rest);
    assert LeadingAnswers(run) + {} == LeadingAnswers(run);
    assert ms[0] == caller;
  }

  lemma BlockRepair(ms: seq<Message>, caller: Message, run: seq<Message>, rest: seq<Message>)
    requires Block(ms, caller, run, rest) && RequiredIds(caller) != []
    ensures Repair(ms) == [caller] + (run + (Synthesised(Gaps(caller, run)) + Repair(rest)))
  {
    BlockFacts(ms, caller, run, rest);
    assert ms[1..][..|run|] == run && ms[1..][|run|..] == rest;
  }

  lemma GapAnswers(caller: Message, run: seq<Message>)
    ensures AllTools(Synthesised(Gaps(caller, run)))
    ensures LeadingAnswers(Synthesised(Gaps(caller, run))) == set id | id in Gaps(caller, run)
  {
    var gaps := Gaps(caller, run);
    forall id | id in gaps ensures UsableId(Some(id)) == Some(id) {
      MissingMember(RequiredIds(caller), LeadingAnswers(run), id);
      CallIdsUsable(caller.toolCalls.entries, id);
    }
    SynthesisedAnswers(gaps);
  }

  lemma BlockAnswered(caller: Message, run: seq<Message>, tail: seq<Message>)
    requires AllTools(run)
    ensures AnsweredRec([caller] + (run + (Synthesised(Gaps(caller, run)) + tail))) <==> AnsweredRec(tail)
  {
    var added := Synthesised(Gaps(caller, run));
    var after := run + (added + tail);
    GapAnswers(caller, run);
    ToolRun(added, tail);
    ToolRun(run, added + tail);
    forall id | id in RequiredIds(caller) ensures id in LeadingAnswers(after) {
      MissingMember(RequiredIds(caller), LeadingAnswers(run), id);
    }
    MissingNone(RequiredIds(caller), LeadingAnswers(after));
    assert ([caller] + after)[1..] == after;
  }

  lemma {:induction false} RepairAnswersRec(ms: seq<Message>)
    ensures AnsweredRec(Repair(ms))
    decreases |ms|
  {
    if ms != [] {
      if RequiredIds(ms[0]) == [] {
        RepairAnswersRec(ms[1..]);
        assert Repair(ms)[1..] == Repair(ms[1..]);
      } else {
        var run, rest := CutBlock(ms);
        BlockFacts(ms, ms[0], run, rest);
        BlockRepair(ms, ms[0], run, rest);
        RepairAnswersRec(rest);
        BlockAnswered(ms[0], run, Repair(rest));
      }
    }
  }

  lemma {:induction false} RepairKeepsAnswered(ms: seq<Message>)
    requires AnsweredRec(ms)
    ensures Repair(ms) == ms
    decreases |ms|
  {
    if ms != [] {
      if RequiredIds(ms[0]) == [] {
        RepairKeepsAnswered(ms[1..]);
      } else {
        var run, rest := CutBlock(ms);
        BlockFacts(ms, ms[0], run, rest);
        BlockRepair(ms, ms[0], run, rest);
        RepairKeepsAnswered(rest);
        assert Synthesised([]) + rest == rest;
      }
    }
  }

  /** After the repair every call is answered, and only a list with every call answered is left alone. */
  lemma RepairFixpoint(ms: seq<Message>)
    ensures AllAnswered(Repair(ms))
    ensures Repair(Repair(ms)) == Repair(ms)
    ensures Repair(ms) == ms <==> AllAnswered(ms)
  {
    RepairAnswersRec(ms);
    AnsweredIff(Repair(ms));
    RepairKeepsAnswered(Repair(ms));
    AnsweredIff(ms);
    if AllAnswered(ms) {
      RepairKeepsAnswered(ms);
    }
  }

  ghost predicate IsSubsequence(a: seq<Message>, b: seq<Message>) {
    a == [] || (b != [] && (IsSubsequence(a, b[1..]) || (a[0] == b[0] && IsSubsequence(a[1..], b[1..]))))
  }

  lemma {:induction false} SubsequencePrefix(p: seq<Message>, a: seq<Message>, b: seq<Message>)
    requires IsSubsequence(a, b)
    ensures IsSubsequence(p + a, p + b)
  {
    if p == [] {
      assert p + a == a && p + b == b;
    } else {
      SubsequencePrefix(p[1..], a, b);
      assert (p + a)[1..] == p[1..] + a && (p + b)[1..] == p[1..] + b;
    }
  }

  lemma {:induction false} SubsequenceSkip(p: seq<Message>, a: seq<Message>, b: seq<Message>)
    requires IsSubsequence(a, b)
    ensures IsSubsequence(a, p + b)
  {
    if p == [] {
      assert p + b == b;
    } else {
      SubsequenceSkip(p[1..], a, b);
      assert (p + b)[1..] == p[1..] + b;
    }
  }

  lemma SynthesisedConcat(a: seq<string>, b: seq<string>)
    ensures Synthesised(a + b) == Synthesised(a) + Synthesised(b)
  {
  }

  /** The repair keeps every message of the list, in order. */
  lemma {:induction false} RepairKeepsMessages(ms: seq<Message>)
    ensures IsSubsequence(ms, Repair(ms))
    decreases |ms|
  {
    if ms != [] {
      if RequiredIds(ms[0]) == [] {
        RepairKeepsMessages(ms[1..]);
        SubsequencePrefix([ms[0]], ms[1..], Repair(ms[1..]));
        assert ms == [ms[0]] + ms[1..];
      } else {
        var run, rest := CutBlock(ms);
        BlockRepair(ms, ms[0], run, rest);
        RepairKeepsMessages(rest);
        var added := Synthesised(Gaps(ms[0], run));
        SubsequenceSkip(added, rest, Repair(rest));
        SubsequencePrefix(run, rest, added + Repair(rest));
        SubsequencePrefix([ms[0]], run + rest, run + (added + Repair(rest)));
      }
    }
  }

  ghost predicate AddsOnlyAnswers(ms: seq<Message>) {
    multiset(Repair(ms)) == multiset(ms) + multiset(Synthesised(UnansweredIds(ms)))
  }

  lemma BlockAddsOnlyAnswers(ms: seq<Message>, caller: Message, run: seq<Message>, rest: seq<Message>)
    requires Block(ms, caller, run, rest) && RequiredIds(caller) != [] && AddsOnlyAnswers(rest)
    ensures AddsOnlyAnswers(ms)
  {
    BlockFacts(ms, caller, run, rest);
    BlockRepair(ms, caller, run, rest);
    SynthesisedConcat(Gaps(caller, run), UnansweredIds(rest));
    MultisetInsert([caller], run, Synthesised(Gaps(caller, run)), Repair(rest));
    MultisetInsert([caller], run, [], rest);
    assert [] + rest == rest;
  }

  /** What the repair adds is exactly one synthetic answer per unanswered call. */
  lemma {:induction false} RepairAddsOnlyAnswers(ms: seq<Message>)
    ensures AddsOnlyAnswers(ms)
    decreases |ms|
  {
    if ms == [] {
    } else if RequiredIds(ms[0]) == [] {
      RepairAddsOnlyAnswers(ms[1..]);
      assert ms == [ms[0]] + ms[1..];
      assert UnansweredIds(ms) == UnansweredIds(ms[1..]);
    } else {
      var run, rest := CutBlock(ms);
      RepairAddsOnlyAnswers(rest);
      BlockAddsOnlyAnswers(ms, ms[0], run, rest);
    }
  }

  lemma MultisetInsert(a: seq<Message>, b: seq<Message>, c: seq<Message>, d: seq<Message>)
    ensures multiset(a + (b + (c + d))) == multiset(a) + multiset(b) + multiset(c) + multiset(d)
  {
  }

  lemma RepairGrowth(ms: seq<Message>)
    ensures |Repair(ms)| == |ms| + |UnansweredIds(ms)|
  {
    RepairAddsOnlyAnswers(ms);
    assert |multiset(Repair(ms))| == |ms| + |Synthesised(UnansweredIds(ms))|;
  }

  // ---- The loops

  /** The ids from position `i` on are the one there, if it is usable, and those behind it. */
  lemma CallIdsStep(entries: seq<CallEntry>, i: nat, out: seq<string>)
    requires i < |entries|
    ensures entries[i].Call? && UsableId(entries[i].id).Some?
            ==> out + CallIds(entries[i..]) == out + [UsableId(entries[i].id).value] + CallIds(entries[i + 1..])
    ensures !(entries[i].Call? && UsableId(entries[i].id).Some?) ==> CallIds(entries[i..]) == CallIds(entries[i + 1..])
  {
    hide UsableId;
    var rest := entries[i..];
    assert rest[0] == entries[i] && rest[1..] == entries[i + 1..];
    var id := if rest[0].Call? then UsableId(rest[0].id) else None;
    assert CallIds(rest) == (if id.Some? then [id.value] else []) + CallIds(rest[1..]);
  }

  /** Collects the usable ids of `tool_calls` in order. */
  method ToolCallIds(m: Message) returns (out: seq<string>)
    requires m.role.Assistant?
    ensures out == RequiredIds(m)
  {
    out := [];
    if !m.toolCalls.Calls? {
      return;
    }
    var raw := m.toolCalls.entries;
    for i := 0 to |raw|
      invariant out + CallIds(raw[i..]) == CallIds(raw)
    {
      hide CallIds, UsableId;
      CallIdsStep(raw, i, out);
      assert out + [] == out;
      if raw[i].Call? && UsableId(raw[i].id).Some? {
        out := out + [UsableId(raw[i].id).value];
      }
    }
  }

  /** What is missing from position `i` on is the id there, unless it was found, and what is missing behind it. */
  lemma MissingStep(required: seq<string>, found: set<string>, i: nat, missing: seq<string>)
    requires i < |required|
    ensures missing + Missing(required[i..], found)
         == missing + (if required[i] in found then [] else [required[i]]) + Missing(required[i + 1..], found)
  {
    var rest := required[i..];
    assert rest[0] == required[i] && rest[1..] == required[i + 1..];
    assert Missing(rest, found) == (if rest[0] in found then [] else [rest[0]]) + Missing(rest[1..], found);
  }

  method MissingIds(required: seq<string>, found: set<string>) returns (missing: seq<string>)
    ensures missing == Missing(required, found)
  {
    missing := [];
    for i := 0 to |required|
      invariant missing + Missing(required[i..], found) == Missing(required, found)
    {
      hide Missing;
      MissingStep(required, found, i, missing);
      assert missing + [] == missing;
      if required[i] !in found {
        missing := missing + [required[i]];
      }
    }
  }

  lemma ScanStep(ms: seq<Message>, j: nat)
    requires j < |ms| && ms[j].role.Tool?
    ensures LeadingTools(ms[j..]) == 1 + LeadingTools(ms[j + 1..])
    ensures LeadingAnswers(ms[j..]) == IdSet(AnswerId(ms[j])) + LeadingAnswers(ms[j + 1..])
  {
    assert ms[j..][0] == ms[j] && ms[j..][1..] == ms[j + 1..];
    ToolHead(ms[j..]);
  }

  lemma ScanEnd(ms: seq<Message>, j: nat)
    requires j <= |ms| && (j < |ms| ==> !ms[j].role.Tool?)
    ensures LeadingTools(ms[j..]) == 0 && LeadingAnswers(ms[j..]) == {}
  {
  }

  class ConversationContext {
    var messages: seq<Message>

    constructor ()
      ensures messages == []
    {
      messages := [];
    }

    /** Scans the tool run from position `i`: where it ends, and which ids it answers. */
    method ScanRun(i: nat) returns (j: nat, found: set<string>)
      requires i <= |messages|
      ensures j == i + LeadingTools(messages[i..])
      ensures found == LeadingAnswers(messages[i..])
    {
      hide LeadingTools, LeadingAnswers, IdSet, AnswerId;
      j, found := i, {};
      while j < |messages| && messages[j].role.Tool?
        invariant i <= j <= |messages|
        invariant j - i + LeadingTools(messages[j..]) == LeadingTools(messages[i..])
        invariant found + LeadingAnswers(messages[j..]) == LeadingAnswers(messages[i..])
      {
        ScanStep(messages, j);
        found := found + IdSet(AnswerId(messages[j]));
        j := j + 1;
      }
      ScanEnd(messages, j);
    }

    /** Inserts one synthetic answer per id, the first at `pos`, in the order of `ids`. */
    method InsertAnswers(ids: seq<string>, pos: nat)
      requires pos <= |messages|
      modifies this
      ensures messages == old(messages)[..pos] + Synthesised(ids) + old(messages)[pos..]
    {
      ghost var before, after := messages[..pos], messages[pos..];
      var insertPos := pos;
      for t := 0 to |ids|
        invariant insertPos == pos + t
        invariant messages == before + Synthesised(ids[..t]) + after
      {
        assert messages[..insertPos] == before + Synthesised(ids[..t]) && messages[insertPos..] == after;
        messages := messages[..insertPos] + [Interrupted(ids[t])] + messages[insertPos..];
        assert Synthesised(ids[..t + 1]) == Synthesised(ids[..t]) + [Interrupted(ids[t])];
        insertPos := insertPos + 1;
      }
      assert ids[..|ids|] == ids;
    }

    /** Answers whatever the run after position `i` leaves open of `required`; returns where the scan goes on. */
    method RepairCaller(i: nat, required: seq<string>) returns (next: nat, inserted: nat)
      requires i < |messages| && required == RequiredIds(messages[i])
      modifies this
      ensures var j := i + 1 + LeadingTools(old(messages)[i + 1..]);
              var missing := Missing(required, LeadingAnswers(old(messages)[i + 1..]));
              && messages == old(messages)[..j] + Synthesised(missing) + old(messages)[j..]
              && inserted == |missing| && next == j + inserted
    {
      var j, found := ScanRun(i + 1);
      var missing := MissingIds(required, found);
      inserted := |missing|;
      if missing != [] {
        InsertAnswers(missing, j);
        next := j + |missing|;
      } else {
        next := j;
        assert messages == messages[..j] + Synthesised(missing) + messages[j..];
      }
    }

    /** One step of the repair's scan: `done` is behind position `i`, `unread` in front of it. */
    method RepairStep(i: nat, ghost done: seq<Message>, ghost unread: seq<Message>)
      returns (next: nat, inserted: nat, ghost done': seq<Message>, ghost unread': seq<Message>)
      requires messages == done + unread && i == |done| && unread != []
      modifies this
      ensures messages == done' + unread' && next == |done'| && |unread'| < |unread|
      ensures done' + Repair(unread') == done + Repair(unread)
      ensures |messages| == |old(messages)| + inserted
    {
      var required := [];
      if IsCaller(messages[i]) {
        required := ToolCallIds(messages[i]);
      }
      if required == [] {
        next, inserted := i + 1, 0;
        done', unread' := PassOver(done, unread);
      } else {
        ghost var was := messages;
        assert was[i + 1..] == unread[1..];
        next, inserted := RepairCaller(i, required);
        ghost var j, missing := next - inserted, MissingAtHead(unread);
        ghost var rebuilt := was[..j] + Synthesised(missing) + was[j..];
        assert messages == rebuilt;
        done', unread' := PassBlock(was, done, unread, j, missing);
        assert rebuilt == done' + unread';
      }
    }

    /** Repairs the list in place while scanning it, and returns how many messages it inserted. */
    method RepairDanglingAssistantToolCalls() returns (inserted: nat)
      modifies this
      ensures messages == Repair(old(messages))
      ensures inserted == |messages| - |old(messages)|
    {
      ghost var done, unread := [], messages;
      inserted := 0;
      var i, n := 0, |messages|;
      while i < n
        invariant i == |done| && n == |messages|
        invariant messages == done + unread
        invariant done + Repair(unread) == Repair(old(messages))
        invariant n == |old(messages)| + inserted
        decreases |unread|
      {
        var count;
        i, count, done, unread := RepairStep(i, done, unread);
        inserted, n := inserted + count, n + count;
      }
    }
  }

  /** The scan steps over a message that asks for nothing. */
  lemma PassOver(done: seq<Message>, unread: seq<Message>) returns (done': seq<Message>, unread': seq<Message>)
    requires unread != [] && RequiredIds(unread[0]) == []
    ensures done' == done + [unread[0]] && unread' == unread[1..]
    ensures done' + unread' == done + unread
    ensures done' + Repair(unread') == done + Repair(unread)
  {
    hide Repair, RequiredIds;
    done', unread' := done + [unread[0]], unread[1..];
    RepairPassed(unread);
    HeadApart(done, [unread[0]], Repair(unread'));
    HeadApart(done, [unread[0]], unread');
    assert unread == [unread[0]] + unread';
  }

  lemma RepairPassed(ms: seq<Message>)
    requires ms != [] && RequiredIds(ms[0]) == []
    ensures Repair(ms) == [ms[0]] + Repair(ms[1..])
  {
    hide RequiredIds;
  }

  /** The scan steps over a caller, its run and the answers inserted after it. */
  lemma PassBlock(was: seq<Message>, done: seq<Message>, unread: seq<Message>, j: nat, missing: seq<string>)
    returns (done': seq<Message>, unread': seq<Message>)
    requires was == done + unread && unread != [] && RequiredIds(unread[0]) != []
    requires j == |done| + 1 + LeadingTools(unread[1..]) && missing == MissingAtHead(unread)
    ensures was[..j] + Synthesised(missing) + was[j..] == done' + unread'
    ensures |done'| == j + |missing| && |unread'| < |unread|
    ensures done' + Repair(unread') == done + Repair(unread)
  {
    hide Repair, RequiredIds, MissingAtHead, LeadingTools;
    var n := LeadingTools(unread[1..]);
    var head, rest := [unread[0]] + unread[1..][..n], unread[1..][n..];
    done', unread' := done + head + Synthesised(missing), rest;
    assert was[..j] == done + head && was[j..] == rest by {
      assert unread == head + rest;
      CutAt(done, head, rest);
    }
    assert done' + Repair(unread') == done + Repair(unread) by {
      RepairUnfold(unread, head, rest);
      Regroup(done, head, Synthesised(missing), Repair(rest));
    }
  }

  lemma RepairUnfold(ms: seq<Message>, head: seq<Message>, rest: seq<Message>)
    requires ms != [] && RequiredIds(ms[0]) != []
    requires var n := LeadingTools(ms[1..]); head == [ms[0]] + ms[1..][..n] && rest == ms[1..][n..]
    ensures Repair(ms) == head + (Synthesised(MissingAtHead(ms)) + Repair(rest))
  {
    hide LeadingTools, MissingAtHead, Synthesised, RequiredIds;
    var after, n := ms[1..], LeadingTools(ms[1..]);
    assert Repair(ms) == [ms[0]] + (after[..n] + (Synthesised(MissingAtHead(ms)) + Repair(after[n..])));
    HeadApart([ms[0]], after[..n], Synthesised(MissingAtHead(ms)) + Repair(rest));
  }

  lemma HeadApart(a: seq<Message>, b: seq<Message>, c: seq<Message>)
    ensures a + (b + c) == (a + b) + c
  {
  }

  lemma CutAt(a: seq<Message>, b: seq<Message>, c: seq<Message>)
    ensures (a + (b + c))[..|a| + |b|] == a + b && (a + (b + c))[|a| + |b|..] == c
  {
  }

  lemma Regroup(a: seq<Message>, b: seq<Message>, c: seq<Message>, d: seq<Message>)
    ensures a + b + c + d == a + (b + (c + d))
  {
  }
}
