/** How the pairing of calls and answers moves as a turn appends, cuts and interrupts its message list. */
module TurnPairing {
  import opened Text
  import opened Conversation
  import opened Loader

  function Results(ids: seq<Option<string>>, text: nat -> string, n: nat): seq<Message>
    requires n <= |ids|
  {
    seq(n, k requires 0 <= k < n => Message(Tool, NoCalls, ids[k], text(k)))
  }

  /** The assistant message that asks for calls with the given ids. */
  function CallerFor(content: string, ids: seq<Option<string>>): Message {
    Message(Assistant, Calls(seq(|ids|, k requires 0 <= k < |ids| => Call(ids[k]))), None, content)
  }

  lemma {:induction false} LeadingAnswersStop(ms: seq<Message>, tail: seq<Message>)
    requires tail == [] || !tail[0].role.Tool?
    ensures LeadingAnswers(ms + tail) == LeadingAnswers(ms)
  {
    if ms == [] {
      assert ms + tail == tail;
    } else {
      assert (ms + tail)[1..] == ms[1..] + tail;
      LeadingAnswersStop(ms[1..], tail);
    }
  }

  /** Cut before a message that is no tool result, a list's unanswered calls are those of its two parts. */
  lemma {:induction false} CutPairing(ms: seq<Message>, tail: seq<Message>)
    requires tail == [] || !tail[0].role.Tool?
    ensures UnansweredIds(ms + tail) == UnansweredIds(ms) + UnansweredIds(tail)
    ensures AnsweredRec(ms + tail) <==> AnsweredRec(ms) && AnsweredRec(tail)
  {
    hide UnansweredIds, AnsweredRec, MissingAtHead;
    if ms == [] {
      assert ms + tail == tail;
      NothingOpen();
      GlueIds([], [], UnansweredIds(tail));
    } else {
      assert (ms + tail)[1..] == ms[1..] + tail && (ms + tail)[0] == ms[0];
      PairingHead(ms);
      PairingHead(ms + tail);
      HeadPairing(ms, tail);
      CutPairing(ms[1..], tail);
      GlueIds(MissingAtHead(ms), UnansweredIds(ms[1..]), UnansweredIds(tail));
    }
  }

  lemma NothingOpen()
    ensures UnansweredIds([]) == [] && AnsweredRec([])
  {
  }

  lemma GlueIds(a: seq<string>, b: seq<string>, c: seq<string>)
    ensures a + (b + c) == (a + b) + c && [] + c == c
  {
  }

  /** The unanswered calls of a list are those of its head and those behind it. */
  lemma PairingHead(ms: seq<Message>)
    requires ms != []
    ensures UnansweredIds(ms) == MissingAtHead(ms) + UnansweredIds(ms[1..])
    ensures AnsweredRec(ms) <==> MissingAtHead(ms) == [] && AnsweredRec(ms[1..])
  {
  }

  lemma HeadPairing(ms: seq<Message>, tail: seq<Message>)
    requires ms != [] && (tail == [] || !tail[0].role.Tool?)
    ensures MissingAtHead(ms + tail) == MissingAtHead(ms)
  {
    hide RequiredIds, LeadingAnswers, Missing;
    assert (ms + tail)[1..] == ms[1..] + tail && (ms + tail)[0] == ms[0];
    LeadingAnswersStop(ms[1..], tail);
  }

  lemma {:induction false} AnsweredNone(ms: seq<Message>)
    ensures AnsweredRec(ms) <==> UnansweredIds(ms) == []
  {
    if ms != [] {
      AnsweredNone(ms[1..]);
    }
  }

  /** Appending a message that neither calls nor answers keeps every call answered. */
  lemma AppendPlain(ms: seq<Message>, m: Message)
    requires AllAnswered(ms) && !m.role.Tool? && RequiredIds(m) == []
    ensures AllAnswered(ms + [m])
  {
    AnsweredIff(ms);
    CutPairing(ms, [m]);
    assert AnsweredRec([m]);
    AnsweredIff(ms + [m]);
  }

  /** Keeping the turns from a user message on, behind a summary, keeps every call answered. */
  lemma CompressionCut(ms: seq<Message>, split: nat, summary: Message)
    requires AllAnswered(ms) && split < |ms| && ms[split].role.User? && summary.role.User?
    ensures AllAnswered(ms[split..]) && AllAnswered([summary] + ms[split..])
  {
    var kept := ms[split..];
    assert ms == ms[..split] + kept;
    AnsweredIff(ms);
    CutPairing(ms[..split], kept);
    AnsweredIff(kept);
    var shown := [summary] + kept;
    assert shown[1..] == kept && RequiredIds(summary) == [];
    AnsweredIff(shown);
  }

  lemma {:induction false} CallerIds(ids: seq<Option<string>>, id: string)
    requires id in CallIds(seq(|ids|, k requires 0 <= k < |ids| => Call(ids[k])))
    ensures exists k :: 0 <= k < |ids| && UsableId(ids[k]) == Some(id)
  {
    var entries := seq(|ids|, k requires 0 <= k < |ids| => Call(ids[k]));
    if UsableId(ids[0]) != Some(id) {
      var rest := seq(|ids[1..]|, k requires 0 <= k < |ids[1..]| => Call(ids[1..][k]));
      assert entries[1..] == rest;
      CallerIds(ids[1..], id);
      var k :| 0 <= k < |ids[1..]| && UsableId(ids[1..][k]) == Some(id);
      assert UsableId(ids[k + 1]) == Some(id);
    }
  }

  lemma {:induction false} ResultAnswers(results: seq<Message>, id: string)
    requires AllTools(results)
    ensures id in LeadingAnswers(results) <==> exists k :: 0 <= k < |results| && AnswerId(results[k]) == Some(id)
  {
    LeadingAnswersMember(results, id);
    LeadingToolsRun(results, |results|);
  }

  /** A turn that stored the results of all its calls has answered them. */
  lemma AllResultsAnswer(base: seq<Message>, content: string, ids: seq<Option<string>>, text: nat -> string)
    requires AllAnswered(base)
    ensures AllAnswered(base + [CallerFor(content, ids)] + Results(ids, text, |ids|))
  {
    var caller, results := CallerFor(content, ids), Results(ids, text, |ids|);
    forall id | id in RequiredIds(caller) ensures id in LeadingAnswers(results) {
      CallerIds(ids, id);
      var k :| 0 <= k < |ids| && UsableId(ids[k]) == Some(id);
      assert AnswerId(results[k]) == Some(id);
      ResultAnswers(results, id);
    }
    MissingNone(RequiredIds(caller), LeadingAnswers(results));
    InterruptedGaps(base, caller, results);
    AnsweredNone(base + [caller] + results);
    AnsweredIff(base + [caller] + results);
  }

  /** Interrupted after some results, a turn leaves exactly the gaps of its last caller. */
  lemma InterruptedGaps(base: seq<Message>, caller: Message, results: seq<Message>)
    requires AllAnswered(base) && caller.role.Assistant? && AllTools(results)
    ensures UnansweredIds(base + [caller] + results) == Gaps(caller, results)
  {
    hide AllAnswered, AnsweredRec, RequiredIds;
    var tail := [caller] + results;
    AnsweredIff(base);
    AnsweredNone(base);
    CutPairing(base, tail);
    assert base + [caller] + results == base + tail;
    assert tail[1..] == results;
    ToolRun(results, []);
    assert results + [] == results && UnansweredIds([]) == [];
    assert UnansweredIds(tail) == Gaps(caller, results) + UnansweredIds(results);
  }

  /** The repair passes over a part whose calls are answered, up to a message that is no tool result. */
  lemma {:induction false} RepairBehind(ms: seq<Message>, tail: seq<Message>)
    requires AnsweredRec(ms) && (tail == [] || !tail[0].role.Tool?)
    ensures Repair(ms + tail) == ms + Repair(tail)
    decreases |ms|
  {
    hide Repair, RequiredIds, MissingAtHead, Gaps, LeadingTools, LeadingAnswers;
    if ms == [] {
      assert ms + tail == tail;
    } else if RequiredIds(ms[0]) == [] {
      assert (ms + tail)[1..] == ms[1..] + tail;
      RepairPlain(ms + tail);
      RepairBehind(ms[1..], tail);
      assert [ms[0]] + (ms[1..] + Repair(tail)) == ms + Repair(tail);
    } else {
      var run, rest := CutBlock(ms);
      BlockFacts(ms, ms[0], run, rest);
      RepairBehind(rest, tail);
      BlockBehind(ms, ms[0], run, rest, tail);
    }
  }

  lemma RepairPlain(ms: seq<Message>)
    requires ms != [] && RequiredIds(ms[0]) == []
    ensures Repair(ms) == [ms[0]] + Repair(ms[1..])
  {
  }

  lemma BlockBehind(ms: seq<Message>, caller: Message, run: seq<Message>, rest: seq<Message>, tail: seq<Message>)
    requires Block(ms, caller, run, rest) && RequiredIds(caller) != [] && Gaps(caller, run) == []
    requires tail == [] || !tail[0].role.Tool?
    requires Repair(rest + tail) == rest + Repair(tail)
    ensures Repair(ms + tail) == ms + Repair(tail)
  {
    hide Repair, Gaps, RequiredIds;
    assert LeadingTools(rest + tail) == 0 && LeadingAnswers(rest + tail) == {};
    assert ms + tail == [caller] + (run + (rest + tail));
    BlockRepair(ms + tail, caller, run, rest + tail);
    assert Synthesised([]) == [];
    assert [caller] + (run + ([] + (rest + Repair(tail)))) == ms + Repair(tail);
  }

  /** Interrupted after some results, a list is repaired by appending the missing answers. */
  lemma RepairAppends(base: seq<Message>, caller: Message, results: seq<Message>)
    requires AllAnswered(base) && caller.role.Assistant? && AllTools(results)
    ensures var left := base + [caller] + results; Repair(left) == left + Synthesised(UnansweredIds(left))
  {
    hide Repair, AllAnswered, AnsweredRec, UnansweredIds, Gaps, Synthesised;
    var left, tail := base + [caller] + results, [caller] + results;
    AnsweredIff(base);
    InterruptedGaps(base, caller, results);
    RepairBehind(base, tail);
    assert left == base + tail;
    LastBlockRepair(caller, results);
    assert base + (tail + Synthesised(Gaps(caller, results))) == left + Synthesised(Gaps(caller, results));
  }

  lemma LastBlockRepair(caller: Message, results: seq<Message>)
    requires caller.role.Assistant? && AllTools(results)
    ensures Repair([caller] + results) == [caller] + results + Synthesised(Gaps(caller, results))
  {
    hide Repair, RequiredIds, Synthesised, LeadingAnswers, AllTools;
    var tail := [caller] + results;
    assert Block(tail, caller, results, []) by { assert tail == [caller] + (results + []); NoTools(); }
    if RequiredIds(caller) == [] {
      NothingAsked(caller, results);
      RepairKeepsAnswered(tail);
      assert tail + [] == tail;
    } else {
      BlockRepair(tail, caller, results, []);
      RepairNothing();
      assert results + (Synthesised(Gaps(caller, results)) + []) == results + Synthesised(Gaps(caller, results));
    }
  }

  lemma NoTools()
    ensures LeadingTools([]) == 0 && LeadingAnswers([]) == {}
  {
  }

  lemma RepairNothing()
    ensures Repair([]) == []
  {
  }

  lemma NothingAsked(caller: Message, results: seq<Message>)
    requires RequiredIds(caller) == [] && Block([caller] + results, caller, results, [])
    ensures AnsweredRec([caller] + results) && Synthesised(Gaps(caller, results)) == []
  {
    hide RequiredIds;
    BlockFacts([caller] + results, caller, results, []);
  }

  /**
   A message of someone else between a caller's results cuts their run: the repair answers the calls
   whose results come too late, in front of that message.
   */
  lemma ForeignMessageRepaired(base: seq<Message>, caller: Message, early: seq<Message>, foreign: Message,
                               late: seq<Message>)
    requires AllAnswered(base) && caller.role.Assistant? && AllTools(early) && AllTools(late)
    requires !foreign.role.Tool? && RequiredIds(foreign) == []
    ensures var front := base + [caller] + early;
            Repair(front + [foreign] + late) == Repair(front) + [foreign] + late
  {
    hide Repair, RequiredIds, AllAnswered, AnsweredRec;
    var tail := [foreign] + late;
    AnsweredIff(base);
    LateAnswered(foreign, late);
    RepairKeepsAnswered(tail);
    assert base + [caller] + early + [foreign] + late == base + ([caller] + (early + tail));
    RepairBehind(base, [caller] + (early + tail));
    BlockThen(caller, early, tail);
    assert base + [caller] + early == base + ([caller] + early);
    RepairBehind(base, [caller] + early);
    LastBlockRepair(caller, early);
    Reassociate(base, [caller] + early, Synthesised(Gaps(caller, early)), [foreign], late);
  }

  lemma Reassociate(a: seq<Message>, b: seq<Message>, c: seq<Message>, d: seq<Message>, e: seq<Message>)
    ensures a + (b + c + (d + e)) == a + (b + c) + d + e
  {
  }

  lemma LateAnswered(foreign: Message, late: seq<Message>)
    requires AllTools(late) && RequiredIds(foreign) == []
    ensures AnsweredRec([foreign] + late)
  {
    var tail := [foreign] + late;
    assert tail == [foreign] + (late + []);
    NoTools();
    BlockFacts(tail, foreign, late, []);
  }

  /** The repair of a caller and its run, with a part behind it that no tool result starts and that needs no repair. */
  lemma BlockThen(caller: Message, early: seq<Message>, tail: seq<Message>)
    requires caller.role.Assistant? && AllTools(early) && tail != [] && !tail[0].role.Tool? && Repair(tail) == tail
    ensures Repair([caller] + (early + tail)) == [caller] + early + Synthesised(Gaps(caller, early)) + tail
  {
    hide Repair, RequiredIds, Synthesised, AllTools;
    var ms := [caller] + (early + tail);
    assert Block(ms, caller, early, tail);
    if RequiredIds(caller) == [] {
      NothingAsked(caller, early) by { assert [caller] + early == [caller] + (early + []); NoTools(); }
      RepairBehind([caller] + early, tail);
      assert ms == [caller] + early + tail;
      assert [caller] + early + [] == [caller] + early;
    } else {
      BlockRepair(ms, caller, early, tail);
      assert [caller] + (early + (Synthesised(Gaps(caller, early)) + tail))
          == [caller] + early + Synthesised(Gaps(caller, early)) + tail;
    }
  }

  /** From the request, the results behind that message are stripped: what is sent is as if they had not come. */
  lemma ForeignMessageRequest(base: seq<Message>, caller: Message, early: seq<Message>, foreign: Message,
                              late: seq<Message>)
    requires AllAnswered(base) && caller.role.Assistant? && AllTools(early) && AllTools(late)
    requires foreign.role.User? && RequiredIds(foreign) == []
    ensures var front := base + [caller] + early;
            StripOrphans(Repair(front + [foreign] + late)) == StripOrphans(Repair(front)) + [foreign]
  {
    hide Repair, RequiredIds, AllAnswered, StripFrom;
    var front := Repair(base + [caller] + early);
    ForeignMessageRepaired(base, caller, early, foreign, late);
    assert front + [foreign] + late == front + ([foreign] + late);
    StripLate(front, foreign, late, false);
  }

  lemma {:induction false} StripLate(ms: seq<Message>, foreign: Message, late: seq<Message>, open: bool)
    requires foreign.role.User? && AllTools(late)
    ensures StripFrom(ms + ([foreign] + late), open) == StripFrom(ms, open) + [foreign]
    decreases |ms|
  {
    if ms == [] {
      assert [] + ([foreign] + late) == [foreign] + late;
      assert ([foreign] + late)[1..] == late;
      StripAll(late);
    } else {
      assert (ms + ([foreign] + late))[1..] == ms[1..] + ([foreign] + late);
      StripLate(ms[1..], foreign, late, false);
      StripLate(ms[1..], foreign, late, Opens(ms[0]));
    }
  }

  lemma {:induction false} StripAll(late: seq<Message>)
    requires AllTools(late)
    ensures StripFrom(late, false) == []
    decreases |late|
  {
    if late != [] {
      StripAll(late[1..]);
    }
  }

  /** The trimmed ids, when none is blank. */
  function Trimmed(ids: seq<Option<string>>): seq<string>
    requires forall k :: 0 <= k < |ids| ==> UsableId(ids[k]).Some?
  {
    seq(|ids|, k requires 0 <= k < |ids| => UsableId(ids[k]).value)
  }

  lemma {:induction false} CallIdsAll(ids: seq<Option<string>>)
    requires forall k :: 0 <= k < |ids| ==> UsableId(ids[k]).Some?
    ensures CallIds(seq(|ids|, k requires 0 <= k < |ids| => Call(ids[k]))) == Trimmed(ids)
  {
    hide UsableId;
    if ids != [] {
      CallIdsAll(ids[1..]);
      var entries := seq(|ids|, k requires 0 <= k < |ids| => Call(ids[k]));
      assert entries[1..] == seq(|ids[1..]|, k requires 0 <= k < |ids[1..]| => Call(ids[1..][k]));
      assert Trimmed(ids) == [UsableId(ids[0]).value] + Trimmed(ids[1..]);
    }
  }

  lemma {:induction false} MissingSuffix(ids: seq<string>, found: set<string>, m: nat)
    requires m <= |ids|
    requires forall k :: 0 <= k < m ==> ids[k] in found
    requires forall k :: m <= k < |ids| ==> ids[k] !in found
    ensures Missing(ids, found) == ids[m..]
  {
    if ids != [] {
      MissingSuffix(ids[1..], found, if m == 0 then 0 else m - 1);
    }
  }

  /** With distinct, non-blank ids, closing a turn after `m` results leaves exactly the later calls open. */
  lemma ClosedAfterResults(base: seq<Message>, content: string, ids: seq<Option<string>>, text: nat -> string, m: nat)
    requires AllAnswered(base) && m <= |ids|
    requires forall k :: 0 <= k < |ids| ==> UsableId(ids[k]).Some?
    requires forall j, k :: 0 <= j < k < |ids| ==> UsableId(ids[j]) != UsableId(ids[k])
    ensures UnansweredIds(base + [CallerFor(content, ids)] + Results(ids, text, m)) == Trimmed(ids)[m..]
    ensures |Repair(base + [CallerFor(content, ids)] + Results(ids, text, m))| == |base| + 1 + |ids|
  {
    var caller, results := CallerFor(content, ids), Results(ids, text, m);
    var trimmed, found := Trimmed(ids), LeadingAnswers(results);
    InterruptedGaps(base, caller, results);
    CallIdsAll(ids);
    forall k | 0 <= k < |ids| ensures trimmed[k] in found <==> k < m {
      ResultAnswers(results, trimmed[k]);
      if k < m {
        assert AnswerId(results[k]) == Some(trimmed[k]);
      }
    }
    MissingSuffix(trimmed, found, m);
    RepairGrowth(base + [caller] + results);
  }
}
