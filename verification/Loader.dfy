/** The request a conversation is turned into: repaired, then rid of tool messages no call heads. */
module Loader {
  import opened Conversation

  /** A tool message may directly follow `m`. */
  predicate Opens(m: Message) {
    m.role.Tool? || IsCaller(m)
  }

  /** `open` says whether a tool message in front of `ms` would be kept. */
  function StripFrom(ms: seq<Message>, open: bool): seq<Message> {
    if ms == [] then []
    else if ms[0].role.Tool? && !open then StripFrom(ms[1..], false)
    else [ms[0]] + StripFrom(ms[1..], Opens(ms[0]))
  }

  function StripOrphans(ms: seq<Message>): seq<Message> {
    StripFrom(ms, false)
  }

  /** A tool message may follow the last kept one. */
  predicate OpenAfter(out: seq<Message>) {
    out != [] && Opens(out[|out| - 1])
  }

  /** One step of the scan, with `kept` already output. */
  lemma StripFromStep(kept: seq<Message>, rest: seq<Message>, open: bool)
    requires rest != []
    ensures kept + StripFrom(rest, open) ==
              if rest[0].role.Tool? && !open then kept + StripFrom(rest[1..], false)
              else kept + [rest[0]] + StripFrom(rest[1..], Opens(rest[0]))
  {
  }

  method StripOrphanToolMessages(ms: seq<Message>) returns (out: seq<Message>)
    ensures out == StripOrphans(ms)
  {
    out := [];
    assert ms[0..] == ms;
    for i := 0 to |ms|
      invariant out + StripFrom(ms[i..], OpenAfter(out)) == StripOrphans(ms)
    {
      assert ms[i..][0] == ms[i] && ms[i..][1..] == ms[i + 1..];
      StripFromStep(out, ms[i..], OpenAfter(out));
      if ms[i].role.Tool? {
        if out != [] && IsCaller(out[|out| - 1]) {
          out := out + [ms[i]];
        } else if out != [] && out[|out| - 1].role.Tool? {
          out := out + [ms[i]];
        }
      } else {
        out := out + [ms[i]];
      }
    }
  }

  // ---- Which messages survive

  /** A tool message at `k` would be headed. */
  ghost predicate OpenAt(ms: seq<Message>, k: nat)
    requires k <= |ms|
  {
    k > 0 && (IsCaller(ms[k - 1]) || (ms[k - 1].role.Tool? && Headed(ms, k - 1)))
  }

  lemma HeadedStep(ms: seq<Message>, k: nat)
    requires k < |ms| && ms[k].role.Tool?
    ensures Headed(ms, k) <==> OpenAt(ms, k)
  {
    if h :| InRunAfter(ms, h, k) && IsCaller(ms[h]) {
      if h < k - 1 {
        assert InRunAfter(ms, h, k - 1);
      }
    }
    if OpenAt(ms, k) {
      if IsCaller(ms[k - 1]) {
        assert InRunAfter(ms, k - 1, k);
      } else {
        var h :| InRunAfter(ms, h, k - 1) && IsCaller(ms[h]);
        assert InRunAfter(ms, h, k);
      }
    }
  }

  lemma OpenAtStep(ms: seq<Message>, k: nat)
    requires k < |ms|
    ensures OpenAt(ms, k + 1) <==> (ms[k].role.Tool? ==> OpenAt(ms, k)) && Opens(ms[k])
  {
    if ms[k].role.Tool? {
      HeadedStep(ms, k);
    }
  }

  /** The first `k` messages without the tool messages that no call heads. */
  ghost function Survivors(ms: seq<Message>, k: nat): seq<Message>
    requires k <= |ms|
  {
    if k == 0 then []
    else if ms[k - 1].role.Tool? && !Headed(ms, k - 1) then Survivors(ms, k - 1)
    else Survivors(ms, k - 1) + [ms[k - 1]]
  }

  lemma {:induction false} StripFromSurvivors(ms: seq<Message>, k: nat)
    requires k <= |ms|
    ensures Survivors(ms, k) + StripFrom(ms[k..], OpenAt(ms, k)) == StripOrphans(ms)
  {
    if k == 0 {
      assert ms[0..] == ms;
    } else {
      StripFromSurvivors(ms, k - 1);
      var open := OpenAt(ms, k - 1);
      assert ms[k - 1..][0] == ms[k - 1] && ms[k - 1..][1..] == ms[k..];
      StripFromStep(Survivors(ms, k - 1), ms[k - 1..], open);
      OpenAtStep(ms, k - 1);
      if ms[k - 1].role.Tool? {
        HeadedStep(ms, k - 1);
      }
    }
  }

  /** Stripping drops exactly the tool messages outside every run that a call heads. */
  lemma StripDropsExactlyOrphans(ms: seq<Message>)
    ensures StripOrphans(ms) == Survivors(ms, |ms|)
  {
    StripFromSurvivors(ms, |ms|);
  }

  // ---- What a stripped list satisfies

  predicate HeadedRec(ms: seq<Message>, open: bool) {
    ms == []
    || ((ms[0].role.Tool? ==> open) && HeadedRec(ms[1..], Opens(ms[0])))
  }

  lemma {:induction false} HeadedRecAt(ms: seq<Message>, k: nat)
    requires k <= |ms|
    ensures HeadedRec(ms[k..], OpenAt(ms, k)) <==> forall j :: k <= j < |ms| && ms[j].role.Tool? ==> Headed(ms, j)
    decreases |ms| - k
  {
    if k < |ms| {
      HeadedRecAt(ms, k + 1);
      assert ms[k..][0] == ms[k] && ms[k..][1..] == ms[k + 1..];
      if ms[k].role.Tool? {
        HeadedStep(ms, k);
      }
    }
  }

  lemma HeadedIff(ms: seq<Message>)
    ensures AllHeaded(ms) <==> HeadedRec(ms, false)
  {
    HeadedRecAt(ms, 0);
    assert ms[0..] == ms;
  }

  lemma {:induction false} StripIsHeaded(ms: seq<Message>, open: bool)
    ensures HeadedRec(StripFrom(ms, open), open)
    ensures HeadedRec(ms, open) <==> StripFrom(ms, open) == ms
    ensures |StripFrom(ms, open)| <= |ms|
  {
    if ms != [] {
      var next := (ms[0].role.Tool? ==> open) && Opens(ms[0]);
      StripIsHeaded(ms[1..], next);
      if ms[0].role.Tool? && !open {
        assert |StripFrom(ms, open)| < |ms|;
      } else {
        assert StripFrom(ms, open) == [ms[0]] + StripFrom(ms[1..], next);
        assert StripFrom(ms, open)[1..] == StripFrom(ms[1..], next);
        assert ms == [ms[0]] + ms[1..];
      }
    }
  }

  lemma {:induction false} StripKeepsOpenRun(ms: seq<Message>)
    ensures LeadingAnswers(StripFrom(ms, true)) == LeadingAnswers(ms)
  {
    if ms != [] && ms[0].role.Tool? {
      StripKeepsOpenRun(ms[1..]);
      assert StripFrom(ms, true)[1..] == StripFrom(ms[1..], true);
    }
  }

  lemma {:induction false} StripKeepsAnswers(ms: seq<Message>, open: bool)
    requires AnsweredRec(ms)
    ensures AnsweredRec(StripFrom(ms, open))
  {
    if ms != [] {
      var next := (ms[0].role.Tool? ==> open) && Opens(ms[0]);
      StripKeepsAnswers(ms[1..], next);
      if ms[0].role.Tool? && !open {
      } else {
        var out := StripFrom(ms, open);
        assert out == [ms[0]] + StripFrom(ms[1..], next) && out[1..] == StripFrom(ms[1..], next);
        if IsCaller(ms[0]) {
          StripKeepsOpenRun(ms[1..]);
        } else {
          assert RequiredIds(ms[0]) == [];
        }
      }
    }
  }

  /** A request the chat API accepts: every call answered in its run, every tool message in a call's run. */
  ghost predicate WellPaired(ms: seq<Message>) {
    AllAnswered(ms) && AllHeaded(ms)
  }

  /** Stripping heads every tool message, changes only lists that need it and loses no answer. */
  lemma StripOrphansCorrect(ms: seq<Message>)
    ensures AllHeaded(StripOrphans(ms))
    ensures StripOrphans(ms) == ms <==> AllHeaded(ms)
    ensures AllAnswered(ms) ==> AllAnswered(StripOrphans(ms))
  {
    StripIsHeaded(ms, false);
    HeadedIff(ms);
    HeadedIff(StripOrphans(ms));
    AnsweredIff(ms);
    AnsweredIff(StripOrphans(ms));
    if AllAnswered(ms) {
      StripKeepsAnswers(ms, false);
    }
  }

  /** Whatever the history, the assembled request is well paired, and assembling it again changes nothing. */
  lemma RequestWellPaired(ms: seq<Message>)
    ensures WellPaired(StripOrphans(Repair(ms)))
    ensures StripOrphans(Repair(StripOrphans(Repair(ms)))) == StripOrphans(Repair(ms))
  {
    RepairFixpoint(ms);
    StripOrphansCorrect(Repair(ms));
    RepairFixpoint(StripOrphans(Repair(ms)));
    StripOrphansCorrect(StripOrphans(Repair(ms)));
  }
}
