/** The registry object, and what holds in every state it can reach. */
module AskUserRuns {
  import opened Text
  import opened AskUser

  datatype Event =
    | Register(bid: string, questions: seq<Question>, customLabel: string)
    | Resolve(batchId: string, answers: seq<Answer>)
    | Fragment(fragmentBatch: string, answer: Answer)
    | Cancel(cancelled: string)
    | Abandon(abandoned: string)

  function Step(r: Registry, e: Event): Registry {
    match e
    case Register(bid, qs, l) => OnRegister(r, bid, qs, l)
    case Resolve(bid, answers) => OnResolve(r, bid, answers).0
    case Fragment(bid, a) => OnFragment(r, bid, a).0
    case Cancel(bid) => OnCancel(r, bid).0
    case Abandon(bid) => OnAbandon(r, bid)
  }

  /** Batches get fresh ids, and only normalised questions are registered. */
  ghost predicate Allowed(r: Registry, e: Event) {
    e.Register? ==> e.bid !in r.asked && ProperQuestions(e.questions)
  }

  const EMPTY: Registry := Registry(map[], map[], map[], map[], map[], map[], map[], map[])

  function Run(events: seq<Event>): Registry {
    if events == [] then EMPTY else Step(Run(events[..|events| - 1]), events[|events| - 1])
  }

  ghost predicate AllowedRun(events: seq<Event>) {
    events == [] || (AllowedRun(events[..|events| - 1]) && Allowed(Run(events[..|events| - 1]), events[|events| - 1]))
  }

  // ---- The invariant

  ghost predicate SameKeys(r: Registry) {
    r.futures.Keys == r.optionSets.Keys == r.questionIds.Keys == r.partials.Keys == r.payloads.Keys == r.labels.Keys
  }

  /** A partial answer is stored under its question and is one the question accepts. */
  ghost predicate PartialProper(partial: map<string, Answer>, qs: seq<Question>) {
    forall qid :: qid in partial ==>
      && qid in OptionSets(qs) && Satisfies(partial[qid], OptionSets(qs)[qid])
      && partial[qid].questionId == qid && partial[qid] == Canonical(partial[qid])
  }

  ghost predicate BatchProper(r: Registry, bid: string)
    requires SameKeys(r) && bid in r.futures
  {
    && bid in r.asked && ProperQuestions(r.asked[bid])
    && r.payloads[bid] == r.asked[bid]
    && r.questionIds[bid] == Ids(r.asked[bid])
    && r.optionSets[bid] == OptionSets(r.asked[bid])
    && PartialProper(r.partials[bid], r.asked[bid])
    && MissingIds(r.questionIds[bid], r.partials[bid]) != []
    && (if r.futures[bid].Waiting? then bid !in r.results else bid in r.results && r.results[bid] == [Cancelled])
  }

  /** Free text that is not blank, or one of the listed options. */
  ghost predicate Acceptable(a: Answer, options: seq<string>) {
    || (a.custom.Some? && Strip(a.custom.value) != "")
    || (a.selected.Some? && Strip(a.selected.value) != "" && Strip(a.selected.value) in options)
  }

  /** The answer at `k` is the last one given to the question. */
  ghost predicate LastWord(answers: seq<Answer>, id: string, k: int) {
    && 0 <= k < |answers| && Strip(answers[k].questionId) == id
    && forall j :: k < j < |answers| ==> Strip(answers[j].questionId) != id
  }

  /** Every question has an acceptable last answer. */
  ghost predicate Complete(answers: seq<Answer>, qs: seq<Question>) {
    forall i :: 0 <= i < |qs| ==>
      exists k :: LastWord(answers, qs[i].id, k) && Acceptable(answers[k], qs[i].options)
  }

  /** A batch's future is settled once, and with a complete decision if with answers. */
  ghost predicate ResultProper(r: Registry, bid: string)
    requires bid in r.results
  {
    && bid in r.asked && |r.results[bid]| == 1
    && (r.results[bid][0].Answered? ==> Complete(r.results[bid][0].answers, r.asked[bid]))
  }

  ghost predicate Inv(r: Registry) {
    && SameKeys(r)
    && (forall bid :: bid in r.futures ==> BatchProper(r, bid))
    && (forall bid :: bid in r.results ==> ResultProper(r, bid))
  }

  // ---- Answers gathered one by one

  lemma {:induction false} GatheredLast(ids: seq<string>, partial: map<string, Answer>, i: nat)
    requires i < |ids| && NoDuplicates(ids) && ids[i] != "" && ids[i] in partial
    requires forall k :: 0 <= k < |ids| && ids[k] in partial ==> partial[ids[k]].questionId == ids[k]
    requires forall k :: 0 <= k < |ids| ==> Stripped(ids[k])
    ensures LastFor(Gathered(ids, partial), ids[i]) == Some(partial[ids[i]])
    decreases |ids|
  {
    hide Strip, Stripped;
    var n := |ids| - 1;
    var last := Gathered(ids, partial)[n];
    assert last.questionId == ids[n];
    StripIdentity(ids[n]);
    if i < n {
      assert ids[i] != ids[n];
      assert forall k :: 0 <= k < n ==> ids[..n][k] == ids[k];
      assert Gathered(ids, partial)[..n] == Gathered(ids[..n], partial);
      GatheredLast(ids[..n], partial, i);
    }
  }

  lemma {:induction false} LastForIsLast(answers: seq<Answer>, id: string) returns (k: int)
    requires id != ""
    ensures LastFor(answers, id).Some? ==> LastWord(answers, id, k) && LastFor(answers, id) == Some(answers[k])
    ensures LastFor(answers, id).None? ==> forall j :: !LastWord(answers, id, j)
    decreases |answers|
  {
    hide Strip;
    k := |answers| - 1;
    if answers != [] && Strip(answers[k].questionId) != id {
      var n := k;
      k := LastForIsLast(answers[..n], id);
      forall j ensures LastWord(answers, id, j) <==> LastWord(answers[..n], id, j) {}
    }
  }

  lemma SatisfiesIff(a: Answer, options: seq<string>)
    ensures Satisfies(a, set o | o in options) <==> Acceptable(a, options)
  {
  }

  /** The last answer to a question satisfies its options exactly when it is acceptable. */
  lemma LastAcceptable(answers: seq<Answer>, q: Question)
    requires q.id != ""
    ensures LastFor(answers, q.id).Some? && Satisfies(LastFor(answers, q.id).value, set o | o in q.options)
       <==> exists k :: LastWord(answers, q.id, k) && Acceptable(answers[k], q.options)
  {
    hide LastFor, Satisfies, Acceptable;
    var k := LastForIsLast(answers, q.id);
    forall j | LastWord(answers, q.id, j) && LastWord(answers, q.id, k) ensures j == k {}
    if LastFor(answers, q.id).Some? {
      SatisfiesIff(answers[k], q.options);
    }
  }

  /** The check by ids and option sets accepts exactly the complete decisions. */
  lemma DecisionComplete(qs: seq<Question>, answers: seq<Answer>)
    requires ProperQuestions(qs)
    ensures ValidDecision(Ids(qs), OptionSets(qs), answers) <==> Complete(answers, qs)
  {
    forall i | 0 <= i < |qs|
      ensures qs[i].id in OptionSets(qs) && OptionSets(qs)[qs[i].id] == set o | o in qs[i].options
    {
      OptionSetsAt(qs, i);
    }
    hide LastFor, Satisfies, LastWord, Acceptable, OptionSets;
    forall i | 0 <= i < |qs|
      ensures LastFor(answers, qs[i].id).Some?
              && Satisfies(LastFor(answers, qs[i].id).value, set o | o in qs[i].options)
         <==> exists k :: LastWord(answers, qs[i].id, k) && Acceptable(answers[k], qs[i].options)
    {
      LastAcceptable(answers, qs[i]);
    }
    assert forall i :: 0 <= i < |qs| ==> Ids(qs)[i] == qs[i].id;
  }

  /** Answers accepted one by one pass the whole-batch check once none is missing. */
  lemma GatheredValid(qs: seq<Question>, partial: map<string, Answer>)
    requires ProperQuestions(qs) && PartialProper(partial, qs) && MissingIds(Ids(qs), partial) == []
    ensures ValidDecision(Ids(qs), OptionSets(qs), Gathered(Ids(qs), partial))
  {
    var ids := Ids(qs);
    forall i | 0 <= i < |ids|
      ensures ids[i] in partial && ids[i] in OptionSets(qs)
              && LastFor(Gathered(ids, partial), ids[i]) == Some(partial[ids[i]])
    {
      MissingMember(ids, partial, ids[i]);
      assert ids[i] == qs[i].id;
      GatheredLast(ids, partial, i);
    }
  }

  lemma CanonicalSatisfies(a: Answer, options: set<string>)
    requires Satisfies(a, options)
    ensures Satisfies(Canonical(a), options) && Canonical(Canonical(a)) == Canonical(a)
    ensures Canonical(a).questionId == Strip(a.questionId)
  {
    StripIdentity(Field(a.custom));
    StripIdentity(Field(a.selected));
    StripIdentity(Strip(a.questionId));
  }

  lemma PartialAdd(qs: seq<Question>, partial: map<string, Answer>, a: Answer)
    requires PartialProper(partial, qs)
    requires Strip(a.questionId) in OptionSets(qs) && Satisfies(a, OptionSets(qs)[Strip(a.questionId)])
    ensures PartialProper(partial[Strip(a.questionId) := Canonical(a)], qs)
  {
    CanonicalSatisfies(a, OptionSets(qs)[Strip(a.questionId)]);
  }

  /** The failure branch of a completing fragment is never taken. */
  lemma FragmentNeverRefusedWhole(r: Registry, batchId: string, a: Answer)
    requires Inv(r)
    ensures OnFragment(r, batchId, a).1 != RefusedWhole
  {
    var bid, qid := Strip(batchId), Strip(a.questionId);
    if Open(r, bid) && qid in OptionsOf(r, bid) && Satisfies(a, OptionsOf(r, bid)[qid]) {
      assert BatchProper(r, bid);
      PartialAdd(r.asked[bid], r.partials[bid], a);
      var partial := r.partials[bid][qid := Canonical(a)];
      if MissingIds(IdsOf(r, bid), partial) == [] {
        GatheredValid(r.asked[bid], partial);
      }
    }
  }

  // ---- The invariant is kept

  /** What forgetting a batch leaves of each map. */
  lemma ForgetFields(r: Registry, bid: string)
    ensures var r' := Forget(r, bid);
            && r'.futures == r.futures - {bid} && r'.optionSets == r.optionSets - {bid}
            && r'.questionIds == r.questionIds - {bid} && r'.partials == r.partials - {bid}
            && r'.payloads == r.payloads - {bid} && r'.labels == r.labels - {bid}
            && r'.results == r.results && r'.asked == r.asked
  {
  }

  /** Settling a batch adds to its results and touches nothing else. */
  lemma SettleFields(r: Registry, bid: string, result: Result)
    ensures var r' := Settle(r, bid, result);
            && r'.futures == r.futures && r'.optionSets == r.optionSets && r'.questionIds == r.questionIds
            && r'.partials == r.partials && r'.payloads == r.payloads && r'.labels == r.labels && r'.asked == r.asked
            && r'.results == r.results[bid := (if bid in r.results then r.results[bid] else []) + [result]]
  {
  }

  /** Abandoning an open batch marks its future, settles it as cancelled and keeps its entries. */
  lemma AbandonFields(r: Registry, bid: string)
    requires Open(r, bid)
    ensures var r' := OnAbandon(r, bid);
            && r'.futures == r.futures[bid := AlreadyDone] && r'.optionSets == r.optionSets
            && r'.questionIds == r.questionIds && r'.partials == r.partials && r'.payloads == r.payloads
            && r'.labels == r.labels && r'.asked == r.asked
            && r'.results == r.results[bid := (if bid in r.results then r.results[bid] else []) + [Cancelled]]
  {
    hide Settle;
    SettleFields(r.(futures := r.futures[bid := AlreadyDone]), bid, Cancelled);
  }

  /** The two registries agree on what they hold for `b`. */
  ghost predicate AgreeOn(r: Registry, r': Registry, b: string)
    requires SameKeys(r) && SameKeys(r')
  {
    && (b in r.futures <==> b in r'.futures)
    && (b in r.futures ==>
          && r.futures[b] == r'.futures[b] && r.optionSets[b] == r'.optionSets[b]
          && r.questionIds[b] == r'.questionIds[b] && r.partials[b] == r'.partials[b]
          && r.payloads[b] == r'.payloads[b])
    && (b in r.asked <==> b in r'.asked) && (b in r.asked ==> r.asked[b] == r'.asked[b])
    && (b in r.results <==> b in r'.results) && (b in r.results ==> r.results[b] == r'.results[b])
  }

  lemma AgreeTransfers(r: Registry, r': Registry, b: string)
    requires Inv(r) && SameKeys(r') && AgreeOn(r, r', b)
    ensures b in r'.futures ==> BatchProper(r', b)
    ensures b in r'.results ==> ResultProper(r', b)
  {
    assert b in r.futures ==> BatchProper(r, b);
    assert b in r.results ==> ResultProper(r, b);
  }

  /** A change to one batch keeps the invariant if that batch is proper afterwards. */
  lemma OnlyOneChanges(r: Registry, r': Registry, bid: string)
    requires Inv(r) && SameKeys(r')
    requires forall b :: b != bid ==> AgreeOn(r, r', b)
    requires bid in r'.futures ==> BatchProper(r', bid)
    requires bid in r'.results ==> ResultProper(r', bid)
    ensures Inv(r')
  {
    forall b | b != bid
      ensures (b in r'.futures ==> BatchProper(r', b)) && (b in r'.results ==> ResultProper(r', b))
    {
      AgreeTransfers(r, r', b);
    }
  }

  lemma ForgetAgrees(r: Registry, bid: string, b: string)
    requires SameKeys(r) && b != bid
    ensures SameKeys(Forget(r, bid)) && AgreeOn(r, Forget(r, bid), b)
  {
    hide Forget;
    ForgetFields(r, bid);
  }

  lemma SettleAgrees(r: Registry, bid: string, result: Result, b: string)
    requires SameKeys(r) && b != bid
    ensures SameKeys(Settle(Forget(r, bid), bid, result)) && AgreeOn(r, Settle(Forget(r, bid), bid, result), b)
  {
    hide Forget, Settle;
    ForgetFields(r, bid);
    SettleFields(Forget(r, bid), bid, result);
  }

  lemma RegisterAgrees(r: Registry, bid: string, qs: seq<Question>, l: string, b: string)
    requires SameKeys(r) && b != bid
    ensures SameKeys(OnRegister(r, bid, qs, l)) && AgreeOn(r, OnRegister(r, bid, qs, l), b)
  {
  }

  lemma PartialAgrees(r: Registry, bid: string, partial: map<string, Answer>, b: string)
    requires SameKeys(r) && bid in r.futures && b != bid
    ensures var r' := r.(partials := r.partials[bid := partial]); SameKeys(r') && AgreeOn(r, r', b)
  {
  }

  lemma AbandonAgrees(r: Registry, bid: string, b: string)
    requires SameKeys(r) && Open(r, bid) && b != bid
    ensures SameKeys(OnAbandon(r, bid)) && AgreeOn(r, OnAbandon(r, bid), b)
  {
    hide OnAbandon;
    AbandonFields(r, bid);
  }

  lemma PartialKeeps(r: Registry, bid: string, partial: map<string, Answer>)
    requires Inv(r) && bid in r.futures
    requires PartialProper(partial, r.asked[bid]) && MissingIds(r.questionIds[bid], partial) != []
    ensures Inv(r.(partials := r.partials[bid := partial]))
  {
    hide AgreeOn, ProperQuestions, PartialProper, Complete, MissingIds;
    var r' := r.(partials := r.partials[bid := partial]);
    assert BatchProper(r, bid);
    assert bid in r.results ==> ResultProper(r, bid);
    PartialAgrees(r, bid, partial, bid + "x");
    forall b | b != bid ensures AgreeOn(r, r', b) { PartialAgrees(r, bid, partial, b); }
    OnlyOneChanges(r, r', bid);
  }

  /** What registering a batch puts into each map. */
  lemma RegisterFields(r: Registry, bid: string, qs: seq<Question>, l: string)
    ensures var r' := OnRegister(r, bid, qs, l);
            && r'.futures == r.futures[bid := Waiting] && r'.optionSets == r.optionSets[bid := OptionSets(qs)]
            && r'.questionIds == r.questionIds[bid := Ids(qs)] && r'.partials == r.partials[bid := map[]]
            && r'.payloads == r.payloads[bid := qs] && r'.asked == r.asked[bid := qs] && r'.results == r.results
  {
  }

  lemma RegisteredBatch(r: Registry, bid: string, qs: seq<Question>, l: string)
    requires SameKeys(r) && bid !in r.results && ProperQuestions(qs)
    requires SameKeys(OnRegister(r, bid, qs, l))
    ensures bid in OnRegister(r, bid, qs, l).futures && BatchProper(OnRegister(r, bid, qs, l), bid)
  {
    hide OnRegister, OptionSets, MissingIds, ProperQuestions, PartialProper;
    RegisterFields(r, bid, qs, l);
    NothingAnswered(qs);
  }

  lemma NothingAnswered(qs: seq<Question>)
    requires ProperQuestions(qs)
    ensures MissingIds(Ids(qs), map[]) != [] && PartialProper(map[], qs)
  {
    hide ProperOptions, OptionSets, MissingIds;
    MissingMember(Ids(qs), map[], Ids(qs)[0]);
  }

  lemma RegisterKeeps(r: Registry, bid: string, qs: seq<Question>, l: string)
    requires Inv(r) && bid !in r.asked && ProperQuestions(qs)
    ensures Inv(OnRegister(r, bid, qs, l))
  {
    hide AgreeOn, BatchProper, ProperQuestions, Complete;
    assert bid in r.results ==> ResultProper(r, bid);
    hide OnRegister;
    RegisterAgrees(r, bid, qs, l, bid + "x");
    RegisterFields(r, bid, qs, l);
    RegisteredBatch(r, bid, qs, l);
    var r' := OnRegister(r, bid, qs, l);
    forall b | b != bid ensures AgreeOn(r, r', b) { RegisterAgrees(r, bid, qs, l, b); }
    OnlyOneChanges(r, r', bid);
  }

  lemma SettleKeeps(r: Registry, bid: string, result: Result)
    requires Inv(r) && Open(r, bid)
    requires result.Answered? ==> bid in r.asked && Complete(result.answers, r.asked[bid])
    ensures Inv(Settle(Forget(r, bid), bid, result))
  {
    hide AgreeOn, ProperQuestions, PartialProper, Complete, MissingIds, Forget, Settle;
    assert BatchProper(r, bid);
    var r' := Settle(Forget(r, bid), bid, result);
    ForgetFields(r, bid);
    SettleFields(Forget(r, bid), bid, result);
    SettleAgrees(r, bid, result, bid + "x");
    forall b | b != bid ensures AgreeOn(r, r', b) { SettleAgrees(r, bid, result, b); }
    OnlyOneChanges(r, r', bid);
  }

  lemma ForgetKeeps(r: Registry, bid: string)
    requires Inv(r)
    ensures Inv(Forget(r, bid))
  {
    hide BatchProper, AgreeOn, ProperQuestions;
    assert bid in r.results ==> ResultProper(r, bid);
    var r' := Forget(r, bid);
    ForgetAgrees(r, bid, bid + "x");
    forall b | b != bid ensures AgreeOn(r, r', b) { ForgetAgrees(r, bid, b); }
    OnlyOneChanges(r, r', bid);
  }

  lemma FragmentKeeps(r: Registry, batchId: string, a: Answer)
    requires Inv(r)
    ensures Inv(OnFragment(r, batchId, a).0)
  {
    hide ValidDecision, Forget, Settle, Complete, ResultProper, Satisfies, MissingIds, Gathered, Canonical;
    var bid, qid := Strip(batchId), Strip(a.questionId);
    FragmentNeverRefusedWhole(r, batchId, a);
    if Open(r, bid) && qid in OptionsOf(r, bid) && Satisfies(a, OptionsOf(r, bid)[qid]) {
      assert BatchProper(r, bid);
      PartialAdd(r.asked[bid], r.partials[bid], a);
      var partial := r.partials[bid][qid := Canonical(a)];
      if MissingIds(IdsOf(r, bid), partial) == [] {
        GatheredValid(r.asked[bid], partial);
        DecisionComplete(r.asked[bid], Gathered(IdsOf(r, bid), partial));
        SettleKeeps(r, bid, Answered(Gathered(IdsOf(r, bid), partial)));
      } else {
        PartialKeeps(r, bid, partial);
      }
    }
  }

  lemma AbandonedBatch(r: Registry, bid: string)
    requires Inv(r) && Open(r, bid) && SameKeys(OnAbandon(r, bid))
    ensures BatchProper(OnAbandon(r, bid), bid) && ResultProper(OnAbandon(r, bid), bid)
  {
    hide OnAbandon, ProperQuestions, PartialProper, Complete, MissingIds, Ids, OptionSets;
    AbandonFields(r, bid);
    assert BatchProper(r, bid);
  }

  lemma AbandonKeeps(r: Registry, bid: string)
    requires Inv(r)
    ensures Inv(OnAbandon(r, bid))
  {
    if Open(r, bid) {
      hide OnAbandon, AgreeOn, BatchProper, ResultProper, Open;
      var r' := OnAbandon(r, bid);
      AbandonAgrees(r, bid, bid + "x");
      forall b | b != bid ensures AgreeOn(r, r', b) { AbandonAgrees(r, bid, b); }
      AbandonedBatch(r, bid);
      OnlyOneChanges(r, r', bid);
    }
  }

  lemma ResolveKeeps(r: Registry, batchId: string, answers: seq<Answer>)
    requires Inv(r)
    ensures Inv(OnResolve(r, batchId, answers).0)
  {
    hide ValidDecision, Forget, Settle, Complete, ResultProper, ProperQuestions;
    var bid := Strip(batchId);
    if Open(r, bid) && ValidDecision(IdsOf(r, bid), OptionsOf(r, bid), answers) {
      assert BatchProper(r, bid);
      DecisionComplete(r.asked[bid], answers);
      SettleKeeps(r, bid, Answered(answers));
    }
  }

  lemma CancelKeeps(r: Registry, bid: string)
    requires Inv(r)
    ensures Inv(OnCancel(r, bid).0)
  {
    hide Inv, Forget, Settle;
    if Open(r, bid) {
      SettleKeeps(r, bid, Cancelled);
    } else {
      ForgetKeeps(r, bid);
    }
  }

  lemma StepKeeps(r: Registry, e: Event)
    requires Inv(r) && Allowed(r, e)
    ensures Inv(Step(r, e))
  {
    hide Inv, OnRegister, OnResolve, OnFragment, OnCancel, OnAbandon, ProperQuestions;
    match e {
      case Register(bid, qs, l) => RegisterKeeps(r, bid, qs, l);
      case Resolve(batchId, answers) => ResolveKeeps(r, batchId, answers);
      case Fragment(bid, a) => FragmentKeeps(r, bid, a);
      case Cancel(bid) => CancelKeeps(r, bid);
      case Abandon(bid) => AbandonKeeps(r, bid);
    }
  }

  /** In every reachable state the maps agree, each batch is settled at most once and only with complete answers. */
  lemma {:induction false} RunKeeps(events: seq<Event>)
    requires AllowedRun(events)
    ensures Inv(Run(events))
  {
    if events != [] {
      RunKeeps(events[..|events| - 1]);
      StepKeeps(Run(events[..|events| - 1]), events[|events| - 1]);
    }
  }

  // ---- The last word on every question

  /** The last acceptable answer given for a question since its batch was registered, in stored form. */
  function LastAccepted(events: seq<Event>, bid: string, qid: string, options: set<string>): Option<Answer> {
    if events == [] then None
    else
      var e, before := events[|events| - 1], LastAccepted(events[..|events| - 1], bid, qid, options);
      match e
      case Register(b, _, _) => if b == bid then None else before
      case Fragment(b, a) =>
        if Strip(b) == bid && Strip(a.questionId) == qid && Satisfies(a, options) then Some(Canonical(a)) else before
      case _ => before
  }

  function Stored(partial: map<string, Answer>, qid: string): Option<Answer> {
    if qid in partial then Some(partial[qid]) else None
  }

  /** A batch with the given answers so far holds the last acceptable one to each question. */
  ghost predicate HoldsLast(partial: map<string, Answer>, options: map<string, set<string>>, events: seq<Event>,
                            bid: string)
  {
    forall qid :: qid in options ==> Stored(partial, qid) == LastAccepted(events, bid, qid, options[qid])
  }

  /** What an event makes of the answers of a batch it leaves open. */
  function Effect(e: Event, bid: string, partial: map<string, Answer>, options: map<string, set<string>>)
    : map<string, Answer>
  {
    match e
    case Register(b, _, _) => if b == bid then map[] else partial
    case Fragment(b, a) =>
      if Strip(b) == bid && Strip(a.questionId) in options && Satisfies(a, options[Strip(a.questionId)])
      then partial[Strip(a.questionId) := Canonical(a)] else partial
    case _ => partial
  }

  lemma EffectHoldsLast(events: seq<Event>, e: Event, bid: string, partial: map<string, Answer>,
                        options: map<string, set<string>>)
    requires HoldsLast(partial, options, events, bid) || (e.Register? && e.bid == bid)
    ensures HoldsLast(Effect(e, bid, partial, options), options, events + [e], bid)
  {
    assert (events + [e])[..|events|] == events;
  }

  function PartialsOf(r: Registry, bid: string): map<string, Answer> {
    if bid in r.partials then r.partials[bid] else map[]
  }

  /** Open afterwards only if open before, with the same options and answers. */
  predicate SameWhileOpen(r: Registry, r': Registry, bid: string) {
    Open(r', bid) ==>
      Open(r, bid) && OptionsOf(r', bid) == OptionsOf(r, bid) && PartialsOf(r', bid) == PartialsOf(r, bid)
  }

  lemma ForgetSameWhileOpen(r: Registry, gone: string, result: Result, bid: string)
    ensures SameWhileOpen(r, Forget(r, gone), bid) && SameWhileOpen(r, Settle(Forget(r, gone), gone, result), bid)
  {
    hide Forget, Settle;
    ForgetFields(r, gone);
    SettleFields(Forget(r, gone), gone, result);
  }

  lemma NotAbandoned(r: Registry, gone: string)
    requires !Open(r, gone)
    ensures OnAbandon(r, gone) == r
  {
  }

  lemma AbandonSameWhileOpen(r: Registry, gone: string, bid: string)
    ensures SameWhileOpen(r, OnAbandon(r, gone), bid)
  {
    hide OnAbandon;
    if Open(r, gone) {
      AbandonFields(r, gone);
    } else {
      assert OnAbandon(r, gone) == r by { NotAbandoned(r, gone); }
    }
  }

  lemma OtherEffect(r: Registry, e: Event, bid: string)
    requires e.Resolve? || e.Cancel? || e.Abandon?
    ensures SameWhileOpen(r, Step(r, e), bid)
  {
    match e {
      case Resolve(batchId, answers) => ForgetSameWhileOpen(r, Strip(batchId), Answered(answers), bid);
      case Cancel(gone) => ForgetSameWhileOpen(r, gone, Cancelled, bid);
      case Abandon(gone) => AbandonSameWhileOpen(r, gone, bid);
    }
  }

  /** A fragment is taken when its batch is open and its question accepts it. */
  predicate Taken(r: Registry, bid: string, a: Answer) {
    && Open(r, bid)
    && Strip(a.questionId) in OptionsOf(r, bid)
    && Satisfies(a, OptionsOf(r, bid)[Strip(a.questionId)])
  }

  function WithFragment(r: Registry, bid: string, a: Answer): map<string, Answer> {
    PartialsOf(r, bid)[Strip(a.questionId) := Canonical(a)]
  }

  /** The outcomes of a fragment, told by its reply. */
  lemma FragmentCases(r: Registry, batchId: string, a: Answer)
    ensures var bid := Strip(batchId);
            match OnFragment(r, batchId, a).1
            case Partial(_) => Taken(r, bid, a)
                && OnFragment(r, batchId, a).0 == r.(partials := r.partials[bid := WithFragment(r, bid, a)])
            case Completed => Taken(r, bid, a) && MissingIds(IdsOf(r, bid), WithFragment(r, bid, a)) == []
                && OnFragment(r, batchId, a).0
                   == Settle(Forget(r, bid), bid, Answered(Gathered(IdsOf(r, bid), WithFragment(r, bid, a))))
            case RefusedWhole => true
            case _ => !Taken(r, bid, a) && OnFragment(r, batchId, a).0 == r
  {
  }

  lemma PartialSameWhileOpen(r: Registry, target: string, partial: map<string, Answer>, bid: string)
    ensures var r' := r.(partials := r.partials[target := partial]);
            && Open(r', bid) == Open(r, bid) && OptionsOf(r', bid) == OptionsOf(r, bid)
            && PartialsOf(r', bid) == if target == bid then partial else PartialsOf(r, bid)
  {
  }

  lemma FragmentEffect(r: Registry, batchId: string, a: Answer, bid: string)
    requires OnFragment(r, batchId, a).1 != RefusedWhole
    requires Open(OnFragment(r, batchId, a).0, bid)
    ensures var r' := OnFragment(r, batchId, a).0;
            && Open(r, bid) && OptionsOf(r', bid) == OptionsOf(r, bid)
            && PartialsOf(r', bid) == Effect(Fragment(batchId, a), bid, PartialsOf(r, bid), OptionsOf(r, bid))
  {
    var target := Strip(batchId);
    FragmentCases(r, batchId, a);
    match OnFragment(r, batchId, a).1 {
      case Partial(_) => PartialSameWhileOpen(r, target, WithFragment(r, target, a), bid);
      case Completed =>
        ForgetSameWhileOpen(r, target, Answered(Gathered(IdsOf(r, target), WithFragment(r, target, a))), bid);
      case _ =>
    }
  }

  lemma RegisterEffect(r: Registry, e: Event, bid: string)
    requires e.Register? && Open(Step(r, e), bid)
    ensures e.bid != bid ==> SameWhileOpen(r, Step(r, e), bid)
    ensures e.bid == bid ==> PartialsOf(Step(r, e), bid) == map[]
  {
  }

  /** What an event does to a batch that is open afterwards. */
  lemma OpenEffect(r: Registry, e: Event, bid: string)
    requires Inv(r) && Open(Step(r, e), bid)
    ensures PartialsOf(Step(r, e), bid) == Effect(e, bid, PartialsOf(r, bid), OptionsOf(Step(r, e), bid))
    ensures !(e.Register? && e.bid == bid) ==> Open(r, bid) && OptionsOf(Step(r, e), bid) == OptionsOf(r, bid)
  {
    match e {
      case Register(_, _, _) => RegisterEffect(r, e, bid);
      case Fragment(batchId, a) =>
        FragmentNeverRefusedWhole(r, batchId, a);
        FragmentEffect(r, batchId, a, bid);
      case _ => OtherEffect(r, e, bid);
    }
  }

  lemma StepHoldsLast(r: Registry, events: seq<Event>, e: Event, bid: string)
    requires Inv(r) && Open(Step(r, e), bid)
    requires Open(r, bid) ==> HoldsLast(PartialsOf(r, bid), OptionsOf(r, bid), events, bid)
    ensures HoldsLast(PartialsOf(Step(r, e), bid), OptionsOf(Step(r, e), bid), events + [e], bid)
  {
    OpenEffect(r, e, bid);
    EffectHoldsLast(events, e, bid, PartialsOf(r, bid), OptionsOf(Step(r, e), bid));
  }

  lemma {:induction false} RunHoldsLast(events: seq<Event>, bid: string)
    requires AllowedRun(events) && Open(Run(events), bid)
    ensures HoldsLast(PartialsOf(Run(events), bid), OptionsOf(Run(events), bid), events, bid)
  {
    var before, e := events[..|events| - 1], events[|events| - 1];
    RunKeeps(before);
    if Open(Run(before), bid) {
      RunHoldsLast(before, bid);
    }
    StepHoldsLast(Run(before), before, e, bid);
    FrontAndLast(events);
  }

  lemma FrontAndLast(events: seq<Event>)
    requires events != []
    ensures events[..|events| - 1] + [events[|events| - 1]] == events
  {
  }

  /** Settled with these answers: one per question, in order, each the last acceptable one given. */
  ghost predicate SettledWithLast(events: seq<Event>, bid: string, qs: seq<Question>, results: seq<Result>) {
    && |results| == 1 && results[0].Answered?
    && |results[0].answers| == |qs| && Complete(results[0].answers, qs)
    && forall i :: 0 <= i < |qs| ==>
         LastAccepted(events, bid, qs[i].id, set o | o in qs[i].options) == Some(results[0].answers[i])
  }

  lemma GatheredHoldsLast(events: seq<Event>, bid: string, qs: seq<Question>, partial: map<string, Answer>)
    requires ProperQuestions(qs) && PartialProper(partial, qs) && MissingIds(Ids(qs), partial) == []
    requires HoldsLast(partial, OptionSets(qs), events, bid)
    ensures SettledWithLast(events, bid, qs, [Answered(Gathered(Ids(qs), partial))])
  {
    GatheredValid(qs, partial);
    DecisionComplete(qs, Gathered(Ids(qs), partial));
    forall i | 0 <= i < |qs|
      ensures LastAccepted(events, bid, qs[i].id, set o | o in qs[i].options) == Some(Gathered(Ids(qs), partial)[i])
    {
      OptionSetsAt(qs, i);
      MissingMember(Ids(qs), partial, qs[i].id);
      assert Ids(qs)[i] == qs[i].id;
    }
  }

  /**
   The answer that completes a batch settles it with one answer per question, in order: for each the
   last acceptable one given, whatever was answered in between and in whatever order.
   */
  lemma FragmentsSettleWithLast(events: seq<Event>, batchId: string, a: Answer)
    requires AllowedRun(events) && OnFragment(Run(events), batchId, a).1 == Completed
    ensures SettlesWithLast(Run(events), events, batchId, a)
  {
    RunKeeps(events);
    FragmentCases(Run(events), batchId, a);
    RunHoldsLast(events, Strip(batchId));
    StepSettles(Run(events), events, batchId, a);
  }

  /** The fragment settles its batch with the last acceptable answer to every question, itself included. */
  ghost predicate SettlesWithLast(r: Registry, events: seq<Event>, batchId: string, a: Answer) {
    var bid, r' := Strip(batchId), OnFragment(r, batchId, a).0;
    && bid in r.asked && bid in r'.results
    && SettledWithLast(events + [Fragment(batchId, a)], bid, r.asked[bid], r'.results[bid])
  }

  lemma InvParts(r: Registry, bid: string)
    requires Inv(r)
    ensures SameKeys(r) && (bid in r.futures ==> BatchProper(r, bid))
  {
  }

  lemma StepSettles(r: Registry, events: seq<Event>, batchId: string, a: Answer)
    requires Inv(r) && OnFragment(r, batchId, a).1 == Completed
    requires HoldsLast(PartialsOf(r, Strip(batchId)), OptionsOf(r, Strip(batchId)), events, Strip(batchId))
    ensures SettlesWithLast(r, events, batchId, a)
  {
    hide Inv, HoldsLast, OnFragment, Forget, Settle, Gathered, MissingIds, OptionSets, ProperQuestions, PartialProper;
    hide LastAccepted, SettledWithLast, Canonical;
    var bid := Strip(batchId);
    FragmentCases(r, batchId, a);
    InvParts(r, bid);
    LastFragmentSettles(events, Fragment(batchId, a), bid, r.asked[bid], r.partials[bid]);
    ForgetFields(r, bid);
    var result := Answered(Gathered(IdsOf(r, bid), WithFragment(r, bid, a)));
    SettleFields(Forget(r, bid), bid, result);
    assert [] + [result] == [result];
  }

  lemma LastFragmentSettles(events: seq<Event>, e: Event, bid: string, qs: seq<Question>, partial: map<string, Answer>)
    requires e.Fragment? && Strip(e.fragmentBatch) == bid && ProperQuestions(qs) && PartialProper(partial, qs)
    requires Strip(e.answer.questionId) in OptionSets(qs)
    requires Satisfies(e.answer, OptionSets(qs)[Strip(e.answer.questionId)])
    requires HoldsLast(partial, OptionSets(qs), events, bid)
    requires MissingIds(Ids(qs), partial[Strip(e.answer.questionId) := Canonical(e.answer)]) == []
    ensures SettledWithLast(events + [e], bid, qs,
                            [Answered(Gathered(Ids(qs), partial[Strip(e.answer.questionId) := Canonical(e.answer)]))])
  {
    EffectHoldsLast(events, e, bid, partial, OptionSets(qs));
    PartialAdd(qs, partial, e.answer);
    GatheredHoldsLast(events + [e], bid, qs, partial[Strip(e.answer.questionId) := Canonical(e.answer)]);
  }

  // ---- What each operation comes to

  /** The batch is in none of the six maps any more, all others are as before, and so is what was asked. */
  ghost predicate Dropped(r: Registry, r': Registry, bid: string) {
    && r'.futures == r.futures - {bid} && r'.optionSets == r.optionSets - {bid}
    && r'.questionIds == r.questionIds - {bid} && r'.partials == r.partials - {bid}
    && r'.payloads == r.payloads - {bid} && r'.labels == r.labels - {bid} && r'.asked == r.asked
  }

  /** The batch waits, under the trimmed id. */
  ghost predicate WaitsAs(r: Registry, bid: string) {
    bid in r.futures && r.futures[bid] == Waiting && bid in r.asked
  }

  /**
   A whole-batch decision settles the batch, with exactly these answers, if the batch waits and every
   question has an acceptable last answer; otherwise it changes nothing.
   */
  ghost predicate Resolved(r: Registry, r': Registry, bid: string, answers: seq<Answer>, ok: bool) {
    && (ok <==> WaitsAs(r, bid) && Complete(answers, r.asked[bid]))
    && if ok then Dropped(r, r', bid) && r'.results == r.results[bid := [Answered(answers)]] else r' == r
  }

  lemma ResolveOutcome(r: Registry, batchId: string, answers: seq<Answer>)
    ensures Inv(r) ==>
              Resolved(r, OnResolve(r, batchId, answers).0, Strip(batchId), answers, OnResolve(r, batchId, answers).1)
  {
    hide Forget, Settle, Complete, ValidDecision, Dropped, Strip;
    var bid := Strip(batchId);
    if Inv(r) && bid in r.futures {
      BatchFacts(r, bid, answers);
      if Open(r, bid) {
        SettledBatch(r, bid, answers);
      }
    }
  }

  /** What the invariant says of a batch that is still there. */
  lemma BatchFacts(r: Registry, bid: string, answers: seq<Answer>)
    requires Inv(r) && bid in r.futures
    ensures bid in r.asked && bid in r.partials && (Open(r, bid) ==> bid !in r.results)
    ensures IdsOf(r, bid) == Ids(r.asked[bid]) && OptionsOf(r, bid) == OptionSets(r.asked[bid])
    ensures ValidDecision(IdsOf(r, bid), OptionsOf(r, bid), answers) <==> Complete(answers, r.asked[bid])
  {
    hide ProperQuestions, PartialProper, Complete, MissingIds, OptionSets, Ids, ValidDecision;
    assert BatchProper(r, bid);
    DecisionComplete(r.asked[bid], answers);
  }

  /** Cancelling forgets the batch, and tells a waiting tool so. */
  ghost predicate CancelledBatch(r: Registry, r': Registry, bid: string, ok: bool) {
    && (ok <==> WaitsAs(r, bid)) && Dropped(r, r', bid)
    && r'.results == if ok then r.results[bid := [Cancelled]] else r.results
  }

  lemma CancelOutcome(r: Registry, bid: string)
    ensures Inv(r) ==> CancelledBatch(r, OnCancel(r, bid).0, bid, OnCancel(r, bid).1)
  {
    hide Forget, Settle, ProperQuestions, PartialProper, MissingIds, OptionSets, Ids;
    assert Inv(r) && bid in r.futures ==> BatchProper(r, bid);
    ForgetFields(r, bid);
    SettleFields(Forget(r, bid), bid, Cancelled);
    assert [] + [Cancelled] == [Cancelled];
  }

  /** The form in which an answer is stored: trimmed, and only its free text if it has any. */
  ghost predicate StoredAs(a: Answer, stored: Answer) {
    && stored.questionId == Strip(a.questionId)
    && (if a.custom.Some? && Strip(a.custom.value) != "" then
          stored.selected == None && stored.custom == Some(Strip(a.custom.value))
        else
          stored.custom == None && a.selected.Some? && stored.selected == Some(Strip(a.selected.value)))
  }

  /** The ids of the questions without an answer, in the order of the questions. */
  ghost predicate StillOpen(qs: seq<Question>, partial: map<string, Answer>, missing: seq<string>) {
    && (forall id :: id in missing <==> id in Ids(qs) && id !in partial)
    && InOrder(missing, Ids(qs))
  }

  lemma {:induction false} MissingInOrder(ids: seq<string>, partial: map<string, Answer>)
    ensures InOrder(MissingIds(ids, partial), ids)
  {
    if ids != [] {
      MissingInOrder(ids[1..], partial);
      var missing := MissingIds(ids, partial);
      assert if ids[0] in partial then missing == MissingIds(ids[1..], partial)
             else missing[1..] == MissingIds(ids[1..], partial);
    }
  }

  /** The answer is stored, in its form, as the answer to its question; the other answers stay. */
  ghost predicate Stores(before: map<string, Answer>, partial: map<string, Answer>, a: Answer) {
    && partial.Keys == before.Keys + {Strip(a.questionId)}
    && StoredAs(a, partial[Strip(a.questionId)])
    && forall qid :: qid in before && qid != Strip(a.questionId) ==> partial[qid] == before[qid]
  }

  /** The answer is one that a question of the batch accepts. */
  ghost predicate AcceptedBy(a: Answer, qs: seq<Question>) {
    exists i :: 0 <= i < |qs| && qs[i].id == Strip(a.questionId) && Acceptable(a, qs[i].options)
  }

  /**
   What one answer comes to: it is refused without a batch that waits or a question that accepts it,
   and stored otherwise; the batch stays open with the questions still without an answer, or is settled
   with the stored answers in the order of the questions if there are none.
   */
  ghost predicate Submitted(r: Registry, r': Registry, bid: string, a: Answer, reply: FragmentReply) {
    if bid !in r.futures then reply == UnknownBatch && r' == r
    else if !WaitsAs(r, bid) || bid !in r.partials then reply == AlreadyResolved && r' == r
    else if !AcceptedBy(a, r.asked[bid]) then reply == Refused && r' == r
    else exists partial :: SubmittedWith(r, r', bid, a, partial, reply)
  }

  ghost predicate SubmittedWith(r: Registry, r': Registry, bid: string, a: Answer, partial: map<string, Answer>,
                                reply: FragmentReply)
    requires bid in r.asked && bid in r.partials
  {
    && Stores(r.partials[bid], partial, a)
    && match reply
       case Partial(missing) =>
         missing != [] && StillOpen(r.asked[bid], partial, missing) && r' == r.(partials := r.partials[bid := partial])
       case Completed =>
         && (forall id :: id in Ids(r.asked[bid]) ==> id in partial) && Dropped(r, r', bid)
         && exists answers ::
              r'.results == r.results[bid := [Answered(answers)]] && TakenFrom(r.asked[bid], partial, answers)
       case _ => false
  }

  /** One answer per question, in order, as stored. */
  ghost predicate TakenFrom(qs: seq<Question>, partial: map<string, Answer>, answers: seq<Answer>) {
    |answers| == |qs| && forall i :: 0 <= i < |qs| ==> qs[i].id in partial && answers[i] == partial[qs[i].id]
  }

  lemma AcceptedIff(r: Registry, bid: string, a: Answer)
    requires Inv(r) && Open(r, bid)
    ensures Taken(r, bid, a) <==> AcceptedBy(a, r.asked[bid])
  {
    hide Strip, Satisfies, Acceptable, OptionSets, MissingIds, PartialProper;
    assert BatchProper(r, bid);
    var qs, qid := r.asked[bid], Strip(a.questionId);
    forall i | 0 <= i < |qs| && qs[i].id == qid
      ensures qid in OptionSets(qs) && (Satisfies(a, OptionSets(qs)[qid]) <==> Acceptable(a, qs[i].options))
    {
      OptionSetsAt(qs, i);
      SatisfiesIff(a, qs[i].options);
    }
    OptionSetsFrom(qs, qid);
  }

  lemma {:induction false} OptionSetsFrom(qs: seq<Question>, qid: string)
    ensures qid in OptionSets(qs) ==> exists i :: 0 <= i < |qs| && qs[i].id == qid
  {
    if qs != [] {
      var front := qs[..|qs| - 1];
      OptionSetsFrom(front, qid);
      if i :| 0 <= i < |front| && front[i].id == qid {
        assert qs[i].id == qid;
      }
    }
  }

  lemma CanonicalStored(a: Answer, options: set<string>)
    requires Satisfies(a, options)
    ensures StoredAs(a, Canonical(a))
  {
  }

  lemma TakenOutcome(r: Registry, batchId: string, a: Answer)
    requires Inv(r) && Taken(r, Strip(batchId), a) && StoredAs(a, Canonical(a))
    ensures var bid := Strip(batchId);
            && bid in r.asked && bid in r.partials
            && SubmittedWith(r, OnFragment(r, batchId, a).0, bid, a, WithFragment(r, bid, a),
                             OnFragment(r, batchId, a).1)
  {
    hide Inv, Strip, Satisfies, Forget, Settle, MissingIds, Gathered, Canonical, StoredAs;
    hide OptionSets, Ids, OnFragment, StillOpen, Dropped;
    var bid, partial := Strip(batchId), WithFragment(r, Strip(batchId), a);
    BatchFacts(r, bid, []);
    FragmentNeverRefusedWhole(r, batchId, a);
    FragmentCases(r, batchId, a);
    PartialMissing(r, batchId, a);
    OpenUnless(r.asked[bid], partial);
    if OnFragment(r, batchId, a).1.Completed? {
      var answers := Gathered(Ids(r.asked[bid]), partial);
      SettledBatch(r, bid, answers);
      GatheredTaken(r.asked[bid], partial);
    }
  }

  lemma PartialMissing(r: Registry, batchId: string, a: Answer)
    ensures var bid := Strip(batchId);
            match OnFragment(r, batchId, a).1
            case Partial(missing) => missing == MissingIds(IdsOf(r, bid), WithFragment(r, bid, a)) && missing != []
            case _ => true
  {
  }

  lemma OpenUnless(qs: seq<Question>, partial: map<string, Answer>)
    ensures StillOpen(qs, partial, MissingIds(Ids(qs), partial))
    ensures MissingIds(Ids(qs), partial) == [] ==> forall id :: id in Ids(qs) ==> id in partial
  {
    hide Ids, MissingIds;
    MissingInOrder(Ids(qs), partial);
    forall id ensures id in MissingIds(Ids(qs), partial) <==> id in Ids(qs) && id !in partial {
      MissingMember(Ids(qs), partial, id);
    }
  }

  lemma SettledBatch(r: Registry, bid: string, answers: seq<Answer>)
    requires bid !in r.results
    ensures Dropped(r, Settle(Forget(r, bid), bid, Answered(answers)), bid)
    ensures Settle(Forget(r, bid), bid, Answered(answers)).results == r.results[bid := [Answered(answers)]]
  {
    hide Forget, Settle;
    ForgetFields(r, bid);
    SettleFields(Forget(r, bid), bid, Answered(answers));
    assert [] + [Answered(answers)] == [Answered(answers)];
  }

  lemma GatheredTaken(qs: seq<Question>, partial: map<string, Answer>)
    requires forall id :: id in Ids(qs) ==> id in partial
    ensures TakenFrom(qs, partial, Gathered(Ids(qs), partial))
  {
    forall i | 0 <= i < |qs| ensures qs[i].id in partial {
      assert Ids(qs)[i] == qs[i].id;
    }
  }

  lemma SubmitOutcome(r: Registry, batchId: string, a: Answer)
    ensures Inv(r) ==> Submitted(r, OnFragment(r, batchId, a).0, Strip(batchId), a, OnFragment(r, batchId, a).1)
  {
    hide Inv, Strip, Satisfies, Forget, Settle, MissingIds, Gathered, Canonical, StoredAs, AcceptedBy, SubmittedWith;
    hide OptionSets, Ids, ValidDecision;
    var bid := Strip(batchId);
    if Inv(r) && bid in r.futures {
      BatchFacts(r, bid, []);
      if Open(r, bid) {
        AcceptedIff(r, bid, a);
        if Taken(r, bid, a) {
          CanonicalStored(a, OptionsOf(r, bid)[Strip(a.questionId)]);
          TakenOutcome(r, batchId, a);
        }
      }
    }
  }

  /** The ids of the questions in order, and the options of each under its id. */
  ghost predicate IdsAndOptions(qs: seq<Question>, ids: seq<string>, options: map<string, set<string>>) {
    && |ids| == |qs|
    && forall i :: 0 <= i < |qs| ==>
         && ids[i] == qs[i].id
         && qs[i].id in options && options[qs[i].id] == set o | o in qs[i].options
  }

  /** The batch waits under its id, with its questions, their ids and options, no answers yet and its label. */
  ghost predicate Registered(r: Registry, r': Registry, bid: string, qs: seq<Question>, customLabel: string) {
    && r'.futures == r.futures[bid := Waiting] && r'.payloads == r.payloads[bid := qs]
    && r'.partials == r.partials[bid := map[]] && r'.asked == r.asked[bid := qs] && r'.results == r.results
    && r'.labels == r.labels[bid := if Strip(customLabel) == "" then "other (please specify)" else Strip(customLabel)]
    && exists ids, options ::
         && r'.questionIds == r.questionIds[bid := ids] && r'.optionSets == r.optionSets[bid := options]
         && IdsAndOptions(qs, ids, options)
  }

  lemma QuestionMaps(qs: seq<Question>)
    requires ProperQuestions(qs)
    ensures IdsAndOptions(qs, Ids(qs), OptionSets(qs))
  {
    hide OptionSets;
    forall i | 0 <= i < |qs|
      ensures qs[i].id in OptionSets(qs) && OptionSets(qs)[qs[i].id] == set o | o in qs[i].options
    {
      OptionSetsAt(qs, i);
    }
  }

  lemma RegisterOutcome(r: Registry, bid: string, qs: seq<Question>, customLabel: string)
    requires ProperQuestions(qs)
    ensures Registered(r, OnRegister(r, bid, qs, customLabel), bid, qs, customLabel)
  {
    hide Strip, OptionSets, Ids, IdsAndOptions, ProperQuestions;
    QuestionMaps(qs);
  }

  // ---- The registry object

  class AskUserRegistry {
    var futures: map<string, Future>
    var batchOptionSets: map<string, map<string, set<string>>>
    var batchQuestionIds: map<string, seq<string>>
    var partialAnswers: map<string, map<string, Answer>>
    var batchQuestionPayload: map<string, seq<Question>>
    var batchCustomLabel: map<string, string>
    var results: map<string, seq<Result>>
    ghost var asked: map<string, seq<Question>>

    ghost function State(): Registry
      reads this
    {
      Registry(futures, batchOptionSets, batchQuestionIds, partialAnswers, batchQuestionPayload, batchCustomLabel,
               results, asked)
    }

    constructor ()
      ensures State() == EMPTY
    {
      futures, batchOptionSets, batchQuestionIds, partialAnswers := map[], map[], map[], map[];
      batchQuestionPayload, batchCustomLabel, results, asked := map[], map[], map[], map[];
    }

    /** Registers a batch under a fresh id; nothing changes when the questions are refused. */
    method RegisterWait(bid: string, raw: seq<RawQuestion>, customLabel: string) returns (ok: bool)
      modifies this
      ensures ok <==> raw != [] && forall i :: 0 <= i < |raw| ==> !Malformed(raw, i)
      ensures !ok ==> State() == old(State())
      ensures ok ==> bid in asked && ProperQuestions(asked[bid]) && |asked[bid]| == |raw|
                     && (forall i :: 0 <= i < |raw| ==> NormalForm(raw[i], asked[bid][i], i))
                     && State() == OnRegister(old(State()), bid, asked[bid], customLabel)
                     && Registered(old(State()), State(), bid, asked[bid], customLabel)
    {
      hide ProperQuestions, NormalForm, Malformed, OnRegister, Registered;
      var normal := NormalizeQuestions(raw);
      ok := normal.Some?;
      if ok {
        StoreBatch(bid, normal.value, customLabel);
        RegisterOutcome(old(State()), bid, normal.value, customLabel);
      }
    }

    /** Puts a batch into all six maps. */
    method StoreBatch(bid: string, qs: seq<Question>, customLabel: string)
      modifies this
      ensures State() == OnRegister(old(State()), bid, qs, customLabel) && bid in asked && asked[bid] == qs
    {
      hide OptionSets, Ids, Strip;
      futures := futures[bid := Waiting];
      batchOptionSets := batchOptionSets[bid := OptionSets(qs)];
      batchQuestionIds := batchQuestionIds[bid := Ids(qs)];
      partialAnswers := partialAnswers[bid := map[]];
      batchQuestionPayload := batchQuestionPayload[bid := qs];
      var label' := if Strip(customLabel) != "" then Strip(customLabel) else DEFAULT_LABEL;
      batchCustomLabel := batchCustomLabel[bid := label'];
      asked := asked[bid := qs];
    }

    method PopAll(bid: string)
      modifies this
      ensures State() == Forget(old(State()), bid)
    {
      futures := futures - {bid};
      batchQuestionIds := batchQuestionIds - {bid};
      batchOptionSets := batchOptionSets - {bid};
      partialAnswers := partialAnswers - {bid};
      batchQuestionPayload := batchQuestionPayload - {bid};
      batchCustomLabel := batchCustomLabel - {bid};
    }

    method SetResult(bid: string, result: Result)
      modifies this`results
      ensures State() == Settle(old(State()), bid, result)
    {
      var earlier := if bid in results then results[bid] else [];
      results := results[bid := earlier + [result]];
    }

    /** Answers a whole batch; refused unless the batch is open and the answers are valid. */
    method ResolveAskUser(batchId: string, answers: seq<Answer>) returns (ok: bool)
      modifies this
      ensures (State(), ok) == OnResolve(old(State()), batchId, answers)
      ensures old(Inv(State())) ==> Resolved(old(State()), State(), Strip(batchId), answers, ok)
    {
      hide Resolved, Inv, ValidDecision;
      ghost var was := State();
      var bid := Strip(batchId);
      ok := bid in futures && futures[bid].Waiting?;
      if ok {
        ok := AnswerBatch(bid, answers);
      }
      assert (State(), ok) == OnResolve(was, batchId, answers);
      ResolveOutcome(was, batchId, answers);
    }

    /** Checks the answers to a batch that waits, and settles it with them if they are valid. */
    method AnswerBatch(bid: string, answers: seq<Answer>) returns (ok: bool)
      requires Stripped(bid) && bid in futures && futures[bid].Waiting?
      modifies this
      ensures (State(), ok) == OnResolve(old(State()), bid, answers)
    {
      StripIdentity(bid);
      var expectedIds := if bid in batchQuestionIds then batchQuestionIds[bid] else [];
      var options := if bid in batchOptionSets then batchOptionSets[bid] else map[];
      ok := ValidateDecision(expectedIds, options, answers);
      if !ok {
        return;
      }
      PopAll(bid);
      SetResult(bid, Answered(answers));
    }

    /** Answers one question; the answer that leaves none open settles the batch. */
    method SubmitFragment(batchId: string, a: Answer) returns (reply: FragmentReply)
      modifies this
      ensures (State(), reply) == OnFragment(old(State()), batchId, a)
      ensures old(Inv(State())) ==> Submitted(old(State()), State(), Strip(batchId), a, reply)
    {
      hide Submitted, Inv, Satisfies, ValidDecision, MissingIds, Gathered, Canonical, Forget, Settle;
      ghost var was := State();
      var bid := Strip(batchId);
      if bid !in futures {
        reply := UnknownBatch;
      } else if futures[bid].AlreadyDone? {
        reply := AlreadyResolved;
      } else {
        reply := StoreFragment(bid, a);
      }
      assert (State(), reply) == OnFragment(was, batchId, a);
      SubmitOutcome(was, batchId, a);
    }

    /** Stores an answer to a batch that waits, if its question accepts it. */
    method StoreFragment(bid: string, a: Answer) returns (reply: FragmentReply)
      requires Stripped(bid) && bid in futures && futures[bid].Waiting?
      modifies this
      ensures (State(), reply) == OnFragment(old(State()), bid, a)
    {
      StripIdentity(bid);
      var expectedIds := if bid in batchQuestionIds then batchQuestionIds[bid] else [];
      var options := if bid in batchOptionSets then batchOptionSets[bid] else map[];
      var qid := Strip(a.questionId);
      if qid !in options {
        return Refused;
      }
      var fine := CheckAnswer(a, options[qid]);
      if !fine {
        return Refused;
      }
      var before := if bid in partialAnswers then partialAnswers[bid] else map[];
      var partial := before[qid := Canonical(a)];
      var missing := MissingIds(expectedIds, partial);
      if missing != [] {
        partialAnswers := partialAnswers[bid := partial];
        return Partial(missing);
      }
      var answers := Gathered(expectedIds, partial);
      var valid := ValidateDecision(expectedIds, options, answers);
      if !valid {
        partialAnswers := partialAnswers[bid := before - {qid}];
        return RefusedWhole;
      }
      PopAll(bid);
      SetResult(bid, Answered(answers));
      return Completed;
    }

    method CancelWait(bid: string) returns (ok: bool)
      modifies this
      ensures (State(), ok) == OnCancel(old(State()), bid)
      ensures old(Inv(State())) ==> CancelledBatch(old(State()), State(), bid, ok)
    {
      hide CancelledBatch, Inv;
      ghost var was := State();
      ok := bid in futures && futures[bid].Waiting?;
      PopAll(bid);
      if ok {
        SetResult(bid, Cancelled);
      }
      assert (State(), ok) == OnCancel(was, bid);
      CancelOutcome(was, bid);
    }
  }
}
