/**
 Batches of questions waiting for a human: registered, answered question by question or as a whole,
 cancelled. Each batch has a one-shot future and an entry in six parallel maps.
 */
module AskUser {
  import opened Text

  datatype Answer = Answer(questionId: string, selected: Option<string>, custom: Option<string>)

  datatype Question = Question(id: string, prompt: string, options: seq<string>)

  /** A question as given; a missing id or prompt is the empty text. */
  datatype RawQuestion = NotAnObject | RawQuestion(id: string, prompt: string, options: Option<seq<string>>)

  datatype Future = Waiting | AlreadyDone

  datatype Result = Answered(answers: seq<Answer>) | Cancelled

  datatype Registry = Registry(
    futures: map<string, Future>,
    optionSets: map<string, map<string, set<string>>>,
    questionIds: map<string, seq<string>>,
    partials: map<string, map<string, Answer>>,
    payloads: map<string, seq<Question>>,
    labels: map<string, string>,
    results: map<string, seq<Result>>,      // what was put into each batch's future
    asked: map<string, seq<Question>>)      // every batch's questions, kept after it is gone

  // ---- Registering

  function StripAll(options: seq<string>): seq<string> {
    seq(|options|, i requires 0 <= i < |options| => Strip(options[i]))
  }

  predicate ProperOptions(options: seq<string>) {
    options != [] && NoDuplicates(options) && forall i :: 0 <= i < |options| ==> options[i] != ""
  }

  /** The id a question goes by: its own, or its position. */
  function QuestionId(raw: RawQuestion, i: nat): string
    requires raw.RawQuestion?
  {
    if Strip(raw.id) != "" then Strip(raw.id) else "q" + Decimal(i + 1)
  }

  /** The `i`-th question in normal form; none when it is malformed or its id is taken. */
  function NormalizeOne(raw: RawQuestion, i: nat, seen: set<string>): Option<Question> {
    if raw.NotAnObject? || QuestionId(raw, i) in seen || Strip(raw.prompt) == "" || raw.options.None? then None
    else
      var options := StripAll(raw.options.value);
      if ProperOptions(options) then Some(Question(QuestionId(raw, i), Strip(raw.prompt), options)) else None
  }

  function Ids(qs: seq<Question>): seq<string> {
    seq(|qs|, i requires 0 <= i < |qs| => qs[i].id)
  }

  function OptionSets(qs: seq<Question>): map<string, set<string>> {
    if qs == [] then map[]
    else
      var last := qs[|qs| - 1];
      OptionSets(qs[..|qs| - 1])[last.id := set o | o in last.options]
  }

  lemma {:induction false} OptionSetsAt(qs: seq<Question>, i: nat)
    requires i < |qs| && NoDuplicates(Ids(qs))
    ensures qs[i].id in OptionSets(qs) && OptionSets(qs)[qs[i].id] == set o | o in qs[i].options
  {
    var front := qs[..|qs| - 1];
    if i < |qs| - 1 {
      assert Ids(qs)[i] != Ids(qs)[|qs| - 1];
      assert forall k :: 0 <= k < |front| ==> Ids(front)[k] == Ids(qs)[k];
      OptionSetsAt(front, i);
    }
  }

  /** What registration guarantees of a batch's questions. */
  ghost predicate ProperQuestions(qs: seq<Question>) {
    && qs != [] && NoDuplicates(Ids(qs))
    && forall i :: 0 <= i < |qs| ==>
         && qs[i].id != "" && Stripped(qs[i].id)
         && ProperOptions(qs[i].options)
         && forall o :: o in qs[i].options ==> Stripped(o)
  }

  lemma QuestionIdProper(raw: RawQuestion, i: nat)
    requires raw.RawQuestion?
    ensures QuestionId(raw, i) != "" && Stripped(QuestionId(raw, i))
  {
    DecimalStripped(i + 1);
  }

  /** No object, no prompt, or options that are missing, blank or the same as another when trimmed. */
  ghost predicate BadlyFormed(raw: RawQuestion) {
    || raw.NotAnObject? || Strip(raw.prompt) == "" || raw.options.None? || raw.options.value == []
    || (exists o :: o in raw.options.value && Strip(o) == "")
    || exists a, b :: 0 <= a < b < |raw.options.value| && Strip(raw.options.value[a]) == Strip(raw.options.value[b])
  }

  /** Why the `i`-th question is refused: badly formed, or under the id of an earlier one. */
  ghost predicate Malformed(raw: seq<RawQuestion>, i: nat)
    requires i < |raw|
  {
    || BadlyFormed(raw[i])
    || exists j :: 0 <= j < i && raw[j].RawQuestion? && QuestionId(raw[j], j) == QuestionId(raw[i], i)
  }

  /** `q` is the `i`-th question in normal form. */
  ghost predicate NormalForm(raw: RawQuestion, q: Question, i: nat) {
    && raw.RawQuestion? && raw.options.Some?
    && q.id == (if Strip(raw.id) == "" then "q" + Decimal(i + 1) else Strip(raw.id))
    && q.prompt == Strip(raw.prompt)
    && |q.options| == |raw.options.value|
    && (forall k :: 0 <= k < |q.options| ==> q.options[k] == Strip(raw.options.value[k]))
    && ProperOptions(q.options)
  }

  ghost predicate FormsUpTo(raw: seq<RawQuestion>, items: seq<Question>) {
    && |items| <= |raw|
    && forall k :: 0 <= k < |items| ==> NormalForm(raw[k], items[k], k) && !Malformed(raw, k)
  }

  /** `seen` holds exactly the ids of `items`, which are distinct. */
  ghost predicate SeenExactly(items: seq<Question>, seen: set<string>) {
    && (forall k :: 0 <= k < |items| ==> items[k].id in seen)
    && (forall id :: id in seen ==> exists k :: 0 <= k < |items| && items[k].id == id)
    && (forall j, k :: 0 <= j < k < |items| ==> items[j].id != items[k].id)
  }

  ghost predicate NormalizedUpTo(raw: seq<RawQuestion>, items: seq<Question>, seen: set<string>) {
    FormsUpTo(raw, items) && SeenExactly(items, seen)
  }

  lemma SeenOne(items: seq<Question>, seen: set<string>, q: Question)
    requires SeenExactly(items, seen) && q.id !in seen
    ensures SeenExactly(items + [q], seen + {q.id})
  {
    var items' := items + [q];
    forall id | id in seen + {q.id} ensures exists k :: 0 <= k < |items'| && items'[k].id == id {
      if id in seen {
        var k :| 0 <= k < |items| && items[k].id == id;
        assert items'[k].id == id;
      } else {
        assert items'[|items|].id == id;
      }
    }
  }

  /** Trimmed options are proper exactly when there are some, none is blank and no two are the same. */
  lemma OptionsStripped(options: seq<string>)
    ensures ProperOptions(StripAll(options)) <==>
              && options != [] && (forall o :: o in options ==> Strip(o) != "")
              && forall a, b :: 0 <= a < b < |options| ==> Strip(options[a]) != Strip(options[b])
  {
    hide Strip;
    var trimmed := StripAll(options);
    assert forall k :: 0 <= k < |options| ==> trimmed[k] == Strip(options[k]);
  }

  /** A question is refused exactly when it is badly formed or its id is taken. */
  lemma OneNormalized(raw: RawQuestion, i: nat, seen: set<string>)
    ensures NormalizeOne(raw, i, seen).None? <==> BadlyFormed(raw) || QuestionId(raw, i) in seen
    ensures NormalizeOne(raw, i, seen).Some? ==>
              && NormalForm(raw, NormalizeOne(raw, i, seen).value, i)
              && NormalizeOne(raw, i, seen).value.id == QuestionId(raw, i)
  {
    hide Strip, ProperOptions, Decimal;
    if raw.RawQuestion? && raw.options.Some? {
      OptionsStripped(raw.options.value);
    }
  }

  /** In the list, that is when it is malformed. */
  lemma NormalizeVerdict(raw: seq<RawQuestion>, items: seq<Question>, seen: set<string>)
    requires NormalizedUpTo(raw, items, seen) && |items| < |raw|
    ensures var i := |items|; var q := NormalizeOne(raw[i], i, seen);
            && (q.None? <==> Malformed(raw, i))
            && (q.Some? ==> NormalForm(raw[i], q.value, i) && q.value.id !in seen)
  {
    hide NormalizeOne, BadlyFormed, Strip, ProperOptions, Decimal;
    var i := |items|;
    OneNormalized(raw[i], i, seen);
    forall j | 0 <= j < i ensures raw[j].RawQuestion? && items[j].id == QuestionId(raw[j], j) {
      assert NormalForm(raw[j], items[j], j);
    }
    if raw[i].RawQuestion? && QuestionId(raw[i], i) in seen {
      var k :| 0 <= k < i && items[k].id == QuestionId(raw[i], i);
    }
  }

  lemma NormalizeAccepted(raw: seq<RawQuestion>, items: seq<Question>, seen: set<string>, q: Question)
    requires NormalizedUpTo(raw, items, seen) && |items| < |raw|
    requires NormalForm(raw[|items|], q, |items|) && !Malformed(raw, |items|) && q.id !in seen
    ensures NormalizedUpTo(raw, items + [q], seen + {q.id})
  {
    SeenOne(items, seen, q);
  }

  lemma NormalizedProper(raw: seq<RawQuestion>, items: seq<Question>, seen: set<string>)
    requires raw != [] && |items| == |raw| && NormalizedUpTo(raw, items, seen)
    ensures ProperQuestions(items)
  {
    forall i | 0 <= i < |items| ensures items[i].id != "" && Stripped(items[i].id) {
      assert NormalForm(raw[i], items[i], i);
      QuestionIdProper(raw[i], i);
    }
  }

  /** Normalises the questions in order; nothing exactly when the list is empty or one of them is malformed. */
  method NormalizeQuestions(raw: seq<RawQuestion>) returns (qs: Option<seq<Question>>)
    ensures qs.Some? <==> raw != [] && forall i :: 0 <= i < |raw| ==> !Malformed(raw, i)
    ensures qs.Some? ==> ProperQuestions(qs.value) && |qs.value| == |raw|
    ensures qs.Some? ==> forall i :: 0 <= i < |raw| ==> NormalForm(raw[i], qs.value[i], i)
  {
    if raw == [] {
      return None;
    }
    var seen, items: seq<Question> := {}, [];
    for i := 0 to |raw|
      invariant |items| == i && NormalizedUpTo(raw, items, seen)
    {
      var q := NormalizeOne(raw[i], i, seen);
      NormalizeVerdict(raw, items, seen);
      if q.None? {
        return None;
      }
      NormalizeAccepted(raw, items, seen, q.value);
      seen, items := seen + {q.value.id}, items + [q.value];
    }
    NormalizedProper(raw, items, seen);
    return Some(items);
  }

  const DEFAULT_LABEL: string := "other (please specify)"

  function OnRegister(r: Registry, bid: string, qs: seq<Question>, customLabel: string): Registry {
    Registry(r.futures[bid := Waiting], r.optionSets[bid := OptionSets(qs)], r.questionIds[bid := Ids(qs)],
             r.partials[bid := map[]], r.payloads[bid := qs],
             r.labels[bid := if Strip(customLabel) != "" then Strip(customLabel) else DEFAULT_LABEL],
             r.results, r.asked[bid := qs])
  }

  // ---- Validating answers

  function Field(text: Option<string>): string {
    if text.Some? then Strip(text.value) else ""
  }

  /** Free text wins; otherwise one of the listed options must be selected. */
  predicate Satisfies(a: Answer, options: set<string>) {
    Field(a.custom) != "" || (Field(a.selected) != "" && Field(a.selected) in options)
  }

  /** The last answer given for a question; answers without a question id count for none. */
  function LastFor(answers: seq<Answer>, qid: string): Option<Answer> {
    if answers == [] || qid == "" then None
    else
      var a := answers[|answers| - 1];
      if Strip(a.questionId) == qid then Some(a) else LastFor(answers[..|answers| - 1], qid)
  }

  predicate ValidDecision(ids: seq<string>, options: map<string, set<string>>, answers: seq<Answer>) {
    forall i :: 0 <= i < |ids| ==>
      && LastFor(answers, ids[i]).Some?
      && Satisfies(LastFor(answers, ids[i]).value, if ids[i] in options then options[ids[i]] else {})
  }

  /** The last answer of each question. */
  method IndexAnswers(answers: seq<Answer>) returns (byId: map<string, Answer>)
    ensures forall qid :: LastFor(answers, qid) == if qid in byId then Some(byId[qid]) else None
  {
    byId := map[];
    for i := 0 to |answers|
      invariant "" !in byId
      invariant forall qid :: LastFor(answers[..i], qid) == if qid in byId then Some(byId[qid]) else None
    {
      var a := answers[i];
      assert answers[..i + 1][..i] == answers[..i];
      var qid := Strip(a.questionId);
      if qid != "" {
        byId := byId[qid := a];
      }
    }
    assert answers[..|answers|] == answers;
  }

  /** Checks one answer against the options of its question. */
  method CheckAnswer(a: Answer, options: set<string>) returns (ok: bool)
    ensures ok <==> Satisfies(a, options)
  {
    var custom, selected := Field(a.custom), Field(a.selected);
    if custom != "" {
      return true;
    }
    if selected == "" {
      return false;
    }
    return selected in options;
  }

  /** Collects the answers by question and checks the expected ones. */
  method ValidateDecision(ids: seq<string>, options: map<string, set<string>>, answers: seq<Answer>) returns (ok: bool)
    ensures ok <==> ValidDecision(ids, options, answers)
  {
    var byId := IndexAnswers(answers);
    for i := 0 to |ids|
      invariant forall k :: 0 <= k < i ==>
                  ids[k] in byId && Satisfies(byId[ids[k]], if ids[k] in options then options[ids[k]] else {})
    {
      var qid := ids[i];
      if qid !in byId {
        assert LastFor(answers, ids[i]).None?;
        return false;
      }
      var fine := CheckAnswer(byId[qid], if qid in options then options[qid] else {});
      if !fine {
        assert LastFor(answers, ids[i]) == Some(byId[qid]);
        return false;
      }
    }
    return true;
  }

  // ---- Resolving, answering one question, cancelling

  function Forget(r: Registry, bid: string): Registry {
    r.(futures := r.futures - {bid}, optionSets := r.optionSets - {bid}, questionIds := r.questionIds - {bid},
       partials := r.partials - {bid}, payloads := r.payloads - {bid}, labels := r.labels - {bid})
  }

  function Settle(r: Registry, bid: string, result: Result): Registry {
    r.(results := r.results[bid := (if bid in r.results then r.results[bid] else []) + [result]])
  }

  predicate Open(r: Registry, bid: string) {
    bid in r.futures && r.futures[bid].Waiting?
  }

  function IdsOf(r: Registry, bid: string): seq<string> {
    if bid in r.questionIds then r.questionIds[bid] else []
  }

  function OptionsOf(r: Registry, bid: string): map<string, set<string>> {
    if bid in r.optionSets then r.optionSets[bid] else map[]
  }

  function OnResolve(r: Registry, batchId: string, answers: seq<Answer>): (Registry, bool) {
    var bid := Strip(batchId);
    if !Open(r, bid) || !ValidDecision(IdsOf(r, bid), OptionsOf(r, bid), answers) then (r, false)
    else (Settle(Forget(r, bid), bid, Answered(answers)), true)
  }

  datatype FragmentReply =
    UnknownBatch | AlreadyResolved | Refused | Partial(missing: seq<string>) | RefusedWhole | Completed

  /** The answer as it is stored: trimmed, free text only if there is any. */
  function Canonical(a: Answer): Answer {
    if Field(a.custom) != "" then Answer(Strip(a.questionId), None, Some(Field(a.custom)))
    else Answer(Strip(a.questionId), Some(Field(a.selected)), None)
  }

  function MissingIds(ids: seq<string>, partial: map<string, Answer>): seq<string> {
    if ids == [] then []
    else (if ids[0] in partial then [] else [ids[0]]) + MissingIds(ids[1..], partial)
  }

  lemma {:induction false} MissingMember(ids: seq<string>, partial: map<string, Answer>, id: string)
    ensures id in MissingIds(ids, partial) <==> id in ids && id !in partial
  {
    if ids != [] {
      MissingMember(ids[1..], partial, id);
    }
  }

  /** One answer per question, in the order of the questions. */
  function Gathered(ids: seq<string>, partial: map<string, Answer>): seq<Answer> {
    seq(|ids|, i requires 0 <= i < |ids| => if ids[i] in partial then partial[ids[i]] else Answer(ids[i], None, None))
  }

  function OnFragment(r: Registry, batchId: string, a: Answer): (Registry, FragmentReply) {
    var bid, qid := Strip(batchId), Strip(a.questionId);
    if bid !in r.futures then (r, UnknownBatch)
    else if !r.futures[bid].Waiting? then (r, AlreadyResolved)
    else if qid !in OptionsOf(r, bid) || !Satisfies(a, OptionsOf(r, bid)[qid]) then (r, Refused)
    else
      var before := if bid in r.partials then r.partials[bid] else map[];
      var partial := before[qid := Canonical(a)];
      var missing := MissingIds(IdsOf(r, bid), partial);
      var answers := Gathered(IdsOf(r, bid), partial);
      if missing != [] then (r.(partials := r.partials[bid := partial]), Partial(missing))
      else if !ValidDecision(IdsOf(r, bid), OptionsOf(r, bid), answers) then
        (r.(partials := r.partials[bid := before - {qid}]), RefusedWhole)
      else (Settle(Forget(r, bid), bid, Answered(answers)), Completed)
  }

  function OnCancel(r: Registry, bid: string): (Registry, bool) {
    if Open(r, bid) then (Settle(Forget(r, bid), bid, Cancelled), true) else (Forget(r, bid), false)
  }

  /** The waiting tool gave up on its own: the future is done, the maps still hold the batch. */
  function OnAbandon(r: Registry, bid: string): Registry {
    if Open(r, bid) then Settle(r.(futures := r.futures[bid := AlreadyDone]), bid, Cancelled) else r
  }
}
