/**
 * The survey form of a case (SurveyTab): the option map used by the parent/child
 * visibility rule, the order questions are rendered in, and how each question's
 * input is set up.
 */
module SurveyTab {
  import opened Wrappers
  import opened JsRecords
  import opened Ordering
  import opened SurveyTypes

  /** `{ questionId, value, label }`: where an option comes from. */
  datatype OptionInfo = OptionInfo(questionId: string, value: string, caption: string)

  /** The `(option id, info)` writes the component performs for one question, in order. */
  function OptionWrites(qid: string, opts: seq<SurveyOption>): (w: seq<(string, OptionInfo)>)
    ensures |w| == |opts|
    ensures forall i :: 0 <= i < |opts| ==> w[i] == (opts[i].id, OptionInfo(qid, opts[i].value, opts[i].caption))
  {
    if opts == [] then []
    else OptionWrites(qid, opts[..|opts| - 1]) + [(opts[|opts| - 1].id, OptionInfo(qid, opts[|opts| - 1].value, opts[|opts| - 1].caption))]
  }

  /** All writes for a list of questions, question by question. */
  function AllWrites(qs: seq<SurveyQuestion>): seq<(string, OptionInfo)> {
    if qs == [] then []
    else AllWrites(qs[..|qs| - 1]) + OptionWrites(qs[|qs| - 1].id, qs[|qs| - 1].options.GetOr([]))
  }

  /** The record that results from performing `writes` in order on an empty one. */
  function Applied(writes: seq<(string, OptionInfo)>): map<string, OptionInfo> {
    if writes == [] then map[]
    else Applied(writes[..|writes| - 1])[writes[|writes| - 1].0 := writes[|writes| - 1].1]
  }

  /** The spec of `optionMap`: empty without a config, otherwise all writes applied. */
  function OptionMapOf(config: Option<seq<SurveyQuestion>>): map<string, OptionInfo> {
    if config.None? then map[] else Applied(AllWrites(config.value))
  }

  lemma AppliedAppend(writes: seq<(string, OptionInfo)>, w: (string, OptionInfo))
    ensures Applied(writes + [w]) == Applied(writes)[w.0 := w.1]
  {
    assert (writes + [w])[..|writes|] == writes;
  }

  /** `optionMap`: every option of every question is written under its id. */
  method BuildOptionMap(config: Option<seq<SurveyQuestion>>) returns (m: map<string, OptionInfo>)
    ensures m == OptionMapOf(config)
  {
    m := map[];
    if config.None? {
      return;
    }
    var qs := config.value;
    var i := 0;
    while i < |qs|
      invariant 0 <= i <= |qs|
      invariant m == Applied(AllWrites(qs[..i]))
    {
      var q := qs[i];
      assert qs[..i + 1][..i] == qs[..i];
      assert AllWrites(qs[..i + 1]) == AllWrites(qs[..i]) + OptionWrites(q.id, q.options.GetOr([]));
      if q.options.Some? {
        m := WriteOptions(m, q.id, q.options.value, AllWrites(qs[..i]));
      } else {
        assert AllWrites(qs[..i]) + OptionWrites(q.id, []) == AllWrites(qs[..i]);
      }
      i := i + 1;
    }
    assert qs[..i] == qs;
  }

  /** The inner loop: writes each option of question `qid` under its id, after the writes `done`. */
  method WriteOptions(m0: map<string, OptionInfo>, qid: string, opts: seq<SurveyOption>, ghost done: seq<(string, OptionInfo)>)
    returns (m: map<string, OptionInfo>)
    requires m0 == Applied(done)
    ensures m == Applied(done + OptionWrites(qid, opts))
  {
    m := m0;
    var j := 0;
    assert done + OptionWrites(qid, opts[..0]) == done;
    while j < |opts|
      invariant 0 <= j <= |opts|
      invariant m == Applied(done + OptionWrites(qid, opts[..j]))
    {
      var opt := opts[j];
      var w := (opt.id, OptionInfo(qid, opt.value, opt.caption));
      assert opts[..j + 1][..j] == opts[..j];
      assert done + OptionWrites(qid, opts[..j + 1]) == (done + OptionWrites(qid, opts[..j])) + [w];
      AppliedAppend(done + OptionWrites(qid, opts[..j]), w);
      m := m[opt.id := OptionInfo(qid, opt.value, opt.caption)];
      j := j + 1;
    }
    assert opts[..j] == opts;
  }

  /** After a sequence of writes, a key is present exactly when some write used it. */
  lemma {:induction false} AppliedDomain(writes: seq<(string, OptionInfo)>, k: string)
    ensures k in Applied(writes) <==> exists i :: 0 <= i < |writes| && writes[i].0 == k
    decreases |writes|
  {
    if writes != [] {
      var init := writes[..|writes| - 1];
      AppliedDomain(init, k);
      if k in Applied(init) {
        var i :| 0 <= i < |init| && init[i].0 == k;
        assert writes[i].0 == k;
      }
      if exists i :: 0 <= i < |writes| && writes[i].0 == k {
        var i :| 0 <= i < |writes| && writes[i].0 == k;
        if i < |init| {
          assert init[i].0 == k;
        }
      }
    }
  }

  /** A key holds the value of the last write that used it: a later duplicate id overwrites an earlier one. */
  lemma {:induction false} AppliedLastWriter(writes: seq<(string, OptionInfo)>, i: int)
    requires 0 <= i < |writes|
    requires forall j :: i < j < |writes| ==> writes[j].0 != writes[i].0
    ensures writes[i].0 in Applied(writes) && Applied(writes)[writes[i].0] == writes[i].1
    decreases |writes|
  {
    if i < |writes| - 1 {
      var init := writes[..|writes| - 1];
      assert init[i] == writes[i];
      AppliedLastWriter(init, i);
    }
  }

  /** With no config the option map is empty. */
  lemma NoConfigNoOptions()
    ensures OptionMapOf(None) == map[]
  {
  }

  /**
   * `activationData`: the option a question depends on, when it names one
   * (a non-empty `activationOptionId`) that the map knows.
   */
  function ActivationData(q: SurveyQuestion, optionMap: map<string, OptionInfo>): Option<OptionInfo> {
    if q.activationOptionId.Some? && q.activationOptionId.value != [] && q.activationOptionId.value in optionMap
    then Some(optionMap[q.activationOptionId.value])
    else None
  }

  /**
   * `QuestionRenderer` renders the question unless it has activation data and the
   * parent question's current answer is not strictly equal to that option's value.
   */
  predicate IsVisible(q: SurveyQuestion, optionMap: map<string, OptionInfo>, answers: Record) {
    var activation := ActivationData(q, optionMap);
    !(activation.Some? && Get(answers, activation.value.questionId) != JStr(activation.value.value))
  }

  /** A question with no usable activation option is always shown. */
  lemma UnconditionalQuestionsShown(q: SurveyQuestion, optionMap: map<string, OptionInfo>, answers: Record)
    requires q.activationOptionId.None? || q.activationOptionId.value == [] || q.activationOptionId.value !in optionMap
    ensures IsVisible(q, optionMap, answers)
  {
  }

  /** A question tied to a known option is shown exactly when its parent's answer is that option's value. */
  lemma ConditionalQuestionShownIff(q: SurveyQuestion, config: Option<seq<SurveyQuestion>>, answers: Record)
    requires q.activationOptionId.Some? && q.activationOptionId.value != []
    requires q.activationOptionId.value in OptionMapOf(config)
    ensures var info := OptionMapOf(config)[q.activationOptionId.value];
            IsVisible(q, OptionMapOf(config), answers) <==> Get(answers, info.questionId) == JStr(info.value)
  {
  }

  /**
   * Questions in rendering order: `config.questions.sort((a, b) => a.order - b.order)`;
   * questions with the same order keep the order the backend gave them.
   */
  method RenderOrder(qs: array<SurveyQuestion>)
    modifies qs
    ensures SortedBy(qs[..], (q: SurveyQuestion) => q.order)
    ensures multiset(qs[..]) == old(multiset(qs[..]))
    ensures SameOrderPerKey(qs[..], old(qs[..]), (q: SurveyQuestion) => q.order)
  {
    SortByKey(qs, (q: SurveyQuestion) => q.order);
  }

  /** The `defaultValue` of a question's field: `false` for BOOLEAN, `''` otherwise. */
  function DefaultAnswer(q: SurveyQuestion): (v: JsValue)
    ensures q.inputType == "BOOLEAN" <==> v == JBool(false)
    ensures q.inputType != "BOOLEAN" <==> v == JStr("")
  {
    if q.inputType == "BOOLEAN" then JBool(false) else JStr("")
  }

  const REQUIRED_MESSAGE: string := "Este campo es obligatorio"

  /** The `required` validation rule: the message for required questions, none otherwise. */
  function RequiredRule(q: SurveyQuestion): (r: Option<string>)
    ensures r.Some? <==> q.required
    ensures r.Some? ==> r.value == REQUIRED_MESSAGE
  {
    if q.required then Some(REQUIRED_MESSAGE) else None
  }

  /** The index `options.find(o => o.value === answer)` stops at: the first match. */
  function FindIndex(opts: seq<SurveyOption>, answer: JsValue): (r: Option<nat>)
    ensures r.Some? ==> r.value < |opts| && JStr(opts[r.value].value) == answer
    ensures r.Some? ==> forall j :: 0 <= j < r.value ==> JStr(opts[j].value) != answer
    ensures r.None? <==> forall i :: 0 <= i < |opts| ==> JStr(opts[i].value) != answer
  {
    if opts == [] then None
    else if JStr(opts[0].value) == answer then Some(0)
    else
      match FindIndex(opts[1..], answer)
      case Some(k) => Some(k + 1)
      case None => None
  }

  /** `options.find(o => o.value === answer)`: the first option whose value is the answer. */
  function FindOption(opts: seq<SurveyOption>, answer: JsValue): (r: Option<SurveyOption>)
    ensures r.Some? <==> exists i :: 0 <= i < |opts| && JStr(opts[i].value) == answer
    ensures r.Some? ==> r.value == opts[FindIndex(opts, answer).value]
  {
    match FindIndex(opts, answer)
    case Some(i) => Some(opts[i])
    case None => None
  }

  /** `selectedOption`: the first option whose value is the current answer (none without options). */
  function SelectedOption(q: SurveyQuestion, answer: JsValue): Option<SurveyOption> {
    if q.options.None? then None else FindOption(q.options.value, answer)
  }

  /** A SELECT question is rendered as a row of buttons with at most three options, as a dropdown otherwise. */
  predicate RendersAsButtons(q: SurveyQuestion) {
    q.options.Some? && |q.options.value| <= 3
  }
}
