/**
 * `getSurveyConfig`: the backend returns a list of sections, each with its own
 * questions; the client flattens them into one survey and adapts every question.
 * Questions are kept as raw JSON objects here, since the adapter spreads them.
 */
module SurveyService {
  import opened Wrappers
  import opened JsRecords

  /** A section as the backend sends it; `questions` may be missing. */
  datatype Section = Section(title: JsValue, questions: Option<seq<Record>>)

  /** The adapted survey. */
  datatype SurveyConfig = SurveyConfig(title: JsValue, description: string, questions: seq<Record>)

  const DEFAULT_TITLE: string := "Información General y Familiar"
  const DESCRIPTION: string := "Encuesta dinámica de producción"

  /** `data.flatMap(section => section.questions || [])`. */
  function AllQuestions(sections: seq<Section>): seq<Record> {
    if sections == [] then []
    else sections[0].questions.GetOr([]) + AllQuestions(sections[1..])
  }

  /** Flattening distributes over the concatenation of section lists. */
  lemma {:induction false} AllQuestionsConcat(a: seq<Section>, b: seq<Section>)
    ensures AllQuestions(a + b) == AllQuestions(a) + AllQuestions(b)
    decreases |a|
  {
    if a == [] {
      assert a + b == b;
    } else {
      assert (a + b)[1..] == a[1..] + b;
      AllQuestionsConcat(a[1..], b);
    }
  }

  /** The questions of section `k` appear, in order, right after those of the sections before it. */
  lemma SectionQuestionsInPlace(sections: seq<Section>, k: int)
    requires 0 <= k < |sections|
    ensures var before := |AllQuestions(sections[..k])|;
            var qs := sections[k].questions.GetOr([]);
            before + |qs| <= |AllQuestions(sections)| &&
            AllQuestions(sections)[before..before + |qs|] == qs
  {
    assert sections == sections[..k] + sections[k..];
    AllQuestionsConcat(sections[..k], sections[k..]);
    assert sections[k..][0] == sections[k];
  }

  /** `mapBackendTypeToFrontend`. */
  function MapBackendType(t: JsValue): (r: JsValue)
    ensures t == JStr("SINGLE_CHOICE") || t == JStr("MULTIPLE_CHOICE") ==> r == JStr("SELECT")
    ensures t == JStr("YES_NO") ==> r == JStr("BOOLEAN")
    ensures t != JStr("SINGLE_CHOICE") && t != JStr("MULTIPLE_CHOICE") && t != JStr("YES_NO") ==> r == t
  {
    match t
    case JStr("SINGLE_CHOICE") => JStr("SELECT")
    case JStr("MULTIPLE_CHOICE") => JStr("SELECT")
    case JStr("YES_NO") => JStr("BOOLEAN")
    case _ => t
  }

  /** Adapting an already adapted type changes nothing. */
  lemma MapBackendTypeIdempotent(t: JsValue)
    ensures MapBackendType(MapBackendType(t)) == MapBackendType(t)
  {
  }

  /**
   * `{ ...q, statement: q.statement || q.title, inputType: mapBackendTypeToFrontend(q.inputType || q.type) }`.
   */
  function AdaptQuestion(q: Record): Record {
    var withStatement := Set(q, "statement", Or(Get(q, "statement"), Get(q, "title")));
    Set(withStatement, "inputType", MapBackendType(Or(Get(q, "inputType"), Get(q, "type"))))
  }

  /** The adapted question carries the fallbacks and every other field unchanged. */
  lemma AdaptQuestionFields(q: Record, k: string)
    ensures Get(AdaptQuestion(q), "statement") == Or(Get(q, "statement"), Get(q, "title"))
    ensures Get(AdaptQuestion(q), "inputType") == MapBackendType(Or(Get(q, "inputType"), Get(q, "type")))
    ensures k != "statement" && k != "inputType" ==> Get(AdaptQuestion(q), k) == Get(q, k)
  {
    var withStatement := Set(q, "statement", Or(Get(q, "statement"), Get(q, "title")));
    var t := MapBackendType(Or(Get(q, "inputType"), Get(q, "type")));
    GetSet(q, "statement", Or(Get(q, "statement"), Get(q, "title")), "statement");
    GetSet(withStatement, "inputType", t, "statement");
    GetSet(withStatement, "inputType", t, "inputType");
    GetSet(q, "statement", Or(Get(q, "statement"), Get(q, "title")), k);
    GetSet(withStatement, "inputType", t, k);
  }

  function AdaptAll(qs: seq<Record>): (r: seq<Record>)
    ensures |r| == |qs|
    ensures forall i :: 0 <= i < |qs| ==> r[i] == AdaptQuestion(qs[i])
  {
    if qs == [] then [] else [AdaptQuestion(qs[0])] + AdaptAll(qs[1..])
  }

  /** The title of the first section when truthy, otherwise the default title. */
  function SurveyTitle(sections: seq<Section>): (t: JsValue)
    ensures sections != [] && Truthy(sections[0].title) ==> t == sections[0].title
    ensures (sections == [] || !Truthy(sections[0].title)) ==> t == JStr(DEFAULT_TITLE)
  {
    if sections != [] && Truthy(sections[0].title) then sections[0].title else JStr(DEFAULT_TITLE)
  }

  /** What `getSurveyConfig` resolves to for the sections the backend returned. */
  function GetSurveyConfig(sections: seq<Section>): SurveyConfig {
    SurveyConfig(SurveyTitle(sections), DESCRIPTION, AdaptAll(AllQuestions(sections)))
  }
}
