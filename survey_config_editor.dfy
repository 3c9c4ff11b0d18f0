/**
 * The survey editor page (SurveyConfigEditor): the question modal, the payload
 * sent when a question is saved, the update of the question list, and the edits
 * to the option list of the question in the modal.
 */
module SurveyConfigEditor {
  import opened Wrappers
  import opened SurveyTypes

  /** A fresh question for position `fieldsLength + 1`; `newId` stands for `crypto.randomUUID()`. */
  function NewQuestion(fieldsLength: nat, newId: string): (q: SurveyQuestion)
    ensures q.id == newId && q.statement == "" && q.inputType == "TEXT" && !q.required
    ensures q.order == fieldsLength + 1 && q.options == Some([])
  {
    SurveyQuestion(newId, "", "TEXT", false, fieldsLength + 1, Some([]), None)
  }

  /** One option of the save payload; an absent `id` or `value` is a key the object does not have. */
  datatype OptionPayload = OptionPayload(caption: string, requiredDocumentType: Option<string>, id: Option<string>, value: Option<string>)

  /** The whitelisted question payload. */
  datatype QuestionPayload = QuestionPayload(statement: string, required: bool, order: int, options: seq<OptionPayload>)

  /** `originalOptionIds`: the option ids of the question being edited, none for a new one. */
  function OriginalOptionIds(original: Option<SurveyQuestion>): set<string> {
    if original.None? || original.value.options.None? then {}
    else set o | o in original.value.options.value :: o.id
  }

  /** The option was already stored: it has a (non-empty) id that the original question had. */
  predicate Existed(opt: SurveyOption, originalIds: set<string>) {
    opt.id != "" && opt.id in originalIds
  }

  /**
   * The `sanitizedPayload` of `saveQuestionFromModal`: statement, required and
   * order, and for each option its label, a null document type, and either its id
   * (when it already existed) or its value (when it is new).
   */
  method BuildPayload(temp: SurveyQuestion, original: Option<SurveyQuestion>) returns (payload: QuestionPayload)
    ensures payload.statement == temp.statement && payload.required == temp.required && payload.order == temp.order
    ensures |payload.options| == |temp.options.GetOr([])|
    ensures forall i :: 0 <= i < |payload.options| ==>
              var opt := temp.options.GetOr([])[i];
              payload.options[i].caption == opt.caption &&
              payload.options[i].requiredDocumentType.None? &&
              (Existed(opt, OriginalOptionIds(original)) ==>
                 payload.options[i].id == Some(opt.id) && payload.options[i].value.None?) &&
              (!Existed(opt, OriginalOptionIds(original)) ==>
                 payload.options[i].id.None? && payload.options[i].value == Some(opt.value))
  {
    var originalOptionIds := OriginalOptionIds(original);
    var opts := temp.options.GetOr([]);
    var options: seq<OptionPayload> := [];
    var i := 0;
    while i < |opts|
      invariant 0 <= i <= |opts|
      invariant |options| == i
      invariant forall k :: 0 <= k < i ==>
                  options[k].caption == opts[k].caption &&
                  options[k].requiredDocumentType.None? &&
                  (Existed(opts[k], originalOptionIds) ==> options[k].id == Some(opts[k].id) && options[k].value.None?) &&
                  (!Existed(opts[k], originalOptionIds) ==> options[k].id.None? && options[k].value == Some(opts[k].value))
    {
      var opt := opts[i];
      var cleanOpt := OptionPayload(opt.caption, None, None, None);
      if opt.id != "" && opt.id in originalOptionIds {
        cleanOpt := cleanOpt.(id := Some(opt.id));
      } else {
        cleanOpt := cleanOpt.(value := Some(opt.value));
      }
      options := options + [cleanOpt];
      i := i + 1;
    }
    payload := QuestionPayload(temp.statement, temp.required, temp.order, options);
  }

  /** A new question has no original: every option of its payload goes by value. */
  lemma NewQuestionSendsValues(opt: SurveyOption)
    ensures !Existed(opt, OriginalOptionIds(None))
  {
  }

  /** What the remote save answered: success, a 404, or any other error. */
  datatype SaveOutcome = Saved | NotFound | Failed

  /** `update(editingIndex, temp)` or `append(temp)`. */
  function SavedFields(fields: seq<SurveyQuestion>, editingIndex: Option<nat>, temp: SurveyQuestion): (r: seq<SurveyQuestion>)
    requires editingIndex.Some? ==> editingIndex.value < |fields|
    ensures editingIndex.Some? ==> |r| == |fields| && r[editingIndex.value] == temp
    ensures editingIndex.Some? ==> forall k :: 0 <= k < |fields| && k != editingIndex.value ==> r[k] == fields[k]
    ensures editingIndex.None? ==> r == fields + [temp]
  {
    if editingIndex.Some? then fields[editingIndex.value := temp] else fields + [temp]
  }

  /** The editor's question list (`fields`) and the modal's state. */
  class SurveyEditor {
    var fields: seq<SurveyQuestion>
    var editingIndex: Option<nat>
    var temp: Option<SurveyQuestion>
    var modalOpen: bool

    ghost predicate Valid()
      reads this
    {
      editingIndex.Some? ==> editingIndex.value < |fields|
    }

    constructor (loaded: seq<SurveyQuestion>)
      ensures Valid()
      ensures fields == loaded && editingIndex.None? && temp.None? && !modalOpen
    {
      fields := loaded;
      editingIndex := None;
      temp := None;
      modalOpen := false;
    }

    /** `handleOpenModal(index)`: a copy of question `index`, or a fresh question. */
    method OpenModal(index: Option<nat>, newId: string)
      requires index.Some? ==> index.value < |fields|
      modifies this
      ensures Valid()
      ensures fields == old(fields) && editingIndex == index && modalOpen
      ensures index.Some? ==> temp == Some(fields[index.value])
      ensures index.None? ==> temp == Some(NewQuestion(|fields|, newId))
    {
      editingIndex := index;
      if index.Some? {
        temp := Some(fields[index.value]);
      } else {
        temp := Some(NewQuestion(|fields|, newId));
      }
      modalOpen := true;
    }

    /**
     * `saveQuestionFromModal`. The remote save is attempted only when editing;
     * `outcome` is its result. A 404 is tolerated; any other error leaves the list
     * as it was and the modal open.
     */
    method SaveFromModal(outcome: SaveOutcome) returns (sent: Option<QuestionPayload>)
      requires Valid()
      modifies this
      ensures Valid()
      ensures editingIndex == old(editingIndex) && temp == old(temp)
      ensures sent.Some? <==> old(temp).Some? && old(editingIndex).Some?
      ensures old(temp).None? ==> fields == old(fields) && modalOpen == old(modalOpen)
      ensures old(temp).Some? && old(editingIndex).Some? && outcome == Failed ==>
                fields == old(fields) && modalOpen == old(modalOpen)
      ensures old(temp).Some? && (old(editingIndex).None? || outcome != Failed) ==>
                fields == SavedFields(old(fields), old(editingIndex), old(temp).value) && !modalOpen
    {
      sent := None;
      if temp.None? {
        return;
      }
      var t := temp.value;
      var original := if editingIndex.Some? then Some(fields[editingIndex.value]) else None;
      var payload := BuildPayload(t, original);
      if editingIndex.Some? {
        sent := Some(payload);
        if outcome == Failed {
          return;
        }
      }
      if editingIndex.Some? {
        fields := fields[editingIndex.value := t];
      } else {
        fields := fields + [t];
      }
      modalOpen := false;
    }
  }

  /** The option `addOptionToTemp` appends; `newId` stands for `crypto.randomUUID()`. */
  function FreshOption(newId: string): SurveyOption {
    SurveyOption(newId, "Nueva Opción", "VAL", 0)
  }

  /** `addOptionToTemp`: appends exactly one option (to an empty list when there were none). */
  function AddOption(temp: Option<SurveyQuestion>, newId: string): (r: Option<SurveyQuestion>)
    ensures temp.None? ==> r.None?
    ensures temp.Some? ==> r == Some(temp.value.(options := Some(temp.value.options.GetOr([]) + [FreshOption(newId)])))
  {
    if temp.None? then None
    else Some(temp.value.(options := Some(temp.value.options.GetOr([]) + [FreshOption(newId)])))
  }

  /** The two fields the option inputs edit. */
  datatype OptionField = Caption | Value

  function WithField(opt: SurveyOption, field: OptionField, val: string): SurveyOption {
    match field
    case Caption => opt.(caption := val)
    case Value => opt.(value := val)
  }

  /** `updateOption(idx, field, val)`: only that field of option `idx` changes. */
  function UpdateOption(temp: Option<SurveyQuestion>, idx: nat, field: OptionField, val: string): (r: Option<SurveyQuestion>)
    requires temp.Some? && temp.value.options.Some? ==> idx < |temp.value.options.value|
    ensures temp.None? || temp.value.options.None? ==> r == temp
    ensures temp.Some? && temp.value.options.Some? ==>
              var opts := temp.value.options.value;
              r.Some? && r.value.options.Some? &&
              r.value == temp.value.(options := r.value.options) &&
              |r.value.options.value| == |opts| &&
              (forall k :: 0 <= k < |opts| && k != idx ==> r.value.options.value[k] == opts[k]) &&
              r.value.options.value[idx].id == opts[idx].id &&
              r.value.options.value[idx].order == opts[idx].order &&
              (field == Caption ==> r.value.options.value[idx].caption == val && r.value.options.value[idx].value == opts[idx].value) &&
              (field == Value ==> r.value.options.value[idx].value == val && r.value.options.value[idx].caption == opts[idx].caption)
  {
    if temp.None? || temp.value.options.None? then temp
    else
      var opts := temp.value.options.value;
      Some(temp.value.(options := Some(opts[idx := WithField(opts[idx], field, val)])))
  }

  /** `tempQuestion.options.filter((_, i) => i !== idx)`. */
  function RemoveAt(opts: seq<SurveyOption>, idx: nat): (r: seq<SurveyOption>)
    ensures idx < |opts| ==> r == opts[..idx] + opts[idx + 1..]
    ensures idx >= |opts| ==> r == opts
  {
    if opts == [] then []
    else if idx == 0 then opts[1..]
    else
      var rest := RemoveAt(opts[1..], idx - 1);
      assert idx < |opts| ==> opts[1..][..idx - 1] == opts[1..idx];
      assert idx < |opts| ==> [opts[0]] + opts[1..idx] == opts[..idx];
      [opts[0]] + rest
  }

  /** `removeOption(idx)`: exactly index `idx` disappears, the others keep their order. */
  function RemoveOption(temp: Option<SurveyQuestion>, idx: nat): (r: Option<SurveyQuestion>)
    ensures temp.None? || temp.value.options.None? ==> r == temp
    ensures temp.Some? && temp.value.options.Some? ==>
              r == Some(temp.value.(options := Some(RemoveAt(temp.value.options.value, idx))))
  {
    if temp.None? || temp.value.options.None? then temp
    else Some(temp.value.(options := Some(RemoveAt(temp.value.options.value, idx))))
  }

  /** Removing option `idx` shifts the later options down by one and keeps the earlier ones. */
  lemma RemoveAtShifts(opts: seq<SurveyOption>, idx: nat, k: int)
    requires idx < |opts| && 0 <= k < |opts| - 1
    ensures |RemoveAt(opts, idx)| == |opts| - 1
    ensures RemoveAt(opts, idx)[k] == if k < idx then opts[k] else opts[k + 1]
  {
  }

  /** The modal's save button is disabled while the statement is empty. */
  predicate SaveDisabled(temp: Option<SurveyQuestion>) {
    temp.None? || temp.value.statement == ""
  }
}
