/**
 * The "Datos Titular" tab (GeneralDataTab): a form over the client's nineteen
 * case fields, loaded from the case with `|| ''`, edited one named field at a
 * time, and sent back as a PATCH of its cleaned contents.
 */
module GeneralDataTab {
  import opened JsRecords

  /** The form's fields, in the order the initial state lists them. */
  const FORM_FIELDS: seq<string> := [
    "clientName", "clientIdNumber", "clientPhone", "clientEmail",
    "clientAddress", "clientGender", "clientDob", "clientPob", "clientExpeditionPlace",
    "clientFatherName", "clientFatherId", "clientFatherAge", "clientFatherPhone", "clientFatherEmail",
    "clientMotherName", "clientMotherId", "clientMotherAge", "clientMotherPhone", "clientMotherEmail"]

  /** The identification number is shown disabled, with no `name`, so no change event reaches it. */
  const ID_FIELD: string := "clientIdNumber"

  /** The fields whose inputs carry a `name` and the change handler. */
  predicate Editable(name: string) {
    name in FORM_FIELDS && name != ID_FIELD
  }

  function InitialForm(caseData: Record): Record {
    FormOf(caseData, FORM_FIELDS)
  }

  /** No field is listed twice. */
  lemma FieldsDistinct()
    ensures Distinct(FORM_FIELDS)
  {
    var s := FORM_FIELDS;
    forall i, j | 0 <= i < j < |s|
      ensures s[i] != s[j]
    {
      if |s[i]| == |s[j]| {
        // Equal-length names differ after the common "client" prefix.
        assert s[i][6..] != s[j][6..];
      }
    }
  }

  /** A proper object over exactly the nineteen fields. */
  predicate IsForm(f: Record) {
    Keyed(f) && Keys(f) == FORM_FIELDS
  }

  /** The initial form is a proper object over exactly the nineteen fields. */
  lemma InitialFormKeyed(caseData: Record)
    ensures IsForm(InitialForm(caseData))
  {
    FieldsDistinct();
    FormOfKeyed(caseData, FORM_FIELDS);
  }

  /** The loaded identification number is the case's, or `''`. */
  lemma InitialIdNumber(caseData: Record)
    ensures Get(InitialForm(caseData), ID_FIELD) == OrEmpty(Get(caseData, ID_FIELD))
  {
    var s := FORM_FIELDS;
    assert s[1] == ID_FIELD;
    FormOfGet(caseData, s, ID_FIELD);
  }

  /** One change event: the input's `name` and the value typed into it. */
  datatype Edit = Edit(name: string, value: JsValue)

  /** The form after a series of change events, each a spread that overwrites one field. */
  function ApplyEdits(form: Record, edits: seq<Edit>): Record
    decreases |edits|
  {
    if edits == [] then form
    else ApplyEdits(Set(form, edits[0].name, edits[0].value), edits[1..])
  }

  /**
   * No series of change events alters the identification number: it keeps the
   * value loaded from the case.
   */
  lemma {:induction false} IdNumberUnchanged(form: Record, edits: seq<Edit>)
    requires forall i :: 0 <= i < |edits| ==> edits[i].name != ID_FIELD
    ensures Get(ApplyEdits(form, edits), ID_FIELD) == Get(form, ID_FIELD)
    decreases |edits|
  {
    if edits != [] {
      GetSet(form, edits[0].name, edits[0].value, ID_FIELD);
      IdNumberUnchanged(Set(form, edits[0].name, edits[0].value), edits[1..]);
    }
  }

  /** Change events on fields the form has keep it a proper object over the same fields. */
  lemma {:induction false} EditsKeepFields(form: Record, edits: seq<Edit>)
    requires Keyed(form)
    requires forall i :: 0 <= i < |edits| ==> edits[i].name in Keys(form)
    ensures Keyed(ApplyEdits(form, edits)) && Keys(ApplyEdits(form, edits)) == Keys(form)
    decreases |edits|
  {
    if edits != [] {
      SetKeyed(form, edits[0].name, edits[0].value);
      EditsKeepFields(Set(form, edits[0].name, edits[0].value), edits[1..]);
    }
  }

  /** What `cleanEmpty` sends for a field holding `v`: the trimmed value, or nothing when it is empty. */
  function SentValue(v: JsValue): JsValue {
    var w := CleanValue(v);
    if Kept(w) then w else JUndefined
  }

  /** The tab's `formData` state. */
  class GeneralDataForm {
    var form: Record

    ghost predicate Valid()
      reads this
    {
      IsForm(form)
    }

    constructor (caseData: Record)
      ensures Valid()
      ensures form == InitialForm(caseData)
    {
      form := InitialForm(caseData);
      InitialFormKeyed(caseData);
    }

    /** `handleChange`: the named field takes the typed value; every other field is kept. */
    method Change(name: string, value: JsValue)
      requires Valid() && Editable(name)
      modifies this
      ensures Valid()
      ensures form == Set(old(form), name, value)
      ensures Get(form, name) == value
      ensures forall k :: k != name ==> Get(form, k) == Get(old(form), k)
    {
      SetKeyed(form, name, value);
      forall k
        ensures Get(Set(form, name, value), k) == if k == name then value else Get(form, k)
      {
        GetSet(form, name, value, k);
      }
      form := Set(form, name, value);
    }

    /** `handleSave`: the body of the PATCH to `/cases/{id}` is the cleaned form; the form itself stays. */
    method Save() returns (payload: Record)
      requires Valid()
      ensures payload == Cleaned(form)
      ensures forall k :: Get(payload, k) == SentValue(Get(form, k))
    {
      payload := CleanEmpty(form);
      forall k
        ensures Get(payload, k) == SentValue(Get(form, k))
      {
        GetCleaned(form, k);
      }
    }
  }

  /**
   * Whatever the user types into the named inputs, the identification number
   * sent on save is the one the form was loaded with, cleaned.
   */
  lemma SavedIdNumber(form: Record, edits: seq<Edit>)
    requires Keyed(form)
    requires forall i :: 0 <= i < |edits| ==> edits[i].name in Keys(form) && edits[i].name != ID_FIELD
    ensures Get(Cleaned(ApplyEdits(form, edits)), ID_FIELD) == SentValue(Get(form, ID_FIELD))
  {
    IdNumberUnchanged(form, edits);
    EditsKeepFields(form, edits);
    GetCleaned(ApplyEdits(form, edits), ID_FIELD);
  }
}
