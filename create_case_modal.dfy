/**
 * The modal that registers a new case: four client fields, validated after
 * trimming, posted to the backend, and reset once the case exists.
 */
module CreateCaseModal {
  import opened Wrappers
  import opened Text
  import opened JsRecords

  /** `CreatePayload` as the modal edits it. */
  datatype CaseForm = CaseForm(clientName: string, clientIdNumber: string, clientPhone: string, clientEmail: string)

  /** The `name` attributes of the four inputs. */
  datatype Field = ClientName | ClientIdNumber | ClientPhone | ClientEmail

  const EMPTY_FORM: CaseForm := CaseForm("", "", "", "")
  const REQUIRED_MSG := "El nombre y la identificación son obligatorios."
  const DEFAULT_ERROR := "Error al crear el caso. Verifica los datos."

  function FieldValue(f: CaseForm, field: Field): string {
    match field
    case ClientName => f.clientName
    case ClientIdNumber => f.clientIdNumber
    case ClientPhone => f.clientPhone
    case ClientEmail => f.clientEmail
  }

  /** `{ ...formData, [name]: value }`. */
  function WithField(f: CaseForm, field: Field, value: string): (g: CaseForm)
    ensures FieldValue(g, field) == value
    ensures forall other :: other != field ==> FieldValue(g, other) == FieldValue(f, other)
  {
    match field
    case ClientName => f.(clientName := value)
    case ClientIdNumber => f.(clientIdNumber := value)
    case ClientPhone => f.(clientPhone := value)
    case ClientEmail => f.(clientEmail := value)
  }

  /** The check at the top of `handleSubmit`: name and identification must not be blank once trimmed. */
  predicate Valid(f: CaseForm) {
    !IsBlank(f.clientName) && !IsBlank(f.clientIdNumber)
  }

  /** A name or identification made only of whitespace is refused. */
  lemma WhitespaceRefused(f: CaseForm)
    requires AllWhitespace(f.clientName) || AllWhitespace(f.clientIdNumber)
    ensures !Valid(f)
  {
    BlankIffAllWhitespace(f.clientName);
    BlankIffAllWhitespace(f.clientIdNumber);
  }

  /** How the POST ends: created, or rejected with the backend's `message` (undefined when absent). */
  datatype Outcome = Created | Rejected(message: JsValue)

  /** The modal's `formData`, `loading` and `error` (JNull when there is none). */
  class CaseModal {
    var form: CaseForm
    var loading: bool
    var error: JsValue

    constructor ()
      ensures form == EMPTY_FORM && !loading && error == JNull
    {
      form := EMPTY_FORM;
      loading := false;
      error := JNull;
    }

    /** `handleChange`: only the named field changes. */
    method Change(field: Field, value: string)
      modifies this
      ensures form == WithField(old(form), field, value)
      ensures loading == old(loading) && error == old(error)
    {
      form := WithField(form, field, value);
    }

    /**
     * `handleSubmit`: an invalid form only sets the error; otherwise the form is
     * posted as it stands; a created case resets the form and tells the parent
     * (`closed`: `onSuccess` and `onClose` run); a rejection shows the backend
     * message or the default text and keeps the form. Loading ends false.
     */
    method Submit(outcome: Outcome) returns (post: Option<CaseForm>, closed: bool)
      modifies this
      ensures !Valid(old(form)) ==> post.None? && !closed
      ensures !Valid(old(form)) ==> error == JStr(REQUIRED_MSG) && form == old(form) && loading == old(loading)
      ensures Valid(old(form)) ==> post == Some(old(form)) && !loading
      ensures Valid(old(form)) && outcome.Created? ==> form == EMPTY_FORM && error == JNull && closed
      ensures Valid(old(form)) && outcome.Rejected? ==>
        form == old(form) && !closed && error == Or(outcome.message, JStr(DEFAULT_ERROR))
    {
      if IsBlank(form.clientName) || IsBlank(form.clientIdNumber) {
        error := JStr(REQUIRED_MSG);
        return None, false;
      }
      loading := true;
      error := JNull;
      post := Some(form);
      closed := false;
      match outcome {
        case Created =>
          form := EMPTY_FORM;
          closed := true;
        case Rejected(message) =>
          error := Or(message, JStr(DEFAULT_ERROR));
      }
      loading := false;
    }
  }

  /** Whatever the backend answers, a rejected creation always leaves an error to show. */
  lemma RejectionAlwaysExplained(message: JsValue)
    ensures Truthy(Or(message, JStr(DEFAULT_ERROR)))
  {
  }
}
