/**
 * The older dialog that registers a new case from three client fields. Unlike
 * the modal, it checks the name and identification without trimming them and
 * posts exactly the three fields.
 */
module CreateCaseDialog {
  import opened Wrappers
  import opened Text
  import opened JsRecords
  import CreateCaseModal

  datatype DialogForm = DialogForm(clientName: string, clientIdNumber: string, clientPhone: string)

  datatype Field = ClientName | ClientIdNumber | ClientPhone

  /** The body of `POST /cases`. */
  datatype CreateRequest = CreateRequest(clientName: string, clientIdNumber: string, clientPhone: string)

  const EMPTY_FORM: DialogForm := DialogForm("", "", "")
  const REQUIRED_MSG := "Nombre y Cédula son obligatorios"
  const DEFAULT_ERROR := "Error al crear el caso"

  function FieldValue(f: DialogForm, field: Field): string {
    match field
    case ClientName => f.clientName
    case ClientIdNumber => f.clientIdNumber
    case ClientPhone => f.clientPhone
  }

  function WithField(f: DialogForm, field: Field, value: string): (g: DialogForm)
    ensures FieldValue(g, field) == value
    ensures forall other :: other != field ==> FieldValue(g, other) == FieldValue(f, other)
  {
    match field
    case ClientName => f.(clientName := value)
    case ClientIdNumber => f.(clientIdNumber := value)
    case ClientPhone => f.(clientPhone := value)
  }

  /** `!formData.clientName || !formData.clientIdNumber` fails: both are non-empty strings. */
  predicate Valid(f: DialogForm) {
    f.clientName != "" && f.clientIdNumber != ""
  }

  /** The payload built from the form, field by field. */
  function RequestOf(f: DialogForm): (r: CreateRequest)
    ensures r.clientName == f.clientName && r.clientIdNumber == f.clientIdNumber
    ensures r.clientPhone == f.clientPhone
  {
    CreateRequest(f.clientName, f.clientIdNumber, f.clientPhone)
  }

  /** The same name and identification typed into both forms. */
  function AsModalForm(f: DialogForm, email: string): CreateCaseModal.CaseForm {
    CreateCaseModal.CaseForm(f.clientName, f.clientIdNumber, f.clientPhone, email)
  }

  /** Whatever the modal accepts, the dialog accepts too. */
  lemma ModalValidImpliesDialogValid(f: DialogForm, email: string)
    requires CreateCaseModal.Valid(AsModalForm(f, email))
    ensures Valid(f)
  {
    assert IsBlank("");
  }

  /** A name of spaces passes the dialog's check but not the modal's. */
  lemma WhitespaceNameOnlyDialogAccepts(f: DialogForm, email: string)
    requires f.clientName == " " && f.clientIdNumber == "1"
    ensures Valid(f)
    ensures !CreateCaseModal.Valid(AsModalForm(f, email))
  {
    assert AllWhitespace(f.clientName);
    BlankIffAllWhitespace(f.clientName);
  }

  datatype Outcome = Created | Rejected(message: JsValue)

  class CaseDialog {
    var form: DialogForm
    var loading: bool
    var error: JsValue

    constructor ()
      ensures form == EMPTY_FORM && !loading && error == JStr("")
    {
      form := EMPTY_FORM;
      loading := false;
      error := JStr("");
    }

    method Change(field: Field, value: string)
      modifies this
      ensures form == WithField(old(form), field, value)
      ensures loading == old(loading) && error == old(error)
    {
      form := WithField(form, field, value);
    }

    /**
     * `handleSubmit`: an invalid form only sets the error; otherwise the three
     * fields are posted; success resets the form and closes (`closed`); failure
     * shows the backend message or the default and keeps the form.
     */
    method Submit(outcome: Outcome) returns (post: Option<CreateRequest>, closed: bool)
      modifies this
      ensures !Valid(old(form)) ==> post.None? && !closed
      ensures !Valid(old(form)) ==> error == JStr(REQUIRED_MSG) && form == old(form) && loading == old(loading)
      ensures Valid(old(form)) ==> post == Some(RequestOf(old(form))) && !loading
      ensures Valid(old(form)) && outcome.Created? ==> form == EMPTY_FORM && error == JStr("") && closed
      ensures Valid(old(form)) && outcome.Rejected? ==>
        form == old(form) && !closed && error == Or(outcome.message, JStr(DEFAULT_ERROR))
    {
      if form.clientName == "" || form.clientIdNumber == "" {
        error := JStr(REQUIRED_MSG);
        return None, false;
      }
      loading := true;
      error := JStr("");
      post := Some(CreateRequest(form.clientName, form.clientIdNumber, form.clientPhone));
      closed := false;
      match outcome {
        case Created =>
          form := EMPTY_FORM;
          closed := true;
        case Rejected(message) =>
          error := Or(message, JStr(DEFAULT_ERROR));
      }
      loading := false;
    }
  }
}
