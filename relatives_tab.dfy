/**
 * The relatives tab of a case (RelativesTab): the list shown (the client's
 * parents, taken from the case itself as read-only "virtual" rows, followed by
 * the relatives stored in the database), the guards that keep virtual rows out of
 * edit and delete, and the request a save turns into.
 */
module RelativesTab {
  import opened Wrappers
  import opened JsRecords

  /** A row of the table: a stored `Relative`, or a virtual one built from the case. */
  datatype Row = Row(
    id: string, firstName: JsValue, lastName: JsValue, relationship: string,
    identification: JsValue, age: JsValue, phone: JsValue, email: JsValue, isVirtual: bool)

  const PLACEHOLDER: JsValue := JStr("---")

  /** `x || '---'`. */
  function OrPlaceholder(v: JsValue): (r: JsValue)
    ensures Truthy(v) ==> r == v
    ensures !Truthy(v) ==> r == PLACEHOLDER
  {
    if Truthy(v) then v else PLACEHOLDER
  }

  /** The virtual row for one parent, read from the case fields with the given prefix. */
  function VirtualRow(caseData: Record, id: string, prefix: string, relationship: string): Row {
    Row(id, Get(caseData, prefix + "Name"), JStr(""), relationship,
        OrPlaceholder(Get(caseData, prefix + "Id")), OrPlaceholder(Get(caseData, prefix + "Age")),
        OrPlaceholder(Get(caseData, prefix + "Phone")), OrPlaceholder(Get(caseData, prefix + "Email")), true)
  }

  function FatherRow(caseData: Record): Row {
    VirtualRow(caseData, "virtual-father", "clientFather", "Padre (Titular)")
  }

  function MotherRow(caseData: Record): Row {
    VirtualRow(caseData, "virtual-mother", "clientMother", "Madre (Titular)")
  }

  /** The virtual rows: the father when his name is truthy, then the mother when hers is. */
  function VirtualRows(caseData: Record): seq<Row> {
    (if Truthy(Get(caseData, "clientFatherName")) then [FatherRow(caseData)] else []) +
    (if Truthy(Get(caseData, "clientMotherName")) then [MotherRow(caseData)] else [])
  }

  /** `displayList`; `relatives` is None when the prop is not an array. */
  function DisplayList(caseData: Record, relatives: Option<seq<Row>>): (r: seq<Row>)
    ensures r == VirtualRows(caseData) + relatives.GetOr([])
  {
    VirtualRows(caseData) + relatives.GetOr([])
  }

  /**
   * The list starts with the father's row exactly when his name is truthy, has
   * the mother's row next (or first) exactly when hers is, and ends with the stored
   * relatives unchanged; a non-array value contributes none.
   */
  lemma DisplayListShape(caseData: Record, relatives: Option<seq<Row>>)
    ensures var father := Truthy(Get(caseData, "clientFatherName"));
            var mother := Truthy(Get(caseData, "clientMotherName"));
            var n := (if father then 1 else 0) + (if mother then 1 else 0);
            var list := DisplayList(caseData, relatives);
            |list| == n + |relatives.GetOr([])| &&
            list[n..] == relatives.GetOr([]) &&
            (father ==> list[0] == FatherRow(caseData)) &&
            (mother ==> list[n - 1] == MotherRow(caseData)) &&
            (forall i :: 0 <= i < n ==> list[i].isVirtual && list[i].lastName == JStr(""))
  {
    var v := VirtualRows(caseData);
    VirtualRowsShape(caseData);
    var list := DisplayList(caseData, relatives);
    assert list[|v|..] == relatives.GetOr([]);
    assert forall i :: 0 <= i < |v| ==> list[i] == v[i];
  }

  /** The virtual rows alone: the father's then the mother's, each present when that name is truthy. */
  lemma VirtualRowsShape(caseData: Record)
    ensures var father := Truthy(Get(caseData, "clientFatherName"));
            var mother := Truthy(Get(caseData, "clientMotherName"));
            var v := VirtualRows(caseData);
            |v| == (if father then 1 else 0) + (if mother then 1 else 0) &&
            (father ==> v[0] == FatherRow(caseData)) &&
            (mother ==> v[|v| - 1] == MotherRow(caseData)) &&
            (forall i :: 0 <= i < |v| ==> v[i].isVirtual && v[i].lastName == JStr(""))
  {
    var f := FatherRow(caseData);
    var m := MotherRow(caseData);
    assert f.isVirtual && f.lastName == JStr("") && m.isVirtual && m.lastName == JStr("");
    var father := Truthy(Get(caseData, "clientFatherName"));
    var mother := Truthy(Get(caseData, "clientMotherName"));
    if father && mother {
      assert VirtualRows(caseData) == [f, m];
    } else if father {
      assert VirtualRows(caseData) == [f];
    } else if mother {
      assert VirtualRows(caseData) == [m];
    } else {
      assert VirtualRows(caseData) == [];
    }
  }

  /** Every virtual row shows `'---'` for a missing identification, age, phone or email. */
  lemma VirtualRowPlaceholders(caseData: Record, id: string, prefix: string, relationship: string)
    ensures var row := VirtualRow(caseData, id, prefix, relationship);
            (!Truthy(Get(caseData, prefix + "Id")) ==> row.identification == PLACEHOLDER) &&
            (!Truthy(Get(caseData, prefix + "Age")) ==> row.age == PLACEHOLDER) &&
            (!Truthy(Get(caseData, prefix + "Phone")) ==> row.phone == PLACEHOLDER) &&
            (!Truthy(Get(caseData, prefix + "Email")) ==> row.email == PLACEHOLDER)
  {
  }

  /** The request a save sends: a PATCH of the edited relative or a POST of a new one. */
  datatype Request =
    | Patch(caseId: string, relativeId: string, body: Record)
    | Post(caseId: string, body: Record)

  /** The tab's `editingRelative` and `isModalOpen` state. */
  class RelativesPanel {
    var editing: Option<Row>
    var modalOpen: bool

    constructor ()
      ensures editing.None? && !modalOpen
    {
      editing := None;
      modalOpen := false;
    }

    /** `handleEditClick(row)`: refused for a virtual row, which changes nothing. */
    method EditClick(row: Row)
      modifies this
      ensures row.isVirtual ==> editing == old(editing) && modalOpen == old(modalOpen)
      ensures !row.isVirtual ==> editing == Some(row) && modalOpen
    {
      if row.isVirtual {
        return;
      }
      editing := Some(row);
      modalOpen := true;
    }

    /**
     * `handleSaveRelative(formData)`: nothing without a case id; otherwise the
     * cleaned form goes out as a PATCH when a relative is being edited and as a
     * POST otherwise; on success (`ok`) the modal closes and editing ends.
     */
    method SaveRelative(caseId: string, formData: Record, ok: bool) returns (request: Option<Request>)
      requires Keyed(formData)
      modifies this
      ensures caseId == "" ==> request.None? && editing == old(editing) && modalOpen == old(modalOpen)
      ensures caseId != "" && old(editing).Some? ==> request == Some(Patch(caseId, old(editing).value.id, Cleaned(formData)))
      ensures caseId != "" && old(editing).None? ==> request == Some(Post(caseId, Cleaned(formData)))
      ensures caseId != "" && ok ==> editing.None? && !modalOpen
      ensures caseId != "" && !ok ==> editing == old(editing) && modalOpen == old(modalOpen)
    {
      if caseId == "" {
        return None;
      }
      var cleanedData := CleanEmpty(formData);
      if editing.Some? {
        request := Some(Patch(caseId, editing.value.id, cleanedData));
      } else {
        request := Some(Post(caseId, cleanedData));
      }
      if ok {
        modalOpen := false;
        editing := None;
      }
    }
  }

  /** `handleDelete(id, isVirtual)`: the id to delete, none for a virtual row or without confirmation. */
  function DeleteRequest(id: string, isVirtual: bool, confirmed: bool): (r: Option<string>)
    ensures r.Some? <==> !isVirtual && confirmed
    ensures r.Some? ==> r.value == id
  {
    if isVirtual then None
    else if !confirmed then None
    else Some(id)
  }
}
