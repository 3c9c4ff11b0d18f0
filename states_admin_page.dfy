/**
 * The page that configures the case workflow's states: the list, ordered as the
 * workflow runs, and an editor for a state's label, description and maximum days.
 */
module StatesAdminPage {
  import opened Wrappers
  import opened Ordering

  /** `CaseState`; `displayLabel` is the `label` field (`label` is a keyword here). */
  datatype CaseState = CaseState(id: string, displayLabel: string, description: string, maxDays: int, order: int)

  function OrderOf(s: CaseState): int {
    s.order
  }

  /** The body of `PATCH /cases/states/{id}`: the editable fields only, never the id. */
  datatype StateBody = StateBody(displayLabel: string, description: string, maxDays: int)
  datatype StatePatch = StatePatch(stateId: string, body: StateBody)

  /** The body sent for an edited state. */
  function BodyOf(s: CaseState): (b: StateBody)
    ensures b.displayLabel == s.displayLabel && b.description == s.description && b.maxDays == s.maxDays
  {
    StateBody(s.displayLabel, s.description, s.maxDays)
  }

  /** Two states that differ only in id or order send the same body. */
  lemma BodyIgnoresIdAndOrder(s: CaseState, id: string, order: int)
    ensures BodyOf(s.(id := id, order := order)) == BodyOf(s)
  {
  }

  datatype ChipColor = Warning | Default
  datatype ChipVariant = Filled | Outlined

  /** The maximum-days chip: highlighted exactly when a limit is set. */
  function MaxDaysChip(maxDays: int): (r: (ChipColor, ChipVariant))
    ensures r.0 == Warning <==> maxDays > 0
    ensures r.1 == Filled <==> maxDays > 0
  {
    if maxDays > 0 then (Warning, Filled) else (Default, Outlined)
  }

  /**
   * `data.sort((a, b) => a.order - b.order)`, on a fresh array holding `data`; states
   * with the same order keep the order the backend gave them.
   */
  method SortByOrder(data: seq<CaseState>) returns (sorted: seq<CaseState>)
    ensures SortedBy(sorted, OrderOf)
    ensures multiset(sorted) == multiset(data)
    ensures |sorted| == |data|
    ensures SameOrderPerKey(sorted, data, OrderOf)
  {
    var a := new CaseState[|data|](i requires 0 <= i < |data| => data[i]);
    assert a[..] == data;
    SortByKey(a, OrderOf);
    sorted := a[..];
    assert |sorted| == |multiset(sorted)| == |multiset(data)| == |data|;
  }

  /** The page's `states`, `open` and `editingState`. */
  class StatesAdmin {
    var states: seq<CaseState>
    var open: bool
    var editing: Option<CaseState>

    constructor ()
      ensures states == [] && !open && editing.None?
    {
      states := [];
      open := false;
      editing := None;
    }

    /** `fetchStates`: the loaded states, ordered by `order`. */
    method Load(data: seq<CaseState>)
      modifies this
      ensures SortedBy(states, OrderOf) && multiset(states) == multiset(data)
      ensures SameOrderPerKey(states, data, OrderOf)
      ensures open == old(open) && editing == old(editing)
    {
      states := SortByOrder(data);
    }

    /** `handleEdit`: a copy of the state goes to the editor; the table is untouched. */
    method Edit(s: CaseState)
      modifies this
      ensures editing == Some(s) && open
      ensures states == old(states)
    {
      editing := Some(s);
      open := true;
    }

    /** The label input: changes only the label of the state being edited. */
    method ChangeLabel(value: string)
      modifies this
      ensures old(editing).None? ==> editing.None?
      ensures old(editing).Some? ==> editing == Some(old(editing).value.(displayLabel := value))
      ensures states == old(states) && open == old(open)
    {
      if editing.Some? {
        editing := Some(editing.value.(displayLabel := value));
      }
    }

    /** The description input: changes only the description. */
    method ChangeDescription(value: string)
      modifies this
      ensures old(editing).None? ==> editing.None?
      ensures old(editing).Some? ==> editing == Some(old(editing).value.(description := value))
      ensures states == old(states) && open == old(open)
    {
      if editing.Some? {
        editing := Some(editing.value.(description := value));
      }
    }

    /** The maximum-days input: changes only the maximum days. */
    method ChangeMaxDays(value: int)
      modifies this
      ensures old(editing).None? ==> editing.None?
      ensures old(editing).Some? ==> editing == Some(old(editing).value.(maxDays := value))
      ensures states == old(states) && open == old(open)
    {
      if editing.Some? {
        editing := Some(editing.value.(maxDays := value));
      }
    }

    /**
     * `handleSave`: nothing without a state being edited; otherwise the editable
     * fields are patched and, on success (`ok`), the modal closes and the table
     * is reloaded (from `reloaded`) in workflow order.
     */
    method Save(ok: bool, reloaded: seq<CaseState>) returns (patch: Option<StatePatch>)
      modifies this
      ensures old(editing).None? ==> patch.None? && states == old(states) && open == old(open)
      ensures old(editing).Some? ==> patch == Some(StatePatch(old(editing).value.id, BodyOf(old(editing).value)))
      ensures old(editing).Some? && ok ==> !open
      ensures old(editing).Some? && ok ==> SortedBy(states, OrderOf) && multiset(states) == multiset(reloaded)
      ensures old(editing).Some? && ok ==> SameOrderPerKey(states, reloaded, OrderOf)
      ensures old(editing).Some? && !ok ==> states == old(states) && open == old(open)
      ensures editing == old(editing)
    {
      if editing.None? {
        return None;
      }
      var s := editing.value;
      patch := Some(StatePatch(s.id, StateBody(s.displayLabel, s.description, s.maxDays)));
      if ok {
        open := false;
        states := SortByOrder(reloaded);
      }
    }
  }
}
