/**
 * The global deadlines page: a status chip per case computed from the days left
 * before its deadline, and an editor that sets a case's priority and deadline.
 * Dates are kept symbolic: "days left" is an input, and a new deadline is the
 * term `today + n units`, `new Date(existing)` or `today`.
 */
module GlobalTimesPage {
  import opened Wrappers
  import opened Text
  import opened JsRecords

  datatype ChipColor = Default | Error | Warning | Success

  /** Severity order used to compare chip colours: an overdue case is the most urgent. */
  function Urgency(c: ChipColor): nat {
    match c
    case Error => 3
    case Warning => 2
    case Success => 1
    case Default => 0
  }

  /** `getStatusColor`; `daysLeft` is None when the case has no deadline. */
  function StatusColor(daysLeft: Option<int>): (r: ChipColor)
    ensures daysLeft.None? <==> r == Default
    ensures r == Error <==> daysLeft.Some? && daysLeft.value < 0
    ensures r == Warning <==> daysLeft.Some? && 0 <= daysLeft.value <= 5
    ensures r == Success <==> daysLeft.Some? && daysLeft.value > 5
  {
    if daysLeft.None? then Default
    else if daysLeft.value < 0 then Error
    else if daysLeft.value <= 5 then Warning
    else Success
  }

  /** Fewer days left never gives a less urgent colour. */
  lemma StatusColorMonotone(a: int, b: int)
    requires a <= b
    ensures Urgency(StatusColor(Some(a))) >= Urgency(StatusColor(Some(b)))
  {
  }

  /** `getStatusText`. */
  function StatusText(daysLeft: Option<int>): (r: string)
  {
    if daysLeft.None? then "Sin asignar"
    else if daysLeft.value < 0 then "Vencido hace " + NatToString(-daysLeft.value) + " días"
    else if daysLeft.value == 0 then "Vence HOY"
    else "Quedan " + NatToString(daysLeft.value) + " días"
  }

  /** A number framed by the same prefix and suffix is recovered from the framed text. */
  lemma {:induction false} FramedNatInjective(p: string, q: string, m: nat, n: nat)
    requires p + NatToString(m) + q == p + NatToString(n) + q
    ensures m == n
  {
    var s := p + NatToString(m) + q;
    assert s[|p|..|s| - |q|] == NatToString(m);
    assert s[|p|..|s| - |q|] == NatToString(n);
    NatToStringValue(m);
    NatToStringValue(n);
  }

  /** The chip text tells apart every deadline state: no two day counts share a text. */
  lemma {:induction false} StatusTextInjective(a: Option<int>, b: Option<int>)
    requires StatusText(a) == StatusText(b)
    ensures a == b
  {
    var s := StatusText(a);
    if a.Some? && b.Some? {
      if a.value < 0 && b.value < 0 {
        FramedNatInjective("Vencido hace ", " días", -a.value, -b.value);
      } else if a.value > 0 && b.value > 0 {
        FramedNatInjective("Quedan ", " días", a.value, b.value);
      } else {
        StatusTextKind(a);
        StatusTextKind(b);
      }
    } else {
      StatusTextKind(a);
      StatusTextKind(b);
    }
  }

  /** The first and fifth characters of the text identify which of the four cases produced it. */
  lemma StatusTextKind(d: Option<int>)
    ensures |StatusText(d)| > 4
    ensures d.None? ==> StatusText(d)[0] == 'S'
    ensures d.Some? && d.value < 0 ==> StatusText(d)[0] == 'V' && StatusText(d)[4] == 'i'
    ensures d.Some? && d.value == 0 ==> StatusText(d)[0] == 'V' && StatusText(d)[4] == 'e'
    ensures d.Some? && d.value > 0 ==> StatusText(d)[0] == 'Q'
  {
  }

  /** The text says "Vencido" exactly when the chip is red. */
  lemma StatusTextAgreesWithColor(d: Option<int>)
    ensures StatusColor(d) == Error <==> StartsWith(StatusText(d), "Vencido hace ")
    ensures StatusText(d) == "Vence HOY" <==> d == Some(0)
  {
    StatusTextKind(d);
    var s := StatusText(d);
    if d.Some? && d.value < 0 {
      assert s[..13] == "Vencido hace ";
    } else {
      assert s[4] != "Vencido hace "[4] || s[0] != "Vencido hace "[0];
    }
    if d.Some? && d.value != 0 {
      assert s[4] != "Vence HOY"[4] || s[0] != "Vence HOY"[0];
    }
  }

  // ---------------------------------------------------------------------------
  // Deadline editor.

  datatype Unit = Days | Weeks | Months

  /** A deadline term; dates are never evaluated. */
  datatype When =
    | At(iso: string)                 // `new Date(deadline)` of a stored deadline
    | FromToday(n: int, unit: Unit)   // `addDays/addWeeks/addMonths(new Date(), n)`
    | Today                           // `new Date()`

  datatype CaseItem = CaseItem(id: string, priority: string, deadline: Option<When>, rest: Record)

  /** The PATCH body sent for a case. */
  datatype ConfigPatch = ConfigPatch(caseId: string, priority: string, deadline: When)

  /**
   * `Number(duration)` for the text of a numeric input: surrounding whitespace is
   * ignored, a blank text is 0, an optional sign followed by decimal digits is that
   * integer; anything else is NaN (None).
   */
  function NumberOf(s: string): (r: Option<int>)
    ensures Trim(s) == "" ==> r == Some(0)
  {
    NumberOfTrimmed(Trim(s))
  }

  /** `Number` of a text with no surrounding whitespace. */
  function NumberOfTrimmed(t: string): (r: Option<int>)
  {
    if t == "" then Some(0)
    else
      var signed := t[0] == '-' || t[0] == '+';
      var d := if signed then t[1..] else t;
      if d == [] || DigitPrefix(d) != d then None
      else if t[0] == '-' then Some(-(DigitsValue(d) as int))
      else Some(DigitsValue(d))
  }

  /** A plain run of digits is read as its decimal value. */
  lemma NumberOfDigits(d: string)
    requires d != [] && forall i :: 0 <= i < |d| ==> IsDigit(d[i])
    ensures NumberOf(d) == Some(DigitsValue(d))
  {
    TrimOfDigits(d);
    DigitPrefixOfDigits(d);
    NumberOfTrimmedDigits(d);
  }

  lemma NumberOfTrimmedDigits(d: string)
    requires d != [] && IsDigit(d[0]) && DigitPrefix(d) == d
    ensures NumberOfTrimmed(d) == Some(DigitsValue(d))
  {
  }

  lemma TrimOfDigits(d: string)
    requires d != [] && IsDigit(d[0]) && IsDigit(d[|d| - 1])
    ensures Trim(d) == d
  {
    TrimStartOfTrimmed(d);
    TrimEndOfTrimmed(d);
  }

  /** The deadline chosen in `handleSaveConfig` for a given duration text and unit. */
  function NewDeadline(duration: string, unit: Unit, existing: Option<When>): (r: When)
    ensures duration != "" && NumberOf(duration).Some? ==> r == FromToday(NumberOf(duration).value, unit)
    ensures (duration == "" || NumberOf(duration).None?) && existing.Some? ==> r == existing.value
    ensures (duration == "" || NumberOf(duration).None?) && existing.None? ==> r == Today
  {
    if duration != "" && NumberOf(duration).Some? then
      FromToday(NumberOf(duration).value, unit)
    else if existing.Some? then existing.value
    else Today
  }

  /** `{ ...c, priority, deadline }` when `c.id` matches, `c` otherwise. */
  function WithConfig(c: CaseItem, id: string, priority: string, deadline: When): CaseItem {
    if c.id == id then c.(priority := priority, deadline := Some(deadline)) else c
  }

  /** `priority || 'MEDIA'`. */
  function PriorityOrMedia(p: string): (r: string)
    ensures r != ""
    ensures p != "" ==> r == p
  {
    if p != "" then p else "MEDIA"
  }

  /** `disabled={!duration || saving}` on the apply button. */
  predicate ApplyDisabled(duration: string, saving: bool) {
    duration == "" || saving
  }

  /** Once the apply button is enabled, a numeric duration always determines the new deadline. */
  lemma EnabledApplyUsesDuration(duration: string, saving: bool, unit: Unit, existing: Option<When>, n: int)
    requires !ApplyDisabled(duration, saving) && NumberOf(duration) == Some(n)
    ensures NewDeadline(duration, unit, existing) == FromToday(n, unit)
  {
  }

  /** The page's case list and the state of its editing modal. */
  class TimesEditor {
    var cases: seq<CaseItem>
    var modalOpen: bool
    var editing: Option<CaseItem>
    var duration: string
    var unit: Unit
    var priority: string
    var saving: bool

    constructor (loaded: seq<CaseItem>)
      ensures cases == loaded && !modalOpen && editing.None?
      ensures duration == "" && unit == Months && priority == "MEDIA" && !saving
    {
      cases := loaded;
      modalOpen := false;
      editing := None;
      duration := "";
      unit := Months;
      priority := "MEDIA";
      saving := false;
    }

    /** `handleEditClick`: opens the editor on `c` with its priority (or MEDIA) and no duration. */
    method EditClick(c: CaseItem)
      modifies this
      ensures editing == Some(c) && modalOpen
      ensures priority == PriorityOrMedia(c.priority) && duration == ""
      ensures cases == old(cases) && unit == old(unit) && saving == old(saving)
    {
      editing := Some(c);
      priority := PriorityOrMedia(c.priority);
      duration := "";
      modalOpen := true;
    }

    /**
     * `handleSaveConfig`: nothing without a case being edited; otherwise the patch
     * for the chosen deadline is sent and, when it succeeds (`ok`), the matching
     * case takes the new priority and deadline and the modal closes.
     */
    method SaveConfig(ok: bool) returns (patch: Option<ConfigPatch>)
      modifies this
      ensures old(editing).None? ==> patch.None? && cases == old(cases) && modalOpen == old(modalOpen)
      ensures old(editing).Some? ==>
        patch == Some(ConfigPatch(old(editing).value.id, old(priority),
                                  NewDeadline(old(duration), old(unit), old(editing).value.deadline)))
      ensures old(editing).Some? ==> !saving
      ensures old(editing).Some? && ok ==> !modalOpen
      ensures old(editing).Some? && ok ==> |cases| == |old(cases)|
      ensures old(editing).Some? && ok ==>
        forall i :: 0 <= i < |cases| ==>
          cases[i] == WithConfig(old(cases)[i], old(editing).value.id, old(priority),
                                 NewDeadline(old(duration), old(unit), old(editing).value.deadline))
      ensures old(editing).Some? && !ok ==> cases == old(cases) && modalOpen == old(modalOpen)
      ensures editing == old(editing) && duration == old(duration) && unit == old(unit)
      ensures priority == old(priority)
    {
      if editing.None? {
        return None;
      }
      saving := true;
      var target := editing.value;
      var newDeadline := Today;
      var num := NumberOf(duration);
      if duration != "" && num.Some? {
        if unit == Days { newDeadline := FromToday(num.value, Days); }
        if unit == Weeks { newDeadline := FromToday(num.value, Weeks); }
        if unit == Months { newDeadline := FromToday(num.value, Months); }
      } else {
        if target.deadline.Some? { newDeadline := target.deadline.value; }
      }
      patch := Some(ConfigPatch(target.id, priority, newDeadline));
      if ok {
        cases := UpdateById(cases, target.id, priority, newDeadline);
        modalOpen := false;
      }
      saving := false;
    }
  }

  /** `prevCases.map(...)`: the list with the case `id` reconfigured and every other case as it was. */
  method UpdateById(cases: seq<CaseItem>, id: string, priority: string, deadline: When) returns (r: seq<CaseItem>)
    ensures |r| == |cases|
    ensures forall i :: 0 <= i < |r| ==> r[i] == WithConfig(cases[i], id, priority, deadline)
    ensures forall i :: 0 <= i < |r| ==> r[i].id == cases[i].id
    ensures forall i :: 0 <= i < |r| && cases[i].id != id ==> r[i] == cases[i]
    ensures forall i :: 0 <= i < |r| && cases[i].id == id ==>
      r[i].priority == priority && r[i].deadline == Some(deadline) && r[i].rest == cases[i].rest
  {
    r := [];
    var i := 0;
    while i < |cases|
      invariant 0 <= i <= |cases|
      invariant |r| == i
      invariant forall k :: 0 <= k < i ==> r[k] == WithConfig(cases[k], id, priority, deadline)
    {
      var c := cases[i];
      if c.id == id {
        r := r + [c.(priority := priority, deadline := Some(deadline))];
      } else {
        r := r + [c];
      }
      i := i + 1;
    }
  }
}
