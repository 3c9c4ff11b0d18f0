/**
 * The modal that adds or edits a relative of the client: a nine-field form,
 * loaded from the relative being edited, submitted only with a first name and
 * a relationship, with the age converted to a number.
 */
module AddRelativeModal {
  import opened Wrappers
  import opened Text
  import opened JsRecords

  /** The options of the relationship selector. */
  const RELATIONSHIPS: seq<string> := ["Conyuge", "Hijo", "Padre", "Hermano", "Otro"]

  const FIELDS: seq<string> :=
    ["firstName", "lastName", "relationship", "age", "identification", "phone", "email", "address", "pob"]

  /** The form of a new relative: every field `''`. */
  function EmptyForm(): (f: Record)
    ensures Keys(f) == FIELDS
    ensures forall i :: 0 <= i < |f| ==> f[i].1 == JStr("")
  {
    FormOfNothing(FIELDS);
    FormOf([], FIELDS)
  }

  /** The relationship selector offers exactly five values, all distinct. */
  lemma RelationshipChoices()
    ensures |RELATIONSHIPS| == 5 && Distinct(RELATIONSHIPS)
    ensures "Conyuge" in RELATIONSHIPS && "Otro" in RELATIONSHIPS
  {
    var s := RELATIONSHIPS;
    forall i, j | 0 <= i < j < |s|
      ensures s[i] != s[j]
    {
      assert s[i][0] != s[j][0] || s[i][1] != s[j][1];
    }
  }

  /** `Math.trunc`: what `parseInt` keeps of a number's decimal rendering. */
  function Trunc(x: real): (r: int)
    ensures x >= 0.0 ==> r as real <= x < r as real + 1.0
    ensures x < 0.0 ==> r as real - 1.0 < x <= r as real
  {
    if x >= 0.0 then x.Floor else -((-x).Floor)
  }

  /**
   * `formData.age ? parseInt(formData.age.toString()) : null`: a falsy age is
   * null; a typed age is parsed (NaN when it has no leading digits); a number
   * loaded from the relative loses its fraction; any other value reads as NaN.
   */
  function AgeValue(age: JsValue): (r: JsValue)
    ensures !Truthy(age) ==> r == JNull
    ensures r.JNull? || r.JNaN? || r.JNum?
  {
    if !Truthy(age) then JNull
    else match age
      case JStr(s) => (match ParseInt(s) case Some(n) => JNum(n as real) case None => JNaN)
      case JNum(x) => JNum(Trunc(x) as real)
      case _ => JNaN
  }

  /** An age typed as the decimal rendering of an integer is sent as that integer. */
  lemma TypedAgeRoundTrip(n: int)
    ensures AgeValue(JStr(IntToString(n))) == JNum(n as real)
  {
    ParseIntOfIntToString(n);
    assert IntToString(n) != [] by {
      assert |NatToString(if n < 0 then -n else n)| >= 1;
    }
  }

  /** A whole number loaded from the relative is sent unchanged. */
  lemma WholeAgeKept(n: int)
    requires n != 0
    ensures AgeValue(JNum(n as real)) == JNum(n as real)
  {
  }

  /** `onConfirm` runs only when both the first name and the relationship are filled in. */
  predicate CanSubmit(form: Record) {
    Truthy(Get(form, "firstName")) && Truthy(Get(form, "relationship"))
  }

  /** The modal's `formData`. */
  class RelativeForm {
    var form: Record

    constructor ()
      ensures form == EmptyForm()
    {
      form := EmptyForm();
    }

    /**
     * The effect on opening: the fields of `initialData` (or `''` where one is
     * falsy or missing), or the empty form for a new relative. Closed, nothing changes.
     */
    method Populate(open: bool, initialData: Option<Record>)
      modifies this
      ensures !open ==> form == old(form)
      ensures open ==> Keys(form) == FIELDS
      ensures open && initialData.Some? ==>
        forall k :: k in FIELDS ==> Get(form, k) == OrEmpty(Get(initialData.value, k))
      ensures open && initialData.None? ==> form == EmptyForm()
    {
      if !open {
        return;
      }
      if initialData.Some? {
        form := FormOf(initialData.value, FIELDS);
        forall k | k in FIELDS
          ensures Get(form, k) == OrEmpty(Get(initialData.value, k))
        {
          FormOfGet(initialData.value, FIELDS, k);
        }
      } else {
        form := EmptyForm();
      }
    }

    /** `handleChange`: the named input takes the typed value; every other field keeps its own. */
    method Change(name: string, value: string)
      modifies this
      ensures form == Set(old(form), name, JStr(value))
      ensures forall k :: Get(form, k) == if k == name then JStr(value) else Get(old(form), k)
    {
      SetOnlyChanges(form, name, JStr(value));
      form := Set(form, name, JStr(value));
    }

    /** `handleSubmit`: the payload handed to `onConfirm`, if any; the form itself is not touched. */
    method Submit() returns (payload: Option<Record>)
      ensures payload.Some? <==> CanSubmit(form)
      ensures payload.Some? ==> Get(payload.value, "age") == AgeValue(Get(form, "age"))
      ensures payload.Some? ==> forall k :: k != "age" ==> Get(payload.value, k) == Get(form, k)
    {
      if !CanSubmit(form) {
        return None;
      }
      var age := AgeValue(Get(form, "age"));
      SetOnlyChanges(form, "age", age);
      var p := Set(form, "age", age);
      payload := Some(p);
    }
  }

  /** A freshly opened new-relative form cannot be submitted. */
  lemma EmptyFormCannotSubmit()
    ensures !CanSubmit(EmptyForm())
  {
    FormOfGet([], FIELDS, "firstName");
  }
}
