/**
 * The document types catalogue: each type lists the case states it belongs to,
 * shown as chips coloured by keywords in the state's name.
 */
module DocumentsManager {
  import opened Text

  datatype ChipColor = Success | Primary | Warning | Default
  datatype ChipVariant = Filled | Outlined

  /**
   * `getChipColor`: on the lower-cased name, listos, firmado or aprobado give
   * success before anything else; then enviado or radicado give primary; then
   * pendiente gives warning; otherwise default.
   */
  function ChipColorOf(name: string): (r: ChipColor)
  {
    var text := ToLower(name);
    if Contains(text, "listos") || Contains(text, "firmado") || Contains(text, "aprobado") then Success
    else if Contains(text, "enviado") || Contains(text, "radicado") then Primary
    else if Contains(text, "pendiente") then Warning
    else Default
  }

  /** A success keyword decides the colour whatever other keywords the name holds. */
  lemma SuccessTakesPrecedence(name: string, keyword: string)
    requires keyword in ["listos", "firmado", "aprobado"]
    requires Contains(ToLower(name), keyword)
    ensures ChipColorOf(name) == Success
  {
  }

  /** Primary needs a sending keyword and no success keyword. */
  lemma PrimaryIff(name: string)
    ensures ChipColorOf(name) == Primary <==>
      var t := ToLower(name);
      !(Contains(t, "listos") || Contains(t, "firmado") || Contains(t, "aprobado")) &&
      (Contains(t, "enviado") || Contains(t, "radicado"))
  {
  }

  /** Lower-casing a lower-cased character changes nothing. */
  lemma LowerCharIdempotent(c: char)
    ensures LowerChar(LowerChar(c)) == LowerChar(c)
  {
  }

  /** Matching ignores letter case: a state name and its lower-cased form get the same colour. */
  lemma ChipColorIgnoresCase(name: string)
    ensures ChipColorOf(ToLower(name)) == ChipColorOf(name)
  {
    var t := ToLower(name);
    forall i | 0 <= i < |name|
      ensures ToLower(t)[i] == t[i]
    {
      LowerCharIdempotent(name[i]);
    }
    assert ToLower(t) == t;
  }

  /** The chip is filled exactly when its colour is default, and outlined otherwise. */
  function ChipVariantOf(name: string): (r: ChipVariant)
    ensures r == Filled <==> ChipColorOf(name) == Default
  {
    if ChipColorOf(name) == Default then Filled else Outlined
  }
}
