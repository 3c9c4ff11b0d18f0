/**
 * The dashboard: a coloured chip per case status, and the role gate that lets
 * administrators and supervisors open the deadlines page from the expirations card.
 */
module Dashboard {
  import opened Wrappers
  import opened JsRecords

  datatype ChipColor = Success | Info | Warning | Error | Default

  /** `getStatusColor`: the four statuses with a colour of their own; every other status is default. */
  function StatusColor(status: string): (r: ChipColor)
    ensures status == "FINALIZADO" <==> r == Success
    ensures status == "ANALISIS" <==> r == Info
    ensures status == "RECOLECCION" <==> r == Warning
    ensures status == "CANCELADO" <==> r == Error
  {
    if status == "FINALIZADO" then Success
    else if status == "ANALISIS" then Info
    else if status == "RECOLECCION" then Warning
    else if status == "CANCELADO" then Error
    else Default
  }

  /** NUEVO and COMITE, like any unknown status, get the default chip. */
  lemma UncolouredStatuses(status: string)
    requires status !in ["FINALIZADO", "ANALISIS", "RECOLECCION", "CANCELADO"]
    ensures StatusColor(status) == Default
  {
    assert status != "FINALIZADO" && status != "ANALISIS";
    assert status != "RECOLECCION" && status != "CANCELADO";
  }

  /** `user?.role || ''` for the stored user (None when nothing is stored, read as `{}`). */
  function StoredRole(user: Option<Record>): (r: JsValue)
    ensures user.None? ==> r == JStr("")
    ensures user.Some? && Truthy(Get(user.value, "role")) ==> r == Get(user.value, "role")
    ensures !Truthy(r) ==> r == JStr("")
  {
    Or(Get(user.GetOr([]), "role"), JStr(""))
  }

  /** `['ADMINISTRADOR', 'SUPERVISOR'].includes(userRole)`. */
  predicate CanManageTimes(role: JsValue) {
    role in [JStr("ADMINISTRADOR"), JStr("SUPERVISOR")]
  }

  /** Only the two roles pass the gate; any other value, string or not, is refused. */
  lemma CanManageTimesIff(role: JsValue)
    ensures CanManageTimes(role) <==> role == JStr("ADMINISTRADOR") || role == JStr("SUPERVISOR")
  {
  }

  /** Without a stored user there is no access to the deadlines page. */
  lemma NoStoredUserNoAccess()
    ensures !CanManageTimes(StoredRole(None))
  {
    assert StoredRole(None) == JStr("");
    assert JStr("") != JStr("ADMINISTRADOR") && JStr("") != JStr("SUPERVISOR");
  }

  /** `handleTimeNavigation`: the route navigated to, if any. */
  function TimeNavigation(role: JsValue): (r: Option<string>)
    ensures r.Some? <==> CanManageTimes(role)
    ensures r.Some? ==> r.value == "/admin/times"
  {
    if CanManageTimes(role) then Some("/admin/times") else None
  }

  /** The expirations card: clickable, and inviting a click, exactly for the gated roles. */
  function ExpirationsCard(role: JsValue): (r: (bool, string))
    ensures r.0 <==> TimeNavigation(role).Some?
    ensures r.1 == if CanManageTimes(role) then "Click para ver detalle" else "Solo Supervisores"
  {
    if CanManageTimes(role) then (true, "Click para ver detalle") else (false, "Solo Supervisores")
  }
}
