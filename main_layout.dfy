/**
 * The application shell's navigation bar: the signed-in user's name and role
 * read from the payload of the stored JWT, and the role gate on the
 * administration and configuration menus.
 *
 * Base64 decoding, percent-decoding and `JSON.parse` are foreign: they are the
 * parameter `decode`, which yields the payload or None when any of them throws.
 */
module MainLayout {
  import opened Wrappers
  import opened Text
  import opened JsRecords

  // ---------------------------------------------------------------------------
  // base64url (section 5 of RFC 4648) to standard base64 (section 4).

  function UrlCharToStd(c: char): char {
    if c == '-' then '+' else if c == '_' then '/' else c
  }

  function StdCharToUrl(c: char): char {
    if c == '+' then '-' else if c == '/' then '_' else c
  }

  /** `replace(/-/g, '+').replace(/_/g, '/')`. */
  function UrlToStd(s: string): (r: string)
    ensures |r| == |s|
    ensures forall i :: 0 <= i < |s| ==> r[i] == UrlCharToStd(s[i])
    ensures '-' !in r && '_' !in r
  {
    seq(|s|, i requires 0 <= i < |s| => UrlCharToStd(s[i]))
  }

  /** The mapping back, from the standard alphabet to the URL-safe one. */
  function StdToUrl(s: string): (r: string)
    ensures |r| == |s|
    ensures forall i :: 0 <= i < |s| ==> r[i] == StdCharToUrl(s[i])
  {
    seq(|s|, i requires 0 <= i < |s| => StdCharToUrl(s[i]))
  }

  /** A URL-safe segment (which never contains `+` or `/`) survives the conversion unchanged in content. */
  lemma UrlToStdRoundTrip(s: string)
    requires '+' !in s && '/' !in s
    ensures StdToUrl(UrlToStd(s)) == s
  {
    var r := StdToUrl(UrlToStd(s));
    forall i | 0 <= i < |s|
      ensures r[i] == s[i]
    {
      assert s[i] != '+' && s[i] != '/';
    }
  }

  /** The conversion only renames the two URL-safe characters. */
  lemma UrlToStdKeepsOthers(s: string, i: int)
    requires 0 <= i < |s| && s[i] != '-' && s[i] != '_'
    ensures UrlToStd(s)[i] == s[i]
  {
  }

  // ---------------------------------------------------------------------------
  // Payload claims.

  /** A claim that may be an array or a single value. */
  datatype Claim = Arr(items: seq<JsValue>) | Val(v: JsValue)

  /** Arrays are truthy in JavaScript, even empty ones. */
  predicate ClaimTruthy(c: Claim) {
    c.Arr? || Truthy(c.v)
  }

  datatype Payload = Payload(roles: Claim, role: JsValue, fullName: JsValue, name: JsValue, email: JsValue)

  /** What `getUserFromToken` returns: a display name and a role. */
  datatype UserInfo = UserInfo(name: JsValue, role: Claim)

  const OPERADOR: Claim := Val(JStr("Operador"))
  const NO_USER: UserInfo := UserInfo(JStr(""), Val(JStr("")))
  const UNKNOWN_USER: UserInfo := UserInfo(JStr("Usuario"), Val(JStr("Desconocido")))
  const DEFAULT_USER: UserInfo := UserInfo(JStr("Usuario"), OPERADOR)

  /** `payload.fullName || payload.name || payload.email || 'Usuario'`: the first truthy one. */
  function DisplayName(p: Payload): (r: JsValue)
    ensures Truthy(r)
    ensures Truthy(p.fullName) ==> r == p.fullName
    ensures !Truthy(p.fullName) && Truthy(p.name) ==> r == p.name
    ensures !Truthy(p.fullName) && !Truthy(p.name) && Truthy(p.email) ==> r == p.email
    ensures !Truthy(p.fullName) && !Truthy(p.name) && !Truthy(p.email) ==> r == JStr("Usuario")
  {
    Or(p.fullName, Or(p.name, Or(p.email, JStr("Usuario"))))
  }

  /**
   * The role `getUserFromToken` settles on: the first element of a non-empty
   * `roles` array, else `roles` itself when truthy, else a truthy `role`, else Operador.
   */
  function Role(p: Payload): (r: Claim)
    ensures p.roles.Arr? && |p.roles.items| > 0 ==> r == Val(p.roles.items[0])
    ensures p.roles.Arr? && |p.roles.items| == 0 ==> r == p.roles
    ensures p.roles.Val? && Truthy(p.roles.v) ==> r == p.roles
    ensures !ClaimTruthy(p.roles) && Truthy(p.role) ==> r == Val(p.role)
    ensures !ClaimTruthy(p.roles) && !Truthy(p.role) ==> r == OPERADOR
  {
    if p.roles.Arr? && |p.roles.items| > 0 then Val(p.roles.items[0])
    else if ClaimTruthy(p.roles) then p.roles
    else if Truthy(p.role) then Val(p.role)
    else OPERADOR
  }

  /** The `userRole` reassignments of `getUserFromToken`. */
  method RoleOf(p: Payload) returns (userRole: Claim)
    ensures userRole == Role(p)
  {
    userRole := OPERADOR;
    if p.roles.Arr? && |p.roles.items| > 0 {
      userRole := Val(p.roles.items[0]);
    } else if ClaimTruthy(p.roles) {
      userRole := p.roles;
    } else if Truthy(p.role) {
      userRole := Val(p.role);
    }
  }

  /**
   * `getUserFromToken`: no token gives empty name and role; a token without a
   * second dot-separated segment, or whose payload cannot be decoded, gives
   * Usuario / Desconocido.
   */
  method GetUserFromToken(token: Option<string>, decode: string -> Option<Payload>) returns (info: UserInfo)
    ensures token.None? || token.value == "" ==> info == NO_USER
    ensures token.Some? && token.value != "" && |Split(token.value, '.')| < 2 ==> info == UNKNOWN_USER
    ensures token.Some? && token.value != "" && |Split(token.value, '.')| >= 2 ==>
      var payload := decode(UrlToStd(Split(token.value, '.')[1]));
      (payload.None? ==> info == UNKNOWN_USER) &&
      (payload.Some? ==> info == UserInfo(DisplayName(payload.value), Role(payload.value)))
  {
    if token.None? || token.value == "" {
      return NO_USER;
    }
    var parts := Split(token.value, '.');
    if |parts| < 2 {
      return UNKNOWN_USER;
    }
    var base64 := UrlToStd(parts[1]);
    var payload := decode(base64);
    if payload.None? {
      return UNKNOWN_USER;
    }
    var userRole := RoleOf(payload.value);
    info := UserInfo(DisplayName(payload.value), userRole);
  }

  /** `userData.name ? userData : { name: 'Usuario', role: 'Operador' }`. */
  function Effective(info: UserInfo): (r: UserInfo)
    ensures Truthy(r.name)
    ensures Truthy(info.name) ==> r == info
  {
    if Truthy(info.name) then info else DEFAULT_USER
  }

  /** `user.role !== 'Operador'`: the administration and configuration menus are shown. */
  predicate ShowsAdminMenus(u: UserInfo) {
    u.role != OPERADOR
  }

  /** The navigation bar's `user` state. */
  class Layout {
    var user: UserInfo

    constructor ()
      ensures user == UserInfo(JStr("Cargando..."), Val(JStr("...")))
    {
      user := UserInfo(JStr("Cargando..."), Val(JStr("...")));
    }

    /** The mount effect: the user read from the token, with the Usuario / Operador fallback. */
    method LoadUser(token: Option<string>, decode: string -> Option<Payload>)
      modifies this
      ensures Truthy(user.name)
      ensures token.None? || token.value == "" ==> user == DEFAULT_USER
      ensures token.Some? && token.value != "" && |Split(token.value, '.')| < 2 ==> user == UNKNOWN_USER
      ensures token.Some? && token.value != "" && |Split(token.value, '.')| >= 2 ==>
        var payload := decode(UrlToStd(Split(token.value, '.')[1]));
        (payload.None? ==> user == UNKNOWN_USER) &&
        (payload.Some? ==> user == UserInfo(DisplayName(payload.value), Role(payload.value)))
    {
      var userData := GetUserFromToken(token, decode);
      user := Effective(userData);
    }
  }

  /** Signed out, the bar shows Usuario and hides the administration menus. */
  lemma NoTokenHidesAdminMenus()
    ensures Effective(NO_USER) == DEFAULT_USER
    ensures !ShowsAdminMenus(Effective(NO_USER))
  {
  }

  /** A token that cannot be read leaves the role Desconocido, which is not Operador, so the menus show. */
  lemma UnreadableTokenShowsAdminMenus()
    ensures Effective(UNKNOWN_USER) == UNKNOWN_USER
    ensures ShowsAdminMenus(Effective(UNKNOWN_USER))
  {
  }

  /** An empty `roles` array is truthy, so it becomes the role itself and the menus show. */
  lemma EmptyRolesArrayShowsAdminMenus(p: Payload)
    requires p.roles == Arr([])
    ensures Role(p) == Arr([])
    ensures ShowsAdminMenus(Effective(UserInfo(DisplayName(p), Role(p))))
  {
  }
}
