/**
 * The user adapter between the backend, which lists a user's permissions as an
 * array of codes (`['MANAGE_TIME', ...]`), and the client, which keeps four
 * boolean flags.
 */
module UserService {
  import opened Wrappers

  datatype Flag = CanManageTimes | CanEditSurveys | CanViewGlobalStats | CanManageUsers

  /** `UserPermissions`. */
  datatype Permissions = Permissions(
    canManageTimes: bool, canEditSurveys: bool, canViewGlobalStats: bool, canManageUsers: bool)

  const NO_PERMISSIONS: Permissions := Permissions(false, false, false, false)

  function Has(p: Permissions, f: Flag): bool {
    match f
    case CanManageTimes => p.canManageTimes
    case CanEditSurveys => p.canEditSurveys
    case CanViewGlobalStats => p.canViewGlobalStats
    case CanManageUsers => p.canManageUsers
  }

  /** `permissions[f] = v`. */
  function With(p: Permissions, f: Flag, v: bool): (q: Permissions)
    ensures Has(q, f) == v
    ensures forall g :: g != f ==> Has(q, g) == Has(p, g)
  {
    match f
    case CanManageTimes => p.(canManageTimes := v)
    case CanEditSurveys => p.(canEditSurveys := v)
    case CanViewGlobalStats => p.(canViewGlobalStats := v)
    case CanManageUsers => p.(canManageUsers := v)
  }

  /** The order of the keys of a `UserPermissions` object. */
  const FLAG_ORDER: seq<Flag> := [CanManageTimes, CanEditSurveys, CanViewGlobalStats, CanManageUsers]

  /** `PERMISSION_MAP`, entry by entry in declaration order. */
  const PERMISSION_ENTRIES: seq<(string, Flag)> := [
    ("MANAGE_TIME", CanManageTimes),
    ("MANAGE_SURVEY", CanEditSurveys),
    ("VIEW_ADMIN_STATS", CanViewGlobalStats),
    ("MANAGE_USERS", CanManageUsers)
  ]

  /** `PERMISSION_MAP[code]`, None for an unknown code. */
  function Lookup(entries: seq<(string, Flag)>, code: string): Option<Flag> {
    if entries == [] then None
    else if entries[0].0 == code then Some(entries[0].1)
    else Lookup(entries[1..], code)
  }

  function PermissionMap(code: string): Option<Flag> {
    Lookup(PERMISSION_ENTRIES, code)
  }

  /** The reduce that builds `REVERSE_PERMISSION_MAP`: each entry writes `acc[front] = back`. */
  function Reversed(entries: seq<(string, Flag)>): map<Flag, string> {
    if entries == [] then map[]
    else Reversed(entries[..|entries| - 1])[entries[|entries| - 1].1 := entries[|entries| - 1].0]
  }

  /** `REVERSE_PERMISSION_MAP`, built as the reduce builds it. */
  method BuildReverseMap() returns (acc: map<Flag, string>)
    ensures acc == Reversed(PERMISSION_ENTRIES)
  {
    acc := map[];
    var i := 0;
    while i < |PERMISSION_ENTRIES|
      invariant 0 <= i <= |PERMISSION_ENTRIES|
      invariant acc == Reversed(PERMISSION_ENTRIES[..i])
    {
      var (back, front) := PERMISSION_ENTRIES[i];
      assert PERMISSION_ENTRIES[..i + 1][..i] == PERMISSION_ENTRIES[..i];
      acc := acc[front := back];
      i := i + 1;
    }
    assert PERMISSION_ENTRIES[..i] == PERMISSION_ENTRIES;
  }

  /** The backend code of a flag: `REVERSE_PERMISSION_MAP[f]`. */
  function CodeOf(f: Flag): string {
    match f
    case CanManageTimes => "MANAGE_TIME"
    case CanEditSurveys => "MANAGE_SURVEY"
    case CanViewGlobalStats => "VIEW_ADMIN_STATS"
    case CanManageUsers => "MANAGE_USERS"
  }

  lemma ReversedTable()
    ensures Reversed(PERMISSION_ENTRIES) ==
            map[CanManageTimes := "MANAGE_TIME", CanEditSurveys := "MANAGE_SURVEY",
                CanViewGlobalStats := "VIEW_ADMIN_STATS", CanManageUsers := "MANAGE_USERS"]
  {
    var e := PERMISSION_ENTRIES;
    assert e[..1][..0] == [];
    assert Reversed(e[..1]) == map[CanManageTimes := "MANAGE_TIME"];
    assert e[..2][..1] == e[..1];
    assert Reversed(e[..2]) == Reversed(e[..1])[CanEditSurveys := "MANAGE_SURVEY"];
    assert e[..3][..2] == e[..2];
    assert Reversed(e[..3]) == Reversed(e[..2])[CanViewGlobalStats := "VIEW_ADMIN_STATS"];
    assert e[..4][..3] == e[..3];
    assert e[..4] == e;
  }

  lemma LookupTable(code: string)
    ensures PermissionMap(code) ==
            if code == "MANAGE_TIME" then Some(CanManageTimes)
            else if code == "MANAGE_SURVEY" then Some(CanEditSurveys)
            else if code == "VIEW_ADMIN_STATS" then Some(CanViewGlobalStats)
            else if code == "MANAGE_USERS" then Some(CanManageUsers)
            else None
  {
    var e := PERMISSION_ENTRIES;
    var e3 := [("MANAGE_USERS", CanManageUsers)];
    var e2 := [("VIEW_ADMIN_STATS", CanViewGlobalStats)] + e3;
    var e1 := [("MANAGE_SURVEY", CanEditSurveys)] + e2;
    assert e == [("MANAGE_TIME", CanManageTimes)] + e1;
    assert e[1..] == e1 && e1[1..] == e2 && e2[1..] == e3 && e3[1..] == [];
    assert Lookup(e3, code) == if code == "MANAGE_USERS" then Some(CanManageUsers) else None;
    assert Lookup(e2, code) == if code == "VIEW_ADMIN_STATS" then Some(CanViewGlobalStats) else Lookup(e3, code);
    assert Lookup(e1, code) == if code == "MANAGE_SURVEY" then Some(CanEditSurveys) else Lookup(e2, code);
  }

  /**
   * `PERMISSION_MAP` is injective on the four codes and `REVERSE_PERMISSION_MAP`
   * is its inverse: a code maps to a flag exactly when it is that flag's code.
   */
  lemma ReverseIsInverse()
    ensures forall f :: f in Reversed(PERMISSION_ENTRIES) && Reversed(PERMISSION_ENTRIES)[f] == CodeOf(f)
    ensures forall code, f :: PermissionMap(code) == Some(f) <==> code == CodeOf(f)
  {
    ReversedTable();
    var r := Reversed(PERMISSION_ENTRIES);
    forall f
      ensures f in r && r[f] == CodeOf(f)
    {
      match f
      case CanManageTimes =>
      case CanEditSurveys =>
      case CanViewGlobalStats =>
      case CanManageUsers =>
    }
    forall code, f
      ensures PermissionMap(code) == Some(f) <==> code == CodeOf(f)
    {
      LookupTable(code);
    }
  }

  lemma CodeOfInjective(f: Flag, g: Flag)
    ensures CodeOf(f) == CodeOf(g) ==> f == g
  {
    ReverseIsInverse();
  }

  /** `u.permissions[f]` for a freshly mapped user: whether the backend listed `f`'s code. */
  function FlagsFromCodes(codes: seq<string>): (p: Permissions)
    ensures forall f :: Has(p, f) <==> CodeOf(f) in codes
  {
    Permissions(CodeOf(CanManageTimes) in codes, CodeOf(CanEditSurveys) in codes,
                CodeOf(CanViewGlobalStats) in codes, CodeOf(CanManageUsers) in codes)
  }

  /** The codes pushed for the set flags among `flags`, in that order. */
  function CodesOf(p: Permissions, flags: seq<Flag>): seq<string> {
    if flags == [] then []
    else CodesOf(p, flags[..|flags| - 1]) + (if Has(p, flags[|flags| - 1]) then [CodeOf(flags[|flags| - 1])] else [])
  }

  /** The user as the backend sends it. */
  datatype BackendUser = BackendUser(
    id: string, fullName: string, email: string, role: string, isActive: bool,
    permissions: Option<seq<string>>, lastLogin: Option<string>)

  /** `User`. */
  datatype User = User(
    id: string, fullName: string, email: string, role: string, isActive: bool,
    permissions: Permissions, lastLogin: Option<string>)

  /**
   * `mapBackendUserToFrontend`: all flags start false; every known code in the
   * array sets its flag; unknown codes are ignored.
   */
  method FromBackend(b: BackendUser) returns (u: User)
    ensures u.permissions == FlagsFromCodes(b.permissions.GetOr([]))
    ensures u.id == b.id && u.fullName == b.fullName && u.email == b.email
    ensures u.role == b.role && u.isActive == b.isActive && u.lastLogin == b.lastLogin
  {
    var permissions := NO_PERMISSIONS;
    var codes := b.permissions.GetOr([]);
    ReverseIsInverse();
    var i := 0;
    while i < |codes|
      invariant 0 <= i <= |codes|
      invariant forall f :: Has(permissions, f) <==> CodeOf(f) in codes[..i]
    {
      assert codes[..i + 1] == codes[..i] + [codes[i]];
      var frontendKey := PermissionMap(codes[i]);
      if frontendKey.Some? {
        permissions := With(permissions, frontendKey.value, true);
      }
      i := i + 1;
    }
    assert codes[..i] == codes;
    u := User(b.id, b.fullName, b.email, b.role, b.isActive, permissions, b.lastLogin);
  }

  /** `CreateUserPayload | Partial<User>`: every field may be absent. */
  datatype UserPayload = UserPayload(
    id: Option<string>, fullName: Option<string>, email: Option<string>, password: Option<string>,
    role: Option<string>, isActive: Option<bool>, permissions: Option<Permissions>, lastLogin: Option<string>)

  /** The payload sent to the backend: the same fields, with permissions as an array of codes. */
  datatype BackendPayload = BackendPayload(
    id: Option<string>, fullName: Option<string>, email: Option<string>, password: Option<string>,
    role: Option<string>, isActive: Option<bool>, permissions: Option<seq<string>>, lastLogin: Option<string>)

  /**
   * `mapFrontendToBackendPayload`: a copy of the payload; when it carries
   * permissions they are replaced by the codes of the set flags, in key order.
   */
  method ToBackend(user: UserPayload) returns (payload: BackendPayload)
    ensures payload.permissions == if user.permissions.None? then None else Some(CodesOf(user.permissions.value, FLAG_ORDER))
    ensures payload.id == user.id && payload.fullName == user.fullName && payload.email == user.email
    ensures payload.password == user.password && payload.role == user.role
    ensures payload.isActive == user.isActive && payload.lastLogin == user.lastLogin
  {
    payload := BackendPayload(user.id, user.fullName, user.email, user.password,
                              user.role, user.isActive, None, user.lastLogin);
    if user.permissions.Some? {
      var p := user.permissions.value;
      var permissionsArray: seq<string> := [];
      var reverse := BuildReverseMap();
      ReverseIsInverse();
      var i := 0;
      while i < |FLAG_ORDER|
        invariant 0 <= i <= |FLAG_ORDER|
        invariant permissionsArray == CodesOf(p, FLAG_ORDER[..i])
      {
        var key := FLAG_ORDER[i];
        assert FLAG_ORDER[..i + 1][..i] == FLAG_ORDER[..i];
        if Has(p, key) {
          var backendKey := reverse[key];
          permissionsArray := permissionsArray + [backendKey];
        }
        i := i + 1;
      }
      assert FLAG_ORDER[..i] == FLAG_ORDER;
      payload := payload.(permissions := Some(permissionsArray));
    }
  }

  lemma {:induction false} CodesOfMembership(p: Permissions, flags: seq<Flag>, c: string)
    ensures c in CodesOf(p, flags) <==> exists f :: f in flags && Has(p, f) && c == CodeOf(f)
  {
    if flags != [] {
      var init := flags[..|flags| - 1];
      CodesOfMembership(p, init, c);
      assert flags == init + [flags[|flags| - 1]];
      if exists f :: f in flags && Has(p, f) && c == CodeOf(f) {
        var f :| f in flags && Has(p, f) && c == CodeOf(f);
        if f != flags[|flags| - 1] {
          assert f in init;
        }
      }
    }
  }

  /** The array holds exactly the codes of the set flags. */
  lemma CodesAreSetFlags(p: Permissions, c: string)
    ensures c in CodesOf(p, FLAG_ORDER) <==> exists f :: Has(p, f) && c == CodeOf(f)
  {
    CodesOfMembership(p, FLAG_ORDER, c);
    if exists f :: Has(p, f) && c == CodeOf(f) {
      var f :| Has(p, f) && c == CodeOf(f);
      assert f in FLAG_ORDER;
    }
  }

  predicate NoDuplicates(s: seq<string>) {
    forall i, j :: 0 <= i < j < |s| ==> s[i] != s[j]
  }

  lemma {:induction false} CodesOfNoDuplicates(p: Permissions, flags: seq<Flag>)
    requires forall i, j :: 0 <= i < j < |flags| ==> flags[i] != flags[j]
    ensures NoDuplicates(CodesOf(p, flags))
  {
    if flags != [] {
      var init := flags[..|flags| - 1];
      var last := flags[|flags| - 1];
      CodesOfNoDuplicates(p, init);
      CodesOfMembership(p, init, CodeOf(last));
    }
  }

  /** No code is pushed twice. */
  lemma CodesHaveNoDuplicates(p: Permissions)
    ensures NoDuplicates(CodesOf(p, FLAG_ORDER))
  {
    CodesOfNoDuplicates(p, FLAG_ORDER);
  }

  /** Flags to codes and back gives the same four flags. */
  lemma RoundTripFlags(p: Permissions)
    ensures FlagsFromCodes(CodesOf(p, FLAG_ORDER)) == p
  {
    var q := FlagsFromCodes(CodesOf(p, FLAG_ORDER));
    forall f
      ensures Has(q, f) == Has(p, f)
    {
      CodesAreSetFlags(p, CodeOf(f));
    }
    assert Has(q, CanManageTimes) == Has(p, CanManageTimes);
    assert Has(q, CanEditSurveys) == Has(p, CanEditSurveys);
    assert Has(q, CanViewGlobalStats) == Has(p, CanViewGlobalStats);
    assert Has(q, CanManageUsers) == Has(p, CanManageUsers);
  }

  /** Codes to flags and back keeps exactly the known codes of the input, once each. */
  lemma RoundTripCodes(codes: seq<string>)
    ensures var back := CodesOf(FlagsFromCodes(codes), FLAG_ORDER);
            NoDuplicates(back) &&
            forall c :: c in back <==> c in codes && PermissionMap(c).Some?
  {
    var p := FlagsFromCodes(codes);
    CodesHaveNoDuplicates(p);
    ReverseIsInverse();
    forall c
      ensures c in CodesOf(p, FLAG_ORDER) <==> c in codes && PermissionMap(c).Some?
    {
      CodesAreSetFlags(p, c);
      if c in codes && PermissionMap(c).Some? {
        assert c == CodeOf(PermissionMap(c).value);
      }
    }
  }

  /** Going through the backend and back leaves a user's permissions as they were. */
  lemma UserRoundTrip(user: UserPayload, backendEcho: BackendUser)
    requires user.permissions.Some?
    requires backendEcho.permissions == Some(CodesOf(user.permissions.value, FLAG_ORDER))
    ensures FlagsFromCodes(backendEcho.permissions.GetOr([])) == user.permissions.value
  {
    RoundTripFlags(user.permissions.value);
  }
}
