/** `CurrentUser`: what the rest of the server may know about the user making the
    request, built once from a validated token payload and never changed. */
module CurrentUsers {
  import opened Wrappers
  import opened PyStrings
  import opened Permissions

  /** The three claims `from_jwt` reads from the payload: the custom permissions
      claim, the custom organisation id claim and the subject. */
  datatype Claims = Claims(permissions: seq<string>, organisationId: int, sub: string)

  /** What `from_jwt` can raise after the payload was decoded: the `ValueError` of a
      malformed permission, or that of a subject that is no integer once stripped. */
  datatype ClaimsError = Permission(cause: CompileError) | NonIntegerSubject(stripped: string)

  /** `authorized_base_ids` of an absent permission raises `KeyError`. */
  datatype LookupError = PermissionNotGranted(permission: string)

  /** The permissions claim of a god user. */
  const GodMarker: seq<string> := ["*"]

  /** Removed from the subject, wherever it occurs, before `int()`. */
  const SubjectPrefix := "auth0|"

  /** `int(sub.replace("auth0|", ""))`; a subject without the letter `a` is
      parsed as it stands. */
  function SubjectId(sub: string): (r: Option<int>)
    ensures Free(sub, SubjectPrefix[0]) ==> r == ParseInt(sub)
  {
    RemoveAllAbsentIf(sub, SubjectPrefix);
    ParseInt(RemoveAll(sub, SubjectPrefix))
  }

  /** The state of a `CurrentUser`, as a value. */
  datatype UserView = UserView(id: int, organisationId: Option<int>, isGod: bool, baseIds: BaseIdMap)

  /** What `from_jwt` builds from a payload: the permissions are compiled first
      (none for a god user), then the subject is parsed; a god user has no
      organisation. */
  function FromJwtSpec(payload: Claims): (r: Result<UserView, ClaimsError>)
    ensures r.Ok? ==> (r.value.isGod <==> payload.permissions == GodMarker)
    ensures r.Ok? && r.value.isGod ==> r.value.organisationId == None && r.value.baseIds == map[]
    ensures r.Ok? && !r.value.isGod ==> r.value.organisationId == Some(payload.organisationId)
    ensures r.Ok? ==> SubjectId(payload.sub) == Some(r.value.id)
  {
    var isGod := payload.permissions == GodMarker;
    var compiled := if isGod then Ok(map[]) else Compile(payload.permissions);
    match compiled
    case Err(e) => Err(Permission(e))
    case Ok(baseIds) =>
      match SubjectId(payload.sub)
      case None => Err(NonIntegerSubject(RemoveAll(payload.sub, SubjectPrefix)))
      case Some(id) => Ok(UserView(id, if isGod then None else Some(payload.organisationId), isGod, baseIds))
  }

  class CurrentUser {
    const id: int
    const organisationId: Option<int>
    const isGod: bool
    /** Permission name to scope; not exposed by the source, only queried. */
    const baseIds: BaseIdMap

    /** `baseIds == None` stands for the keyword argument left out; it and an empty
        map both leave the user without permissions. */
    constructor (organisationId: int, id: int, isGod: bool, baseIds: Option<BaseIdMap>)
      ensures this.id == id && this.isGod == isGod
      ensures this.organisationId == if isGod then None else Some(organisationId)
      ensures this.baseIds == if baseIds.Some? then baseIds.value else map[]
    {
      this.id := id;
      this.organisationId := if isGod then None else Some(organisationId);
      this.isGod := isGod;
      this.baseIds := if baseIds.Some? then baseIds.value else map[];
    }

    function View(): UserView {
      UserView(id, organisationId, isGod, baseIds)
    }

    /** Granted exactly when the permission is a key of the map. */
    function HasPermission(name: string): (granted: bool)
      ensures granted <==> name in baseIds
    {
      name in baseIds
    }

    /** A god user is granted every base; otherwise the scope stored for a granted
        permission, and `PermissionNotGranted` for one `HasPermission` denies. */
    function AuthorizedBaseIds(permission: string): (r: Result<Scope, LookupError>)
      ensures isGod ==> r == Ok(AllBases)
      ensures !isGod ==> (r.Ok? <==> HasPermission(permission))
      ensures !isGod && r.Ok? ==> r.value == baseIds[permission]
      ensures r.Err? ==> r.error == PermissionNotGranted(permission)
    {
      if isGod then Ok(AllBases)
      else if permission in baseIds then Ok(baseIds[permission])
      else Err(PermissionNotGranted(permission))
    }

    /** `from_jwt`: the user described by a payload, or the error the payload
        raises; no user is built when an error is raised. */
    static method FromJwt(payload: Claims) returns (r: Result<CurrentUser, ClaimsError>)
      ensures r.Err? <==> FromJwtSpec(payload).Err?
      ensures r.Err? ==> r.error == FromJwtSpec(payload).error
      ensures r.Ok? ==> fresh(r.value) && r.value.View() == FromJwtSpec(payload).value
    {
      var isGod := payload.permissions == GodMarker;
      var baseIds: BaseIdMap := map[];
      if !isGod {
        var compiled := CompilePermissions(payload.permissions);
        if compiled.Err? {
          return Err(Permission(compiled.error));
        }
        baseIds := compiled.value;
      }
      var id := SubjectId(payload.sub);
      if id.None? {
        return Err(NonIntegerSubject(RemoveAll(payload.sub, SubjectPrefix)));
      }
      var user := new CurrentUser(payload.organisationId, id.value, isGod, Some(baseIds));
      return Ok(user);
    }
  }

  // ---------------------------------------------------------------------------
  // Properties of from_jwt

  /** A god user: no organisation even when the payload has one, no permission
      in the map, and every base for every permission. */
  lemma GodUser(payload: Claims, u: CurrentUser)
    requires payload.permissions == GodMarker && SubjectId(payload.sub).Some?
    requires u.View() == FromJwtSpec(payload).value
    ensures u.isGod && u.organisationId == None && u.baseIds == map[]
    ensures forall x :: !u.HasPermission(x)
    ensures forall x :: u.AuthorizedBaseIds(x) == Ok(AllBases)
  {
  }

  /** A user that is not a god user has exactly the compiled map, and the
      organisation of the payload. */
  lemma OrdinaryUser(payload: Claims, u: CurrentUser)
    requires payload.permissions != GodMarker && FromJwtSpec(payload).Ok?
    requires u.View() == FromJwtSpec(payload).value
    ensures Compile(payload.permissions).Ok? && u.baseIds == Compile(payload.permissions).value
    ensures !u.isGod && u.organisationId == Some(payload.organisationId)
    ensures forall x :: u.HasPermission(x) <==> x in Compile(payload.permissions).value
    ensures forall x :: x !in u.baseIds ==> u.AuthorizedBaseIds(x) == Err(PermissionNotGranted(x))
    ensures WriteImpliesRead(u.baseIds)
  {
    CompileWriteImpliesRead(payload.permissions);
  }

  /** Fail fast: a user is built exactly when the payload is a god payload or every
      permission string is well formed, and the subject is an integer once
      `auth0|` is removed; a malformed permission is reported before the subject. */
  lemma FromJwtSucceedsIff(payload: Claims)
    ensures FromJwtSpec(payload).Ok? <==>
            (payload.permissions == GodMarker ||
             forall i :: 0 <= i < |payload.permissions| ==> WellFormed(payload.permissions[i])) &&
            SubjectId(payload.sub).Some?
    ensures payload.permissions != GodMarker && Compile(payload.permissions).Err? ==>
            FromJwtSpec(payload) == Err(Permission(Compile(payload.permissions).error))
  {
    CompileSucceedsIff(payload.permissions);
  }

  /** `int(("auth0|" + str(n)).replace("auth0|", "")) == n`, and a subject without
      the prefix parses the same way. */
  lemma SubjectRoundTrip(n: int)
    ensures SubjectId(SubjectPrefix + IntToString(n)) == Some(n)
    ensures SubjectId(IntToString(n)) == Some(n)
  {
    var s := IntToString(n);
    assert Free(s, SubjectPrefix[0]) by {
      if n < 0 {
        assert s == "-" + NatToString(-n);
        assert forall i :: 1 <= i < |s| ==> s[i] == NatToString(-n)[i - 1];
      }
    }
    RemoveAllAbsent(s, SubjectPrefix);
    RemoveAllLeading(SubjectPrefix, s);
    ParseIntOfString(n);
  }
}
