/** The permission compiler of `CurrentUser.from_jwt`: a list of permission
    strings of the form `[base_X[-Y...]/]resource:method` becomes a map from
    permission name to the bases it is granted for. */
module Permissions {
  import opened Wrappers
  import opened PyStrings

  /** The bases a permission is granted for: every base (Python's `None`) or the
      listed base ids, in the order written and with any repetition kept. */
  datatype Scope = AllBases | Bases(ids: seq<int>)

  /** The `base_ids` dictionary: permission name to scope. */
  type BaseIdMap = map<string, Scope>

  /** One permission string after its optional base prefix has been taken off. */
  datatype Grant = Grant(permission: string, scope: Scope)

  /** The `ValueError` raised when a permission without its prefix is not
      `resource:method`. */
  datatype CompileError = MalformedPermission(permission: string)

  /** Length of the base prefix `base_`, dropped without being inspected. */
  const BasePrefixLength := 5

  /** Methods that also grant `resource:read`. */
  const WriteMethods: set<string> := {"write", "create", "edit"}

  /** Python's `prefix[5:]`. */
  function DropBasePrefix(prefix: string): string {
    if |prefix| <= BasePrefixLength then "" else prefix[BasePrefixLength..]
  }

  /** `[int(b) for b in parts]`, or `None` when one of the parts is not an integer. */
  function ParseAll(parts: seq<string>): (r: Option<seq<int>>)
    ensures r.Some? <==> forall i :: 0 <= i < |parts| ==> ParseInt(parts[i]).Some?
    ensures r.Some? ==> |r.value| == |parts|
    ensures r.Some? ==> forall i :: 0 <= i < |parts| ==> Some(r.value[i]) == ParseInt(parts[i])
    decreases |parts|
  {
    if |parts| == 0 then Some([])
    else match (ParseInt(parts[0]), ParseAll(parts[1..]))
      case (Some(x), Some(xs)) => Some([x] + xs)
      case _ => None
  }

  /** The base ids written after the 5-character prefix, separated by `-`. */
  function ParseBaseIds(prefix: string): Option<seq<int>> {
    ParseAll(SplitOn(DropBasePrefix(prefix), '-'))
  }

  /** Lines 152-158: a string that splits on `/` into exactly two parts whose first
      part, less 5 characters, is a `-`-list of integers is scoped to those bases;
      any other string is granted, whole, for all bases. */
  function ParseGrant(raw: string): (g: Grant)
    ensures g.scope.AllBases? ==> g.permission == raw
    ensures g.scope.Bases? ==> |g.scope.ids| >= 1 && Count(raw, '/') == 1 && Free(g.permission, '/')
    ensures g.scope.Bases? ==> |g.permission| < |raw| && raw[|raw| - |g.permission|..] == g.permission
  {
    var parts := SplitOn(raw, '/');
    SplitJoin(raw, '/');
    if |parts| == 2 then
      match ParseBaseIds(parts[0])
      case Some(ids) => Grant(parts[1], Bases(ids))
      case None => Grant(raw, AllBases)
    else Grant(raw, AllBases)
  }

  /** `permission.split(":")` unpacked into exactly two names. */
  function ResourceMethod(permission: string): (rm: Option<(string, string)>)
    ensures rm.Some? <==> Count(permission, ':') == 1
    ensures rm.Some? ==> permission == rm.value.0 + ":" + rm.value.1
    ensures rm.Some? ==> Free(rm.value.0, ':') && Free(rm.value.1, ':')
  {
    var parts := SplitOn(permission, ':');
    SplitJoin(permission, ':');
    if |parts| == 2 then Some((parts[0], parts[1])) else None
  }

  function ReadPermission(resource: string): string {
    resource + ":read"
  }

  /** A raw permission string that compiles without raising. */
  predicate WellFormed(raw: string) {
    ResourceMethod(ParseGrant(raw).permission).Some?
  }

  /** The keys that one raw permission string writes into the map. */
  function Keys(raw: string): set<string> {
    var g := ParseGrant(raw);
    match ResourceMethod(g.permission)
    case Some((resource, action)) =>
      if action in WriteMethods then {g.permission, ReadPermission(resource)} else {g.permission}
    case None => {g.permission}
  }

  /** The effect of one loop iteration of lines 151-163 on the map. */
  function Step(m: BaseIdMap, raw: string): (r: Result<BaseIdMap, CompileError>)
    ensures r.Ok? <==> WellFormed(raw)
    ensures r.Ok? ==> m.Keys <= r.value.Keys && ParseGrant(raw).permission in r.value
    ensures r.Ok? ==> r.value[ParseGrant(raw).permission] == ParseGrant(raw).scope
  {
    var g := ParseGrant(raw);
    match ResourceMethod(g.permission)
    case None => Err(MalformedPermission(g.permission))
    case Some((resource, action)) =>
      var m1 := m[g.permission := g.scope];
      Ok(if action in WriteMethods then m1[ReadPermission(resource) := g.scope] else m1)
  }

  /** The map compiled from a list of permission strings, processed in order; the
      first malformed one aborts the whole compilation. */
  function Compile(perms: seq<string>): (r: Result<BaseIdMap, CompileError>)
    ensures r.Err? ==> exists i :: 0 <= i < |perms| && !WellFormed(perms[i]) &&
                                   r.error == MalformedPermission(ParseGrant(perms[i]).permission)
    decreases |perms|
  {
    if |perms| == 0 then Ok(map[])
    else match Compile(perms[..|perms| - 1])
      case Err(e) => Err(e)
      case Ok(m) => Step(m, perms[|perms| - 1])
  }

  /** The loop of `from_jwt` (lines 149-163): it updates a local map `baseIds`, one
      assignment per dictionary write of the source, the write-class methods adding
      the matching read permission with the same scope. */
  method CompilePermissions(perms: seq<string>) returns (r: Result<BaseIdMap, CompileError>)
    ensures r == Compile(perms)
  {
    var baseIds: BaseIdMap := map[];
    var i := 0;
    while i < |perms|
      invariant 0 <= i <= |perms|
      invariant Compile(perms[..i]) == Ok(baseIds)
    {
      assert perms[..i + 1][..i] == perms[..i];
      var g := ParseGrant(perms[i]);
      baseIds := baseIds[g.permission := g.scope];
      var rm := ResourceMethod(g.permission);
      if rm.None? {
        CompileErrorPersists(perms[..i + 1], perms);
        return Err(MalformedPermission(g.permission));
      }
      var (resource, action) := rm.value;
      if action in WriteMethods {
        baseIds := baseIds[ReadPermission(resource) := g.scope];
      }
      i := i + 1;
    }
    assert perms[..i] == perms;
    r := Ok(baseIds);
  }

  /** Once a prefix fails, so does every longer list, with the same error. */
  lemma {:induction false} CompileErrorPersists(prefix: seq<string>, perms: seq<string>)
    requires prefix <= perms && Compile(prefix).Err?
    ensures Compile(perms) == Compile(prefix)
    decreases |perms|
  {
    if |perms| > |prefix| {
      var init := perms[..|perms| - 1];
      assert prefix <= init;
      CompileErrorPersists(prefix, init);
    } else {
      assert prefix == perms;
    }
  }

  // ---------------------------------------------------------------------------
  // Parsing one permission string

  /** `resource:action` splits back into its two names when neither holds a colon. */
  lemma ResourceMethodOf(resource: string, action: string)
    requires Free(resource, ':') && Free(action, ':')
    ensures ResourceMethod(resource + ":" + action) == Some((resource, action))
  {
    SplitTwo(resource, action, ':');
  }

  /** A string without `/` is granted, whole, for all bases. */
  lemma GrantWithoutSlash(raw: string)
    requires Free(raw, '/')
    ensures ParseGrant(raw) == Grant(raw, AllBases)
  {
    SplitNone(raw, '/');
  }

  /** A string with two or more `/` is granted, whole, for all bases. */
  lemma GrantWithManySlashes(raw: string)
    requires Count(raw, '/') >= 2
    ensures ParseGrant(raw) == Grant(raw, AllBases)
  {
    SplitJoin(raw, '/');
  }

  /** With exactly one `/`, the string is scoped to the bases its prefix lists when
      that prefix, less its first 5 characters, is a `-`-list of integers, and is
      granted, whole, for all bases when it is not. */
  lemma GrantWithOneSlash(prefix: string, rest: string)
    requires Free(prefix, '/') && Free(rest, '/')
    ensures ParseBaseIds(prefix).Some? ==>
              ParseGrant(prefix + "/" + rest) == Grant(rest, Bases(ParseBaseIds(prefix).value))
    ensures ParseBaseIds(prefix).None? ==>
              ParseGrant(prefix + "/" + rest) == Grant(prefix + "/" + rest, AllBases)
  {
    SplitTwo(prefix, rest, '/');
  }

  lemma {:induction false} JoinKeepsFree(parts: seq<string>, sep: char, c: char)
    requires |parts| >= 1 && c != sep
    requires forall i :: 0 <= i < |parts| ==> Free(parts[i], c)
    ensures Free(Join(parts, sep), c)
    decreases |parts|
  {
    if |parts| > 1 {
      JoinKeepsFree(parts[1..], sep, c);
    }
  }

  /** The decimal spelling of each base id. */
  function BaseIdStrings(ids: seq<nat>): (r: seq<string>)
    ensures |r| == |ids|
    ensures forall i :: 0 <= i < |ids| ==> r[i] == NatToString(ids[i])
  {
    seq(|ids|, i requires 0 <= i < |ids| => NatToString(ids[i]))
  }

  /** `[int(b) for b in "-".join(map(str, ids)).split("-")]` gives back `ids`. */
  lemma BaseIdsRoundTrip(prefix: string, ids: seq<nat>)
    requires |prefix| == BasePrefixLength && |ids| >= 1
    ensures ParseBaseIds(prefix + Join(BaseIdStrings(ids), '-')) == Some(ids)
  {
    var parts := BaseIdStrings(ids);
    var joined := Join(parts, '-');
    assert (prefix + joined)[BasePrefixLength..] == joined;
    forall i | 0 <= i < |parts| ensures Free(parts[i], '-') {
      assert AllDigits(parts[i]);
    }
    JoinSplit(parts, '-');
    forall i | 0 <= i < |parts| ensures ParseInt(parts[i]) == Some(ids[i] as int) {
      ParseIntOfString(ids[i]);
    }
    var r := ParseAll(parts);
    assert r.value == ids;
  }

  /** A permission written with any 5-character prefix followed by a non-empty
      `-`-list of base ids, a `/` and a slash-free permission is scoped to exactly
      those ids: the text of the prefix is never checked. */
  lemma ScopedGrantRoundTrip(prefix: string, ids: seq<nat>, permission: string)
    requires |prefix| == BasePrefixLength && Free(prefix, '/') && |ids| >= 1
    requires Free(permission, '/')
    ensures ParseGrant(prefix + Join(BaseIdStrings(ids), '-') + "/" + permission) == Grant(permission, Bases(ids))
  {
    var parts := BaseIdStrings(ids);
    forall i | 0 <= i < |parts| ensures Free(parts[i], '/') {
      assert AllDigits(parts[i]);
    }
    JoinKeepsFree(parts, '-', '/');
    BaseIdsRoundTrip(prefix, ids);
    GrantWithOneSlash(prefix + Join(parts, '-'), permission);
  }

  // ---------------------------------------------------------------------------
  // The compiled map

  /** Compilation succeeds exactly when every permission string is well formed. */
  lemma {:induction false} CompileSucceedsIff(perms: seq<string>)
    ensures Compile(perms).Ok? <==> forall i :: 0 <= i < |perms| ==> WellFormed(perms[i])
    decreases |perms|
  {
    if |perms| > 0 {
      var init := perms[..|perms| - 1];
      CompileSucceedsIff(init);
      assert forall i :: 0 <= i < |init| ==> init[i] == perms[i];
    }
  }

  /** The error reported is that of the first malformed permission string. */
  lemma {:induction false} CompileFailsAtFirst(perms: seq<string>, k: nat)
    requires k < |perms| && !WellFormed(perms[k])
    requires forall j :: 0 <= j < k ==> WellFormed(perms[j])
    ensures Compile(perms) == Err(MalformedPermission(ParseGrant(perms[k]).permission))
  {
    var prefix := perms[..k + 1];
    CompileSucceedsIff(perms[..k]);
    assert prefix[..k] == perms[..k];
    CompileErrorPersists(prefix, perms);
  }

  /** Every write-class permission in the map has its read permission beside it. */
  ghost predicate WriteImpliesRead(m: BaseIdMap) {
    forall k :: k in m && ResourceMethod(k).Some? && ResourceMethod(k).value.1 in WriteMethods ==>
      ReadPermission(ResourceMethod(k).value.0) in m
  }

  lemma StepKeepsWriteImpliesRead(m: BaseIdMap, raw: string)
    requires WriteImpliesRead(m) && Step(m, raw).Ok?
    ensures WriteImpliesRead(Step(m, raw).value)
  {
    var g := ParseGrant(raw);
    var (resource, action) := ResourceMethod(g.permission).value;
    var m1 := Step(m, raw).value;
    SplitJoin(g.permission, ':');
    assert Free(resource, ':');
    assert Free("read", ':');
    ResourceMethodOf(resource, "read");
    assert ReadPermission(resource) == resource + ":" + "read";
    forall k | k in m1 && ResourceMethod(k).Some? && ResourceMethod(k).value.1 in WriteMethods
      ensures ReadPermission(ResourceMethod(k).value.0) in m1
    {
      if k == g.permission {
        assert ResourceMethod(k).value == (resource, action);
      } else if action in WriteMethods && k == ReadPermission(resource) {
        assert ResourceMethod(k).value.1 == "read";
      } else {
        assert k in m;
      }
    }
  }

  /** The compiled map never lists a write-class permission without its read one. */
  lemma {:induction false} CompileWriteImpliesRead(perms: seq<string>)
    requires Compile(perms).Ok?
    ensures WriteImpliesRead(Compile(perms).value)
    decreases |perms|
  {
    if |perms| > 0 {
      var init := perms[..|perms| - 1];
      CompileWriteImpliesRead(init);
      StepKeepsWriteImpliesRead(Compile(init).value, perms[|perms| - 1]);
    }
  }

  /** Permission string `i` is the last one in `perms` that writes key `k`. */
  predicate LastWriter(perms: seq<string>, k: string, i: int) {
    0 <= i < |perms| && k in Keys(perms[i]) &&
    forall j :: i < j < |perms| ==> k !in Keys(perms[j])
  }

  lemma LastWriterExtends(init: seq<string>, last: string, k: string, i: int)
    requires LastWriter(init, k, i) && k !in Keys(last)
    ensures LastWriter(init + [last], k, i)
  {
    var perms := init + [last];
    forall j | i < j < |perms| ensures k !in Keys(perms[j]) {
      if j < |init| { assert perms[j] == init[j]; }
    }
  }

  /** A successful step writes the keys of its permission string, all with that
      string's scope, and leaves every other entry as it was. */
  lemma StepEffect(m: BaseIdMap, raw: string)
    requires Step(m, raw).Ok?
    ensures Step(m, raw).value.Keys == m.Keys + Keys(raw)
    ensures forall k :: k in Keys(raw) ==> Step(m, raw).value[k] == ParseGrant(raw).scope
    ensures forall k :: k in m && k !in Keys(raw) ==> Step(m, raw).value[k] == m[k]
  {
  }

  /** Last write wins: the compiled map holds exactly the keys the permission
      strings write, and each key's scope is the scope of the last string that
      writes it; scopes of different strings are never merged. */
  lemma {:induction false} CompileLastWriteWins(perms: seq<string>)
    requires Compile(perms).Ok?
    ensures forall i, k :: 0 <= i < |perms| && k in Keys(perms[i]) ==> k in Compile(perms).value
    ensures forall k :: k in Compile(perms).value ==>
              exists i :: LastWriter(perms, k, i) && Compile(perms).value[k] == ParseGrant(perms[i]).scope
    decreases |perms|
  {
    if |perms| > 0 {
      var n := |perms| - 1;
      var init, last := perms[..n], perms[n];
      assert perms == init + [last];
      var m0 := Compile(init).value;
      var m := Compile(perms).value;
      CompileLastWriteWins(init);
      StepEffect(m0, last);
      forall i, k | 0 <= i < |perms| && k in Keys(perms[i]) ensures k in m {
        if i < n { assert perms[i] == init[i]; }
      }
      forall k | k in m
        ensures exists i :: LastWriter(perms, k, i) && m[k] == ParseGrant(perms[i]).scope
      {
        if k in Keys(last) {
          assert LastWriter(perms, k, n);
        } else {
          var i :| LastWriter(init, k, i) && m0[k] == ParseGrant(init[i]).scope;
          LastWriterExtends(init, last, k, i);
        }
      }
    }
  }

  // ---------------------------------------------------------------------------
  // The documented examples

  /** A permission string as the identity provider writes it: a 5-character prefix,
      the base ids joined by `-`, a `/`, then `resource:action`. */
  function ScopedPermission(prefix: string, ids: seq<nat>, resource: string, action: string): string
    requires |ids| >= 1
  {
    prefix + Join(BaseIdStrings(ids), '-') + "/" + resource + ":" + action
  }

  /** The map after granting `resource:action` for `scope` (the read permission too
      for a write-class action). */
  function Granted(m: BaseIdMap, resource: string, action: string, scope: Scope): BaseIdMap {
    var m1 := m[resource + ":" + action := scope];
    if action in WriteMethods then m1[ReadPermission(resource) := scope] else m1
  }

  lemma StepScoped(m: BaseIdMap, prefix: string, ids: seq<nat>, resource: string, action: string)
    requires |prefix| == BasePrefixLength && Free(prefix, '/') && |ids| >= 1
    requires Free(resource, '/') && Free(resource, ':') && Free(action, '/') && Free(action, ':')
    ensures Step(m, ScopedPermission(prefix, ids, resource, action)) == Ok(Granted(m, resource, action, Bases(ids)))
  {
    var permission := resource + ":" + action;
    assert Free(permission, '/');
    ScopedGrantRoundTrip(prefix, ids, permission);
    assert ScopedPermission(prefix, ids, resource, action) ==
           prefix + Join(BaseIdStrings(ids), '-') + "/" + permission;
    ResourceMethodOf(resource, action);
  }

  lemma StepGlobal(m: BaseIdMap, resource: string, action: string)
    requires Free(resource, '/') && Free(resource, ':') && Free(action, '/') && Free(action, ':')
    ensures Step(m, resource + ":" + action) == Ok(Granted(m, resource, action, AllBases))
  {
    var permission := resource + ":" + action;
    assert Free(permission, '/');
    GrantWithoutSlash(permission);
    ResourceMethodOf(resource, action);
  }

  lemma CompileSingle(raw: string)
    ensures Compile([raw]) == Step(map[], raw)
  {
    assert [raw][..0] == [];
  }

  lemma CompilePair(first: string, second: string)
    requires Compile([first]).Ok?
    ensures Compile([first, second]) == Step(Compile([first]).value, second)
  {
    assert [first, second][..1] == [first];
  }
}
