/** The worked examples of the `from_jwt` docstring and a few edge cases, each
    proved about the compiler of module Permissions. Every example is split into a
    helper lemma that settles the spelling of its literal strings, which is no
    property of the compiler, and a lemma that compiles them through the general
    results. */
module PermissionExamples {
  import opened Wrappers
  import opened PyStrings
  import opened Permissions

  /** A resource or action name: neither `/` nor `:` occurs in it. */
  predicate PlainName(s: string) {
    Free(s, '/') && Free(s, ':')
  }

  /** `prefix + ids + "/" + resource:action` compiled alone. */
  lemma CompileScopedSingle(prefix: string, ids: seq<nat>, resource: string, action: string)
    requires |prefix| == BasePrefixLength && Free(prefix, '/') && |ids| >= 1
    requires PlainName(resource) && PlainName(action)
    ensures Compile([ScopedPermission(prefix, ids, resource, action)]) ==
      Ok(if action in WriteMethods
         then map[resource + ":" + action := Bases(ids), ReadPermission(resource) := Bases(ids)]
         else map[resource + ":" + action := Bases(ids)])
  {
    StepScoped(map[], prefix, ids, resource, action);
    CompileSingle(ScopedPermission(prefix, ids, resource, action));
  }

  /** `resource:action` compiled alone. */
  lemma CompileGlobalSingle(resource: string, action: string)
    requires PlainName(resource) && PlainName(action)
    ensures Compile([resource + ":" + action]) ==
      Ok(if action in WriteMethods
         then map[resource + ":" + action := AllBases, ReadPermission(resource) := AllBases]
         else map[resource + ":" + action := AllBases])
  {
    StepGlobal(map[], resource, action);
    CompileSingle(resource + ":" + action);
  }

  /** Two write grants of one resource: the second scope replaces the first for both
      keys. */
  lemma CompileScopedPair(prefix: string, ids1: seq<nat>, ids2: seq<nat>, resource: string, action: string)
    requires |prefix| == BasePrefixLength && Free(prefix, '/') && |ids1| >= 1 && |ids2| >= 1
    requires PlainName(resource) && PlainName(action) && action in WriteMethods
    ensures Compile([ScopedPermission(prefix, ids1, resource, action), ScopedPermission(prefix, ids2, resource, action)])
         == Ok(map[resource + ":" + action := Bases(ids2), ReadPermission(resource) := Bases(ids2)])
  {
    var first := ScopedPermission(prefix, ids1, resource, action);
    var second := ScopedPermission(prefix, ids2, resource, action);
    StepScoped(map[], prefix, ids1, resource, action);
    CompileSingle(first);
    StepScoped(Granted(map[], resource, action, Bases(ids1)), prefix, ids2, resource, action);
    CompilePair(first, second);
    var k1, k2 := resource + ":" + action, ReadPermission(resource);
    assert Granted(Granted(map[], resource, action, Bases(ids1)), resource, action, Bases(ids2))
        == map[k1 := Bases(ids2), k2 := Bases(ids2)];
  }

  // ---------------------------------------------------------------------------
  // base_1/product:read

  /** Helper: the literal strings of `ScopedReadExample` as the general lemmas take
      them. */
  lemma ScopedReadSpelling(raw: string, prefix: string, resource: string, action: string)
    requires raw == "base_1/product:read"
    requires prefix == "base_" && resource == "product" && action == "read"
    ensures raw == ScopedPermission(prefix, [1], resource, action)
    ensures |prefix| == BasePrefixLength && Free(prefix, '/') && PlainName(resource) && PlainName(action)
    ensures action !in WriteMethods && resource + ":" + action == "product:read"
  {
    assert Join(BaseIdStrings([1]), '-') == "1";
  }

  /** `base_1/product:read` compiles to `{"product:read": [1]}`. */
  lemma ScopedReadExample(raw: string)
    requires raw == "base_1/product:read"
    ensures Compile([raw]) == Ok(map["product:read" := Bases([1])])
  {
    var prefix, resource, action := "base_", "product", "read";
    ScopedReadSpelling(raw, prefix, resource, action);
    CompileScopedSingle(prefix, [1], resource, action);
  }

  // ---------------------------------------------------------------------------
  // base_2-3/stock:write

  /** Helper: `base_2-3/stock:write` spelled as a scoped permission. */
  lemma ScopedWriteSpelling(raw: string, prefix: string, resource: string, action: string)
    requires raw == "base_2-3/stock:write"
    requires prefix == "base_" && resource == "stock" && action == "write"
    ensures raw == ScopedPermission(prefix, [2, 3], resource, action)
  {
    assert BaseIdStrings([2, 3]) == ["2", "3"];
    assert Join(["2", "3"], '-') == "2-3";
  }

  /** Helper: facts about the names `base_`, `stock` and `write`. */
  lemma StockWriteNames(prefix: string, resource: string, action: string)
    requires prefix == "base_" && resource == "stock" && action == "write"
    ensures |prefix| == BasePrefixLength && Free(prefix, '/') && PlainName(resource) && PlainName(action)
    ensures action in WriteMethods
    ensures resource + ":" + action == "stock:write" && ReadPermission(resource) == "stock:read"
  {
  }

  /** `base_2-3/stock:write` compiles to `{"stock:write": [2, 3], "stock:read": [2, 3]}`. */
  lemma ScopedWriteExample(raw: string)
    requires raw == "base_2-3/stock:write"
    ensures Compile([raw]) == Ok(map["stock:write" := Bases([2, 3]), "stock:read" := Bases([2, 3])])
  {
    var prefix, resource, action := "base_", "stock", "write";
    ScopedWriteSpelling(raw, prefix, resource, action);
    StockWriteNames(prefix, resource, action);
    CompileScopedSingle(prefix, [2, 3], resource, action);
  }

  // ---------------------------------------------------------------------------
  // beneficiary:edit

  /** Helper: the literal strings of `GlobalEditExample` as the general lemmas take
      them. */
  lemma GlobalEditSpelling(raw: string, resource: string, action: string)
    requires raw == "beneficiary:edit" && resource == "beneficiary" && action == "edit"
    ensures raw == resource + ":" + action && ReadPermission(resource) == "beneficiary:read"
    ensures PlainName(resource) && PlainName(action) && action in WriteMethods
  {
  }

  /** `beneficiary:edit` compiles to `{"beneficiary:edit": None, "beneficiary:read": None}`. */
  lemma GlobalEditExample(raw: string)
    requires raw == "beneficiary:edit"
    ensures Compile([raw]) == Ok(map["beneficiary:edit" := AllBases, "beneficiary:read" := AllBases])
  {
    var resource, action := "beneficiary", "edit";
    GlobalEditSpelling(raw, resource, action);
    CompileGlobalSingle(resource, action);
  }

  // ---------------------------------------------------------------------------
  // base_1/product:write followed by base_5/product:write

  /** Helper: the two literal strings of `LastWriteWinsExample` spelled as scoped
      permissions. */
  lemma ProductWriteSpelling(first: string, second: string, prefix: string, resource: string, action: string,
                              one: seq<nat>, five: seq<nat>)
    requires first == "base_1/product:write" && second == "base_5/product:write"
    requires prefix == "base_" && resource == "product" && action == "write" && one == [1] && five == [5]
    ensures first == ScopedPermission(prefix, one, resource, action)
    ensures second == ScopedPermission(prefix, five, resource, action)
  {
    assert Join(BaseIdStrings(one), '-') == "1";
    assert Join(BaseIdStrings(five), '-') == "5";
  }

  /** Helper: facts about the names `base_`, `product` and `write`. */
  lemma ProductWriteNames(prefix: string, resource: string, action: string)
    requires prefix == "base_" && resource == "product" && action == "write"
    ensures |prefix| == BasePrefixLength && Free(prefix, '/') && PlainName(resource) && PlainName(action)
    ensures action in WriteMethods
    ensures resource + ":" + action == "product:write" && ReadPermission(resource) == "product:read"
  {
  }

  /** Two write grants on one resource: the later scope replaces the earlier one for
      both keys; `[1]` and `[5]` are not merged. */
  lemma LastWriteWinsExample(first: string, second: string)
    requires first == "base_1/product:write" && second == "base_5/product:write"
    ensures Compile([first, second]) == Ok(map["product:write" := Bases([5]), "product:read" := Bases([5])])
  {
    var prefix, resource, action := "base_", "product", "write";
    var one, five: seq<nat> := [1], [5];
    ProductWriteNames(prefix, resource, action);
    ProductWriteSpelling(first, second, prefix, resource, action, one, five);
    CompileScopedPair(prefix, one, five, resource, action);
  }

  // ---------------------------------------------------------------------------
  // base_1/p:write followed by base_2/p:read

  /** A write grant followed by a read grant of the same resource: the read key
      takes the second scope and the write key keeps the first. */
  lemma CompileWriteThenRead(prefix: string, ids1: seq<nat>, ids2: seq<nat>, resource: string,
                             write: string, read: string)
    requires |prefix| == BasePrefixLength && Free(prefix, '/') && |ids1| >= 1 && |ids2| >= 1
    requires PlainName(resource) && PlainName(write) && PlainName(read)
    requires write in WriteMethods && read !in WriteMethods && resource + ":" + read == ReadPermission(resource)
    ensures Compile([ScopedPermission(prefix, ids1, resource, write), ScopedPermission(prefix, ids2, resource, read)])
         == Ok(map[resource + ":" + write := Bases(ids1), ReadPermission(resource) := Bases(ids2)])
  {
    var first := ScopedPermission(prefix, ids1, resource, write);
    var second := ScopedPermission(prefix, ids2, resource, read);
    StepScoped(map[], prefix, ids1, resource, write);
    CompileSingle(first);
    var m1 := Granted(map[], resource, write, Bases(ids1));
    StepScoped(m1, prefix, ids2, resource, read);
    CompilePair(first, second);
    var k1, k2 := resource + ":" + write, ReadPermission(resource);
    assert Granted(m1, resource, read, Bases(ids2)) == map[k1 := Bases(ids1), k2 := Bases(ids2)];
  }

  /** Helper: the literal strings of `WriteThenReadExample` as the general lemmas
      take them. */
  lemma WriteThenReadSpelling(first: string, second: string, prefix: string, resource: string,
                              write: string, read: string, one: seq<nat>, two: seq<nat>)
    requires first == "base_1/p:write" && second == "base_2/p:read"
    requires prefix == "base_" && resource == "p" && write == "write" && read == "read"
    requires one == [1] && two == [2]
    ensures first == ScopedPermission(prefix, one, resource, write)
    ensures second == ScopedPermission(prefix, two, resource, read)
  {
    assert Join(BaseIdStrings(one), '-') == "1";
    assert Join(BaseIdStrings(two), '-') == "2";
  }

  /** Helper: facts about the names `base_`, `p`, `write` and `read`. */
  lemma WriteThenReadNames(prefix: string, resource: string, write: string, read: string)
    requires prefix == "base_" && resource == "p" && write == "write" && read == "read"
    ensures |prefix| == BasePrefixLength && Free(prefix, '/')
    ensures PlainName(resource) && PlainName(write) && PlainName(read)
    ensures write in WriteMethods && read !in WriteMethods
    ensures resource + ":" + write == "p:write" && ReadPermission(resource) == "p:read"
    ensures resource + ":" + read == ReadPermission(resource)
  {
  }

  /** A later read grant replaces only the read key: `p:write` keeps `[1]` while
      `p:read` becomes `[2]`, so write-implies-read is about the key being present,
      not about equal scopes. */
  lemma WriteThenReadExample(first: string, second: string)
    requires first == "base_1/p:write" && second == "base_2/p:read"
    ensures Compile([first, second]) == Ok(map["p:write" := Bases([1]), "p:read" := Bases([2])])
  {
    var prefix, resource, write, read := "base_", "p", "write", "read";
    var one, two: seq<nat> := [1], [2];
    WriteThenReadNames(prefix, resource, write, read);
    WriteThenReadSpelling(first, second, prefix, resource, write, read, one, two);
    CompileWriteThenRead(prefix, one, two, resource, write, read);
  }

  // ---------------------------------------------------------------------------
  // Fallbacks and failures

  /** Helper: `base_x/product:read` cut at its slash. */
  lemma NonNumericSpelling(raw: string, prefix: string, rest: string)
    requires raw == "base_x/product:read" && prefix == "base_x" && rest == "product:read"
    ensures raw == prefix + "/" + rest && Free(prefix, '/') && Free(rest, '/')
    ensures DropBasePrefix(prefix) == "x"
  {
  }

  /** A prefix whose ids are not integers makes the whole string a global key. */
  lemma NonNumericPrefixExample(raw: string)
    requires raw == "base_x/product:read"
    ensures ParseGrant(raw) == Grant(raw, AllBases)
  {
    var prefix, rest, x := "base_x", "product:read", "x";
    NonNumericSpelling(raw, prefix, rest);
    GrantWithOneSlash(prefix, rest);
    SplitNone(x, '-');
    ParseIntRejects(x, 0);
  }

  /** Helper: `abcde7/product:read` spelled as a prefix, one id and a permission. */
  lemma UncheckedPrefixSpelling(raw: string, prefix: string, permission: string)
    requires raw == "abcde7/product:read" && prefix == "abcde" && permission == "product:read"
    ensures raw == prefix + Join(BaseIdStrings([7]), '-') + "/" + permission
    ensures |prefix| == BasePrefixLength && Free(prefix, '/') && Free(permission, '/')
  {
    assert Join(BaseIdStrings([7]), '-') == "7";
  }

  /** The prefix text is not checked: `abcde7/product:read` is scoped to base 7. */
  lemma UncheckedPrefixExample(raw: string)
    requires raw == "abcde7/product:read"
    ensures ParseGrant(raw) == Grant("product:read", Bases([7]))
  {
    var prefix, permission := "abcde", "product:read";
    UncheckedPrefixSpelling(raw, prefix, permission);
    ScopedGrantRoundTrip(prefix, [7], permission);
  }

  /** A global permission without a colon makes compilation fail. */
  lemma MalformedExample(raw: string)
    requires raw == "product"
    ensures Compile([raw]) == Err(MalformedPermission(raw))
  {
    GrantWithoutSlash(raw);
    SplitNone(raw, ':');
    CompileSingle(raw);
  }
}
