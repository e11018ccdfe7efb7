# Boxtribute authorization claims engine, in Dafny

This project models the authorization core of the Boxtribute back end
(`back/boxtribute_server/auth.py`). It has three side-effect-free parts that run
one after the other on every request:

1. **Bearer header parsing** (`get_token_from_auth_header`). An optional
   `Authorization` header becomes an access token or a structured authentication
   failure, or, for a non-empty header of only whitespace, an `IndexError`. The header has the form of section 2.1 of RFC 6750, and the scheme is
   compared case-insensitively as section 2.1 of RFC 7235 asks.
2. **Permission compiling** (`CurrentUser.from_jwt`). The custom claims of a
   decoded token become a map from permission name to the bases the permission is
   granted for. Each permission string has the form `[base_X[-Y...]/]resource:method`.
   A `write`, `create` or `edit` grant also grants `resource:read` with the same scope.
   A claim of exactly `["*"]` marks a god user.
3. **The current user** (`CurrentUser`). It is built once and never changed. It
   answers `has_permission` and `authorized_base_ids`, and exposes `id`,
   `organisation_id` and `is_god`.

The project also models the table by which `decode_jwt` turns token-library
exceptions into authentication failures.

Files and modules:

- `wrappers.dfy` (`Wrappers`): `Option` and `Result`.
- `pystrings.dfy` (`PyStrings`): the Python built-ins the module relies on:
  `str.split()`, `str.split(sep)`, `str.lower()`, `str.replace(pat, "")`,
  `int(str)`, and `str(int)` as the inverse of `int`.
- `auth_errors.dfy` (`AuthErrors`): the `AuthenticationFailed` exception. It holds
  a code, a description, an optional message and an HTTP status.
- `bearer_header.dfy` (`BearerHeader`) and `header_examples.dfy` (`HeaderExamples`):
  the header parser and concrete headers.
- `token_decoding.dfy` (`TokenDecoding`): the exception table of `decode_jwt`.
- `permissions.dfy` (`Permissions`) and `permission_examples.dfy`
  (`PermissionExamples`): the permission compiler and its documented examples.
  - `Compile` is the recursive specification. It folds `Step` over the permission
    list, one loop iteration per step.
  - `CompilePermissions` is the loop of `from_jwt`. It updates a local map, one
    assignment per dictionary write of the source, and is proved equal to `Compile`.
- `current_user.dfy` (`CurrentUsers`) and `user_examples.dfy` (`UserExamples`): the
  `CurrentUser` class and `from_jwt`, and concrete payloads.
  - The fields are `const`: the object is fixed at construction.
  - The `id`, `organisation_id` and `is_god` properties are the `const` fields
    `id`, `organisationId` and `isGod`.
  - `FromJwtSpec` is the value-level specification of `from_jwt`.

A map value is `Scope`. `AllBases` stands for Python's `None`, meaning every base.
`Bases(ids)` is the list of base ids, in the order written, with any repeats kept.

Behaviour of `auth.py` that is easy to misread, and that the model keeps:

- A base prefix whose ids are not integers does not fail. The `try` around the
  `/` unpacking and the `int()` calls (auth.py:152-158) catches the `ValueError`.
  The whole raw string then becomes a key with scope `AllBases`.
- The text `base_` is never checked. The first five characters of the prefix are
  dropped unseen, so `abcde7/x:read` is scoped to base 7.
- A write grant overwrites any earlier `resource:read` entry, whatever its scope
  (last write wins). Scopes are never merged.
- A malformed token is reported with the code `invalid_header` (auth.py:100).
  There is no separate code for it.

## Model

| member | source | states |
|---|---|---|
| `BearerHeader.IsBearer` | back/boxtribute_server/auth.py:34 | The scheme test `parts[0].lower() == "bearer"`. Only a six-character scheme passes it. |
| `BearerHeader.GetTokenFromAuthHeader` | back/boxtribute_server/auth.py:19-56 | A token is returned iff the whitespace split has exactly two parts and the first lowers to `bearer`. The token is then the second part: non-empty, with no whitespace. Every authentication failure has status 401. |
| `BearerHeader.BearerTokenRoundTrip` | back/boxtribute_server/auth.py:32-56 | A header made of any-case `bearer`, whitespace and a whitespace-free token yields that token verbatim. Any leading, separating and trailing whitespace is allowed. |
| `BearerHeader.MissingHeader` | back/boxtribute_server/auth.py:23-30 | An absent or empty header fails with `authorization_header_missing` and status 401. |
| `BearerHeader.WhitespaceOnlyHeader` | back/boxtribute_server/auth.py:23-34 | A non-empty header of only whitespace passes the emptiness test. It has no first part, so the result is `IndexError`, not an authentication failure. |
| `BearerHeader.HeaderErrorPrecedence` | back/boxtribute_server/auth.py:34-53 | A wrong scheme is reported whatever the part count. Next comes "Token not found" for one part, then "must be Bearer token" for more than two. All three use code `invalid_header`. |
| `BearerHeader.WrongSchemeHeader` | back/boxtribute_server/auth.py:34-41 | A first part that does not lower to `bearer` is rejected, whatever follows it. |
| `BearerHeader.SchemeOnlyHeader` | back/boxtribute_server/auth.py:42-45 | A bearer scheme alone, with any whitespace around it, fails with "Token not found". |
| `BearerHeader.ExtraPartsHeader` | back/boxtribute_server/auth.py:46-53 | A bearer scheme followed by two or more words fails with "must be Bearer token". |
| `BearerHeader.GetTokenFromAuthHeaderCorrected` | back/boxtribute_server/auth.py:19-56 | The intended parse: every failure has status 401. The token is returned under the same condition as in the source. |
| `BearerHeader.CorrectedAgrees` | back/boxtribute_server/auth.py:19-56 | The corrected parse equals the source wherever the source does not raise `IndexError`. Where it does, the corrected parse reports a missing header. |
| `BearerHeader.SingleSpaceHeader` | back/boxtribute_server/auth.py:23-34 | The header `" "` raises `IndexError` in the source and gets "header missing" from the corrected parse. |
| `HeaderExamples.SchemeOnlyExample` | back/boxtribute_server/auth.py:42-45 | `Bearer` alone fails with "Token not found". |
| `HeaderExamples.ThreePartsExample` | back/boxtribute_server/auth.py:46-53 | `Bearer a b` fails with "must be Bearer token". |
| `HeaderExamples.OtherSchemeExample` | back/boxtribute_server/auth.py:34-41 | `Basic abc` fails with "must start with Bearer". |
| `HeaderExamples.MixedCaseExample` | back/boxtribute_server/auth.py:34-56 | `bEaReR xyz` yields `xyz`. |
| `PyStrings.Lower` | back/boxtribute_server/auth.py:34 | `lower()` keeps the length, maps each upper-case ASCII letter to its lower-case counterpart and keeps every other character. |
| `PyStrings.SplitOn` | back/boxtribute_server/auth.py:153-154 | `split(sep)` always gives at least one part. `SplitJoin` and `JoinSplit` make it the inverse of joining with `sep`. |
| `PyStrings.RemoveAll` | back/boxtribute_server/auth.py:167 | `replace(pat, "")` never lengthens the string. `RemoveAllAbsent` and `RemoveAllLeading` give its value on subjects. |
| `PyStrings.Words` | back/boxtribute_server/auth.py:32 | Every part of `split()` is non-empty and holds no whitespace. |
| `PyStrings.WordsEmptyIff` | back/boxtribute_server/auth.py:32-34 | `split()` returns no parts iff the string is all whitespace, the empty string included. |
| `PyStrings.TwoWords` | back/boxtribute_server/auth.py:32 | `split()` of two whitespace-free words with whitespace around and between them is exactly those two words. |
| `PyStrings.SplitJoin` | back/boxtribute_server/auth.py:153 | Joining the parts of `split(sep)` with `sep` gives back the string. No part holds `sep`, and there is one more part than there are separators. |
| `PyStrings.JoinSplit` | back/boxtribute_server/auth.py:153 | `split(sep)` of separator-free parts joined by `sep` gives back the parts. |
| `PyStrings.ParseInt` | back/boxtribute_server/auth.py:154 | The empty string never parses. A non-empty string of ASCII digits always parses, to a non-negative value. |
| `PyStrings.ParseIntOfString` | back/boxtribute_server/auth.py:167 | `int(str(i)) == i` for every integer. |
| `PyStrings.ParseIntRejects` | back/boxtribute_server/auth.py:154 | A string holding a character that is neither a digit nor a sign never parses. |
| `PyStrings.RemoveAllAbsent` | back/boxtribute_server/auth.py:167 | `replace("auth0\|", "")` leaves a string without the letter `a` unchanged. |
| `PyStrings.RemoveAllLeading` | back/boxtribute_server/auth.py:167 | A leading `auth0\|` is removed. |
| `Permissions.ParseGrant` | back/boxtribute_server/auth.py:152-158 | A string granted for all bases is kept whole. A scoped grant has at least one id, its string holds exactly one `/`, and its permission is the slash-free tail after that `/`. `GrantWithoutSlash`, `GrantWithManySlashes` and `GrantWithOneSlash` give its value case by case. |
| `Permissions.ResourceMethod` | back/boxtribute_server/auth.py:161 | The unpacking into `resource, method` succeeds iff the permission holds exactly one `:`. The two names are then colon-free and joined by `:` give back the permission. |
| `Permissions.Step` | back/boxtribute_server/auth.py:152-163 | One iteration succeeds iff the string is well formed. It then keeps every earlier key and stores the grant's scope under the grant's permission. `StepEffect` gives the whole new map. |
| `Permissions.Compile` | back/boxtribute_server/auth.py:149-163 | A failure names a malformed string of the list. `CompileSucceedsIff`, `CompileFailsAtFirst`, `CompileLastWriteWins` and `CompileWriteImpliesRead` give the rest of its meaning. |
| `Permissions.ParseAll` | back/boxtribute_server/auth.py:154 | The id list exists iff every part is an integer. It then has one id per part, in order. |
| `Permissions.GrantWithoutSlash` | back/boxtribute_server/auth.py:152-158 | A string without `/` is granted, whole, for all bases. |
| `Permissions.GrantWithManySlashes` | back/boxtribute_server/auth.py:152-158 | A string with two or more `/` is granted, whole, for all bases. |
| `Permissions.GrantWithOneSlash` | back/boxtribute_server/auth.py:152-159 | With one `/`: if the prefix, less 5 characters, is a `-`-list of integers, the grant is scoped to those ids. Otherwise the whole string is granted for all bases. |
| `Permissions.BaseIdsRoundTrip` | back/boxtribute_server/auth.py:154 | Any 5 characters, then ids joined by `-`, parse back to exactly those ids. |
| `Permissions.ScopedGrantRoundTrip` | back/boxtribute_server/auth.py:152-159 | Any 5 slash-free characters, base ids, `/` and a slash-free permission yield exactly that permission, scoped to those ids. |
| `Permissions.ResourceMethodOf` | back/boxtribute_server/auth.py:161 | `resource:method` unpacks into its two names when neither holds a colon. |
| `Permissions.CompilePermissions` | back/boxtribute_server/auth.py:149-163 | The in-place loop over the permission list returns exactly `Compile` of the list. That includes the error of the first malformed entry. |
| `Permissions.CompileErrorPersists` | back/boxtribute_server/auth.py:151-161 | Once a prefix of the list fails, the whole list fails with the same error. No partial map survives. |
| `Permissions.CompileSucceedsIff` | back/boxtribute_server/auth.py:151-163 | Compiling succeeds iff every permission string, less its scope, unpacks into `resource:method`. |
| `Permissions.CompileFailsAtFirst` | back/boxtribute_server/auth.py:159-161 | Compiling stops at the first malformed permission string. The model's `MalformedPermission` records that string, less its scope; the source's `ValueError` text names no permission. |
| `Permissions.StepKeepsWriteImpliesRead` | back/boxtribute_server/auth.py:159-163 | One loop iteration keeps the invariant that every write-class key has its `resource:read` key beside it. |
| `Permissions.CompileWriteImpliesRead` | back/boxtribute_server/auth.py:159-163 | In a compiled map, every `r:write`, `r:create` or `r:edit` key has an `r:read` key too. |
| `Permissions.StepEffect` | back/boxtribute_server/auth.py:159-163 | One iteration writes the keys of its string, all with that string's scope, and leaves every other entry unchanged. |
| `Permissions.CompileLastWriteWins` | back/boxtribute_server/auth.py:151-163 | The compiled map holds exactly the keys the strings write. Each key's scope is that of the last string writing it, never a union. |
| `Permissions.StepScoped` | back/boxtribute_server/auth.py:152-163 | One iteration on a well-formed scoped string stores `resource:method`, and for write-class methods `resource:read`, with the listed ids. |
| `Permissions.StepGlobal` | back/boxtribute_server/auth.py:155-163 | One iteration on `resource:method` without `/` stores the same keys for all bases. |
| `PermissionExamples.ScopedReadExample` | back/boxtribute_server/auth.py:141 | `["base_1/product:read"]` compiles to `{"product:read": [1]}`. |
| `PermissionExamples.ScopedWriteExample` | back/boxtribute_server/auth.py:142 | `["base_2-3/stock:write"]` compiles to `{"stock:write": [2, 3], "stock:read": [2, 3]}`. |
| `PermissionExamples.GlobalEditExample` | back/boxtribute_server/auth.py:143 | `["beneficiary:edit"]` compiles to `{"beneficiary:edit": None, "beneficiary:read": None}`. |
| `PermissionExamples.LastWriteWinsExample` | back/boxtribute_server/auth.py:159-163 | `["base_1/product:write", "base_5/product:write"]` ends with `[5]` for both keys. |
| `PermissionExamples.CompileWriteThenRead` | back/boxtribute_server/auth.py:159-163 | A scoped write grant followed by a scoped read grant of one resource leaves the write key with the first ids and the read key with the second. |
| `PermissionExamples.WriteThenReadExample` | back/boxtribute_server/auth.py:159-163 | `["base_1/p:write", "base_2/p:read"]` compiles to `p:write` with `[1]` and `p:read` with `[2]`. Write implies read means the key is present, not that the scopes are equal. |
| `PermissionExamples.NonNumericPrefixExample` | back/boxtribute_server/auth.py:152-158 | `base_x/product:read` is stored whole, with scope all bases. |
| `PermissionExamples.UncheckedPrefixExample` | back/boxtribute_server/auth.py:154 | `abcde7/product:read` is scoped to base 7. The prefix text is not checked. |
| `PermissionExamples.MalformedExample` | back/boxtribute_server/auth.py:161 | `["product"]` fails with a malformed-permission error. |
| `TokenDecoding.DecodeFailureToAuth` | back/boxtribute_server/auth.py:84-113 | Expiry, claims mismatch and other token-library errors answer 401. Any other exception answers 500. Each kind has its own code. Only library errors carry their message. |
| `CurrentUsers.SubjectId` | back/boxtribute_server/auth.py:167 | A subject without the letter `a` is parsed as it stands. `SubjectRoundTrip` gives its value on `auth0\|<n>`. |
| `CurrentUsers.FromJwtSpec` | back/boxtribute_server/auth.py:134-170 | A built user is a god user iff the claim is `["*"]`. A god user has no organisation and an empty map; any other user has the payload's organisation. The user id is the parsed subject. `FromJwtSucceedsIff`, `GodUser` and `OrdinaryUser` give the rest. |
| `CurrentUsers.CurrentUser.constructor` | back/boxtribute_server/auth.py:122-132 | The fields are set once. A god user gets no organisation. A missing or empty `base_ids` gives the empty map. |
| `CurrentUsers.CurrentUser.HasPermission` | back/boxtribute_server/auth.py:172-173 | True exactly when the name is a key of the map. |
| `CurrentUsers.CurrentUser.AuthorizedBaseIds` | back/boxtribute_server/auth.py:175-178 | A god user gets all bases for every name. Otherwise a name gets its stored scope iff `HasPermission` holds, and `PermissionNotGranted` (the `KeyError`) if not. |
| `CurrentUsers.CurrentUser.FromJwt` | back/boxtribute_server/auth.py:134-170 | A new user whose state is `FromJwtSpec` of the payload, or that function's error. No user is built when an error is raised. |
| `CurrentUsers.GodUser` | back/boxtribute_server/auth.py:130-178 | For a `["*"]` payload: `is_god`, no organisation even if the payload has one, and an empty map. `HasPermission` is false and `AuthorizedBaseIds` is all bases, for every name. |
| `CurrentUsers.OrdinaryUser` | back/boxtribute_server/auth.py:148-170 | A user from any other payload has the payload's organisation and exactly the compiled map. Absent names raise `PermissionNotGranted`, and write implies read. |
| `CurrentUsers.FromJwtSucceedsIff` | back/boxtribute_server/auth.py:148-170 | A user is built iff the payload is god or every permission is well formed, and the subject parses. A permission error takes precedence over a subject error. |
| `CurrentUsers.SubjectRoundTrip` | back/boxtribute_server/auth.py:167 | `auth0\|<n>` and `<n>` both give the user id `n`, for every integer `n`. |
| `UserExamples.FromJwtExamples` | back/boxtribute_server/auth.py:141-170 | Subject `auth0\|8` with organisation 1 and `["base_1/product:read"]` gives user 8 of organisation 1 with `{"product:read": [1]}`. With `["*"]` it gives god user 8 with no organisation and no map. |

## Left out

- `decode_jwt`: signature, expiry, audience and issuer checking happen inside the external token library (RS256). Only its exception-to-failure table is modelled, as `TokenDecoding.DecodeFailureToAuth`.
- `get_public_key`: it reads environment variables and fetches the key set over HTTPS.
- `request_jwt`: it makes an outbound network call to the identity provider.
- `requires_auth` and `get_auth_string_from_header`: they are Flask request and `g` globals, `os.environ` reads and decorator plumbing.
- PyStrings.ParseInt: models `int()` as an optional sign followed by ASCII digits. Python also accepts surrounding whitespace, `_` between digits and non-ASCII digits. With those inputs, a base prefix the source parses falls back to all bases in the model, and such a subject is rejected.
- PyStrings.Lower: maps only ASCII letters. This is exact for the one use, comparison with `bearer`: no non-ASCII character lowers to `b`, `e`, `a` or `r`.
- CurrentUsers.Claims: a typed view of the three claims. A missing claim (`KeyError`) and claims of other JSON types are not modelled. The organisation id is taken to be an integer.
- CurrentUsers.CurrentUser.AuthorizedBaseIds: returns the scope as a value. The source hands out its stored list by reference (auth.py:178). That one list object is also stored under both `resource:method` and `resource:read` (auth.py:159, 163), and `__init__` keeps the caller's dictionary rather than a copy (auth.py:132). So a caller that changes the returned list changes both entries of a user meant never to change. The value types `Scope` and `BaseIdMap` cannot express this aliasing.
- CurrentUsers.CurrentUser: the map is a public `const` field, because Dafny has no private members. The source keeps it in an underscore field that is only queried.
- Determinism of `from_jwt` is not a separate lemma. `CurrentUsers.CurrentUser.FromJwt` ties every result to the function `FromJwtSpec`, so two calls on one payload give users with equal state.

## Findings

| source | as written | input that shows it | evidently intended | confidence | as-written member | corrected member |
|---|---|---|---|---|---|---|
| back/boxtribute_server/auth.py:23-34 | A non-empty header of only whitespace passes `if not header_string`. `parts[0]` on the empty split then raises `IndexError`, which is not an `AuthenticationFailed`, so the request gets no 401. | `Authorization: " "` (one space) | The docstring promises status 401 for every parsing error. The header should be reported as missing. | high (not executed) | `BearerHeader.SingleSpaceHeader` | `BearerHeader.GetTokenFromAuthHeaderCorrected` |
