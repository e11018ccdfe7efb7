/** Concrete token payloads, and the users `from_jwt` builds from them. */
module UserExamples {
  import opened Wrappers
  import opened PyStrings
  import opened Permissions
  import opened CurrentUsers
  import PermissionExamples

  /** Helper: the literal subject `auth0|8` spelled as prefix and number. */
  lemma SubjectSpelling(sub: string)
    requires sub == "auth0|8"
    ensures sub == SubjectPrefix + IntToString(8)
  {
  }

  /** A payload granting read access to products of base 1, for subject `auth0|8` of
      organisation 1, and the god payload for the same subject. */
  lemma FromJwtExamples(raw: string, sub: string)
    requires raw == "base_1/product:read" && sub == "auth0|8"
    ensures FromJwtSpec(Claims([raw], 1, sub)) == Ok(UserView(8, Some(1), false, map["product:read" := Bases([1])]))
    ensures FromJwtSpec(Claims(GodMarker, 1, sub)) == Ok(UserView(8, None, true, map[]))
  {
    SubjectSpelling(sub);
    SubjectRoundTrip(8);
    PermissionExamples.ScopedReadExample(raw);
    assert [raw] != GodMarker by {
      assert raw[0] != GodMarker[0][0];
    }
  }
}
