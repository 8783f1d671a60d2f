/** The user and organisation schemas (ethicsgate-app/src/lib/validators/user.ts) as zod
    shapes, with what each one accepts stated field by field. */
module UserValidators {
  import opened Wrappers
  import opened JsonValues
  import opened Domain
  import opened Ascii
  import opened Zod

  const OrganizationNameChecks: seq<Check> := [
    MinLength(2, Some("Organization name must be at least 2 characters")),
    MaxLength(100, None)
  ]

  const SlugChecks: seq<Check> := [
    MinLength(3, Some("Slug must be at least 3 characters")),
    MaxLength(50, None),
    Matches(SlugRegex, Some("Slug can only contain lowercase letters, numbers, and hyphens"))
  ]

  const EmailChecks: seq<Check> := [Matches(Email, Some("Please enter a valid email address"))]

  const SignupPasswordChecks: seq<Check> := [MinLength(8, Some("Password must be at least 8 characters"))]

  const LoginPasswordChecks: seq<Check> := [MinLength(1, Some("Password is required"))]

  const FullNameChecks: seq<Check> := [
    MinLength(2, Some("Full name must be at least 2 characters")),
    MaxLength(100, None)
  ]

  /** The update schema's full name: the same bounds, zod's default messages. */
  const UpdateFullNameChecks: seq<Check> := [MinLength(2, None), MaxLength(100, None)]

  const RoleOptions: seq<string> := ["researcher", "reviewer", "admin"]

  const Signup: Shape := [
    ("organizationName", Str(OrganizationNameChecks)),
    ("organizationSlug", Str(SlugChecks)),
    ("email", Str(EmailChecks)),
    ("password", Str(SignupPasswordChecks)),
    ("fullName", Str(FullNameChecks))
  ]

  const Login: Shape := [
    ("email", Str(EmailChecks)),
    ("password", Str(LoginPasswordChecks))
  ]

  const InviteUser: Shape := [
    ("email", Str(EmailChecks)),
    ("role", Enum(RoleOptions)),
    ("fullName", Str(FullNameChecks))
  ]

  const UpdateUser: Shape := [
    ("fullName", Optional(Str(UpdateFullNameChecks))),
    ("role", Optional(Enum(RoleOptions))),
    ("avatar_url", Optional(Nullable(Str([Matches(Url, None)]))))
  ]

  predicate ValidSlug(s: string)
  {
    3 <= |s| <= 50 && forall i :: 0 <= i < |s| ==> SlugChar(s[i])
  }

  /** An organisation slug is admitted exactly when it has 3 to 50 characters, each a
      lower-case ASCII letter, a digit or a hyphen. */
  lemma SlugAdmitsIff(rec: Recognisers, s: string)
    ensures Admits(rec, Str(SlugChecks), Some(JString(s))) <==> ValidSlug(s)
  {
    assert AllChecksHold(rec, SlugChecks, s) <==>
      CheckHolds(rec, SlugChecks[0], s) && CheckHolds(rec, SlugChecks[1], s) && CheckHolds(rec, SlugChecks[2], s);
  }

  /** A slug the schema admits contains no upper-case letter, so lower-casing it changes nothing. */
  lemma AdmittedSlugIsLowercase(rec: Recognisers, s: string)
    requires Admits(rec, Str(SlugChecks), Some(JString(s)))
    ensures Lower(s) == s
  {
    SlugAdmitsIff(rec, s);
    LowerIdentityIff(s);
  }

  /** "My-Org" fails only the character-class rule, with its custom message. */
  lemma UppercaseSlugIssues(rec: Recognisers)
    ensures FieldIssues(rec, [Key("organizationSlug")], Str(SlugChecks), Some(JString("My-Org")))
            == [Issue([Key("organizationSlug")], InvalidString(SlugRegex),
                      Some("Slug can only contain lowercase letters, numbers, and hyphens"))]
  {
    var path := [Key("organizationSlug")];
    var s := "My-Org";
    assert !SlugChar(s[0]);
    assert SlugChecks[1..][1..] == [SlugChecks[2]];
    assert [SlugChecks[2]][1..] == [];
    assert CheckIssues(rec, path, [SlugChecks[2]], s) == [CheckIssue(path, SlugChecks[2])];
    assert CheckIssues(rec, path, SlugChecks[1..], s) == [CheckIssue(path, SlugChecks[2])];
  }

  lemma OrganizationNameAdmitsIff(rec: Recognisers, s: string)
    ensures Admits(rec, Str(OrganizationNameChecks), Some(JString(s))) <==> 2 <= |s| <= 100
  {
    assert AllChecksHold(rec, OrganizationNameChecks, s) <==>
      CheckHolds(rec, OrganizationNameChecks[0], s) && CheckHolds(rec, OrganizationNameChecks[1], s);
  }

  /** The signup password has a minimum of 8 characters and no maximum. */
  lemma SignupPasswordAdmitsIff(rec: Recognisers, s: string)
    ensures Admits(rec, Str(SignupPasswordChecks), Some(JString(s))) <==> |s| >= 8
  {
    assert AllChecksHold(rec, SignupPasswordChecks, s) <==> CheckHolds(rec, SignupPasswordChecks[0], s);
  }

  /** Every password the signup form accepts also passes the login form's "required" rule. */
  lemma SignupPasswordPassesLogin(rec: Recognisers, v: Option<Json>)
    requires Admits(rec, Str(SignupPasswordChecks), v)
    ensures Admits(rec, Str(LoginPasswordChecks), v)
  {
    SignupPasswordAdmitsIff(rec, v.value.s);
    assert AllChecksHold(rec, LoginPasswordChecks, v.value.s) <==> CheckHolds(rec, LoginPasswordChecks[0], v.value.s);
  }

  /** Signup, invite and update (when the name is present) admit the same full names:
      those of 2 to 100 characters. */
  lemma FullNameSameBounds(rec: Recognisers, s: string)
    ensures Admits(rec, Str(FullNameChecks), Some(JString(s))) <==> 2 <= |s| <= 100
    ensures Admits(rec, Optional(Str(UpdateFullNameChecks)), Some(JString(s))) <==> 2 <= |s| <= 100
  {
    assert AllChecksHold(rec, FullNameChecks, s) <==>
      CheckHolds(rec, FullNameChecks[0], s) && CheckHolds(rec, FullNameChecks[1], s);
    assert AllChecksHold(rec, UpdateFullNameChecks, s) <==>
      CheckHolds(rec, UpdateFullNameChecks[0], s) && CheckHolds(rec, UpdateFullNameChecks[1], s);
  }

  /** The role enum of invite and update is exactly the set of `UserRole` wire names. */
  lemma RoleOptionsAreRoles(s: string)
    ensures s in RoleOptions <==> ParseRole(s).Some?
  {
  }

  lemma RoleAdmitsIff(rec: Recognisers, v: Option<Json>)
    ensures Admits(rec, Enum(RoleOptions), v) <==> v.Some? && v.value.JString? && ParseRole(v.value.s).Some?
  {
    if v.Some? && v.value.JString? { RoleOptionsAreRoles(v.value.s); }
  }

  predicate EmailOk(rec: Recognisers, v: Option<Json>)
  {
    v.Some? && v.value.JString? && rec.isEmail(v.value.s)
  }

  lemma EmailAdmitsIff(rec: Recognisers, v: Option<Json>)
    ensures Admits(rec, Str(EmailChecks), v) <==> EmailOk(rec, v)
  {
    if v.Some? && v.value.JString? {
      assert AllChecksHold(rec, EmailChecks, v.value.s) <==> CheckHolds(rec, EmailChecks[0], v.value.s);
    }
  }

  /** `signupSchema`, property by property. */
  predicate SignupOk(rec: Recognisers, fields: map<string, Json>)
  {
    var name := Lookup(fields, "organizationName");
    var slug := Lookup(fields, "organizationSlug");
    var password := Lookup(fields, "password");
    var fullName := Lookup(fields, "fullName");
    && name.Some? && name.value.JString? && 2 <= |name.value.s| <= 100
    && slug.Some? && slug.value.JString? && ValidSlug(slug.value.s)
    && EmailOk(rec, Lookup(fields, "email"))
    && password.Some? && password.value.JString? && |password.value.s| >= 8
    && fullName.Some? && fullName.value.JString? && 2 <= |fullName.value.s| <= 100
  }

  /** The signup shape admits the fields when each of its five properties is admitted. */
  lemma SignupShapeExpansion(rec: Recognisers, fields: map<string, Json>)
    ensures ShapeAdmits(rec, Signup, fields) <==>
      && Admits(rec, Str(OrganizationNameChecks), Lookup(fields, "organizationName"))
      && Admits(rec, Str(SlugChecks), Lookup(fields, "organizationSlug"))
      && Admits(rec, Str(EmailChecks), Lookup(fields, "email"))
      && Admits(rec, Str(SignupPasswordChecks), Lookup(fields, "password"))
      && Admits(rec, Str(FullNameChecks), Lookup(fields, "fullName"))
  {
    assert Signup[0] == ("organizationName", Str(OrganizationNameChecks));
    assert Signup[1] == ("organizationSlug", Str(SlugChecks));
    assert Signup[2] == ("email", Str(EmailChecks));
    assert Signup[3] == ("password", Str(SignupPasswordChecks));
    assert Signup[4] == ("fullName", Str(FullNameChecks));
  }

  lemma StringAdmitsIff(rec: Recognisers, checks: seq<Check>, v: Option<Json>)
    ensures Admits(rec, Str(checks), v) <==> v.Some? && v.value.JString? && AllChecksHold(rec, checks, v.value.s)
  {
  }

  lemma SignupShapeAdmitsIff(rec: Recognisers, fields: map<string, Json>)
    ensures ShapeAdmits(rec, Signup, fields) <==> SignupOk(rec, fields)
  {
    SignupShapeExpansion(rec, fields);
    var name := Lookup(fields, "organizationName");
    var slug := Lookup(fields, "organizationSlug");
    var password := Lookup(fields, "password");
    var fullName := Lookup(fields, "fullName");
    StringAdmitsIff(rec, OrganizationNameChecks, name);
    StringAdmitsIff(rec, SlugChecks, slug);
    StringAdmitsIff(rec, SignupPasswordChecks, password);
    StringAdmitsIff(rec, FullNameChecks, fullName);
    if name.Some? && name.value.JString? { OrganizationNameAdmitsIff(rec, name.value.s); }
    if slug.Some? && slug.value.JString? { SlugAdmitsIff(rec, slug.value.s); }
    EmailAdmitsIff(rec, Lookup(fields, "email"));
    if password.Some? && password.value.JString? { SignupPasswordAdmitsIff(rec, password.value.s); }
    if fullName.Some? && fullName.value.JString? { FullNameSameBounds(rec, fullName.value.s); }
  }

  lemma SignupAcceptsIff(rec: Recognisers, input: Json)
    ensures Accepts(rec, Signup, input) <==> input.JObject? && SignupOk(rec, input.fields)
  {
    AcceptsIff(rec, Signup, input);
    if input.JObject? { SignupShapeAdmitsIff(rec, input.fields); }
  }

  predicate LoginOk(rec: Recognisers, fields: map<string, Json>)
  {
    var password := Lookup(fields, "password");
    EmailOk(rec, Lookup(fields, "email")) && password.Some? && password.value.JString? && |password.value.s| >= 1
  }

  lemma LoginShapeAdmitsIff(rec: Recognisers, fields: map<string, Json>)
    ensures ShapeAdmits(rec, Login, fields) <==> LoginOk(rec, fields)
  {
    EmailAdmitsIff(rec, Lookup(fields, "email"));
    var password := Lookup(fields, "password");
    StringAdmitsIff(rec, LoginPasswordChecks, password);
    if password.Some? && password.value.JString? {
      assert AllChecksHold(rec, LoginPasswordChecks, password.value.s)
         <==> CheckHolds(rec, LoginPasswordChecks[0], password.value.s);
    }
    assert Login[0] == ("email", Str(EmailChecks));
    assert Login[1] == ("password", Str(LoginPasswordChecks));
  }

  /** `loginSchema` accepts exactly a valid email and a non-empty password. */
  lemma LoginAcceptsIff(rec: Recognisers, input: Json)
    ensures Accepts(rec, Login, input) <==> input.JObject? && LoginOk(rec, input.fields)
  {
    AcceptsIff(rec, Login, input);
    if input.JObject? { LoginShapeAdmitsIff(rec, input.fields); }
  }

  predicate InviteOk(rec: Recognisers, fields: map<string, Json>)
  {
    var role := Lookup(fields, "role");
    var fullName := Lookup(fields, "fullName");
    && EmailOk(rec, Lookup(fields, "email"))
    && role.Some? && role.value.JString? && ParseRole(role.value.s).Some?
    && fullName.Some? && fullName.value.JString? && 2 <= |fullName.value.s| <= 100
  }

  lemma InviteShapeAdmitsIff(rec: Recognisers, fields: map<string, Json>)
    ensures ShapeAdmits(rec, InviteUser, fields) <==> InviteOk(rec, fields)
  {
    EmailAdmitsIff(rec, Lookup(fields, "email"));
    RoleAdmitsIff(rec, Lookup(fields, "role"));
    var fullName := Lookup(fields, "fullName");
    StringAdmitsIff(rec, FullNameChecks, fullName);
    if fullName.Some? && fullName.value.JString? { FullNameSameBounds(rec, fullName.value.s); }
    assert InviteUser[0] == ("email", Str(EmailChecks));
    assert InviteUser[1] == ("role", Enum(RoleOptions));
    assert InviteUser[2] == ("fullName", Str(FullNameChecks));
  }

  /** `inviteUserSchema` accepts exactly a valid email, a `UserRole` name and a 2..100-character full name. */
  lemma InviteAcceptsIff(rec: Recognisers, input: Json)
    ensures Accepts(rec, InviteUser, input) <==> input.JObject? && InviteOk(rec, input.fields)
  {
    AcceptsIff(rec, InviteUser, input);
    if input.JObject? { InviteShapeAdmitsIff(rec, input.fields); }
  }

  /** `updateUserSchema`, property by property: each may be absent; a present avatar URL
      may also be `null`. */
  predicate UpdateUserOk(rec: Recognisers, fields: map<string, Json>)
  {
    var fullName := Lookup(fields, "fullName");
    var role := Lookup(fields, "role");
    var avatar := Lookup(fields, "avatar_url");
    && (fullName.None? || (fullName.value.JString? && 2 <= |fullName.value.s| <= 100))
    && (role.None? || (role.value.JString? && ParseRole(role.value.s).Some?))
    && (avatar.None? || avatar.value.JNull? || (avatar.value.JString? && rec.isUrl(avatar.value.s)))
  }

  lemma UpdateFullNameAdmitsIff(rec: Recognisers, v: Option<Json>)
    ensures Admits(rec, Optional(Str(UpdateFullNameChecks)), v)
            <==> v.None? || (v.value.JString? && 2 <= |v.value.s| <= 100)
  {
    if v.Some? && v.value.JString? { FullNameSameBounds(rec, v.value.s); }
  }

  lemma AvatarAdmitsIff(rec: Recognisers, v: Option<Json>)
    ensures Admits(rec, Optional(Nullable(Str([Matches(Url, None)]))), v)
            <==> v.None? || v.value.JNull? || (v.value.JString? && rec.isUrl(v.value.s))
  {
    if v.Some? && v.value.JString? {
      assert [Matches(Url, None)][0] == Matches(Url, None);
    }
  }

  lemma UpdateUserShapeAdmitsIff(rec: Recognisers, fields: map<string, Json>)
    ensures ShapeAdmits(rec, UpdateUser, fields) <==> UpdateUserOk(rec, fields)
  {
    UpdateFullNameAdmitsIff(rec, Lookup(fields, "fullName"));
    RoleAdmitsIff(rec, Lookup(fields, "role"));
    AvatarAdmitsIff(rec, Lookup(fields, "avatar_url"));
    assert UpdateUser[0] == ("fullName", Optional(Str(UpdateFullNameChecks)));
    assert UpdateUser[1] == ("role", Optional(Enum(RoleOptions)));
    assert UpdateUser[2] == ("avatar_url", Optional(Nullable(Str([Matches(Url, None)]))));
  }

  lemma UpdateUserAcceptsIff(rec: Recognisers, input: Json)
    ensures Accepts(rec, UpdateUser, input) <==> input.JObject? && UpdateUserOk(rec, input.fields)
  {
    AcceptsIff(rec, UpdateUser, input);
    if input.JObject? { UpdateUserShapeAdmitsIff(rec, input.fields); }
  }

  /** The empty update object is accepted: every property is optional. */
  lemma EmptyUserUpdateAccepted(rec: Recognisers)
    ensures Accepts(rec, UpdateUser, JObject(map[]))
  {
    UpdateUserAcceptsIff(rec, JObject(map[]));
  }
}
