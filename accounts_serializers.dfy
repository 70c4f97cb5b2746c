/** Input validation for the account endpoints. A request body is a map from
    field name to the text sent; a key that is absent was not sent. Text
    fields behave as DRF's `CharField` with its defaults: surrounding white
    space is stripped, blank is refused unless allowed, and the length limit
    applies to the stripped text. */
module AccountSerializers {
  import opened Base
  import Text
  import opened AccountModels

  type Data = map<string, string>

  /** One field after validation. */
  datatype Field = Absent | Invalid | Given(value: string)

  /** A `CharField` read from the request body. */
  function CharField(data: Data, key: string, required: bool, allowBlank: bool, maxLength: Option<nat>): (f: Field)
    ensures key !in data ==> f == (if required then Invalid else Absent)
    ensures key in data ==> f != Absent
    ensures f.Given? ==>
      && key in data && f.value == Text.Strip(data[key])
      && (allowBlank || f.value != "")
      && (maxLength.Some? ==> |f.value| <= maxLength.value)
    ensures (key in data && (allowBlank || Text.Strip(data[key]) != "")
             && (maxLength.None? || |Text.Strip(data[key])| <= maxLength.value)) ==> f.Given?
  {
    if key !in data then (if required then Invalid else Absent)
    else
      var v := Text.Strip(data[key]);
      if !allowBlank && v == "" then Invalid
      else if maxLength.Some? && |v| > maxLength.value then Invalid
      else Given(v)
  }

  /** A required `EmailField`: a non-blank stripped text the address syntax
      check accepts. */
  function EmailField(env: Env, data: Data, key: string, maxLength: Option<nat>): (f: Field)
    ensures f != Absent
    ensures f.Given? <==> CharField(data, key, true, false, maxLength).Given?
                          && env.isEmail(CharField(data, key, true, false, maxLength).value)
    ensures f.Given? ==> f == CharField(data, key, true, false, maxLength)
  {
    var f := CharField(data, key, true, false, maxLength);
    if f.Given? && env.isEmail(f.value) then f else Invalid
  }

  function AsOption(f: Field): (r: Option<string>)
    requires !f.Invalid?
    ensures r.Some? <==> f.Given?
    ensures f.Given? ==> r.value == f.value
  {
    if f.Given? then Some(f.value) else None
  }

  /** The e-mail column is 254 characters wide; names are 50, the phone 13. */
  const EMAIL_MAX := 254
  const NAME_MAX := 50
  const PHONE_MAX := 13
  /** Verification codes are at most six characters. */
  const CODE_MAX := 6

  /** Validated registration data. */
  datatype Registration = Registration(
    email: string,
    firstName: Option<string>,
    lastName: Option<string>,
    phoneNumber: Option<string>,
    password1: string,
    password2: string)

  /** The field-level checks of the registration serializer, including the
      uniqueness check on the e-mail as given (exact match). */
  function RegistrationFields(users: map<UserId, User>, env: Env, data: Data): (r: Option<Registration>)
    ensures r.Some? ==>
      && r.value.email != "" && |r.value.email| <= EMAIL_MAX && env.isEmail(r.value.email)
      && (forall u :: u in users ==> users[u].email != r.value.email)
      && r.value.password1 != "" && r.value.password2 != ""
      && (r.value.firstName.Some? ==> |r.value.firstName.value| <= NAME_MAX)
      && (r.value.lastName.Some? ==> |r.value.lastName.value| <= NAME_MAX)
      && (r.value.phoneNumber.Some? ==> |r.value.phoneNumber.value| <= PHONE_MAX)
    ensures "email" !in data || "password1" !in data || "password2" !in data ==> r.None?
    ensures var email := EmailField(env, data, "email", Some(EMAIL_MAX));
      r.Some? <==>
        && email.Given? && (forall u :: u in users ==> users[u].email != email.value)
        && !CharField(data, "first_name", false, true, Some(NAME_MAX)).Invalid?
        && !CharField(data, "last_name", false, true, Some(NAME_MAX)).Invalid?
        && !CharField(data, "phone_number", false, true, Some(PHONE_MAX)).Invalid?
        && CharField(data, "password1", true, false, None).Given?
        && CharField(data, "password2", true, false, None).Given?
    ensures r.Some? ==>
      && r.value.email == Text.Strip(data["email"])
      && r.value.password1 == Text.Strip(data["password1"])
      && r.value.password2 == Text.Strip(data["password2"])
      && r.value.firstName == (if "first_name" in data then Some(Text.Strip(data["first_name"])) else None)
      && r.value.lastName == (if "last_name" in data then Some(Text.Strip(data["last_name"])) else None)
      && r.value.phoneNumber == (if "phone_number" in data then Some(Text.Strip(data["phone_number"])) else None)
  {
    var email := EmailField(env, data, "email", Some(EMAIL_MAX));
    var first := CharField(data, "first_name", false, true, Some(NAME_MAX));
    var last := CharField(data, "last_name", false, true, Some(NAME_MAX));
    var phone := CharField(data, "phone_number", false, true, Some(PHONE_MAX));
    var p1 := CharField(data, "password1", true, false, None);
    var p2 := CharField(data, "password2", true, false, None);
    if email.Given? && (forall u :: u in users ==> users[u].email != email.value)
       && !first.Invalid? && !last.Invalid? && !phone.Invalid? && p1.Given? && p2.Given?
    then Some(Registration(email.value, AsOption(first), AsOption(last), AsOption(phone), p1.value, p2.value))
    else None
  }

  /** `CustomUserRegisterSerializer.validate`: the two passwords must agree. */
  function ValidateRegistration(users: map<UserId, User>, env: Env, data: Data): (r: Option<Registration>)
    ensures r.Some? <==> RegistrationFields(users, env, data).Some?
                         && RegistrationFields(users, env, data).value.password1
                            == RegistrationFields(users, env, data).value.password2
    ensures r.Some? ==> r == RegistrationFields(users, env, data)
  {
    var fields := RegistrationFields(users, env, data);
    if fields.Some? && fields.value.password1 != fields.value.password2 then None else fields
  }

  /** `Given(v)` for a key that is present, `None` for one that is not. */
  function Lookup(d: Data, key: string): (r: Option<string>)
    ensures r.Some? <==> key in d
    ensures r.Some? ==> r.value == d[key]
  {
    if key in d then Some(d[key]) else None
  }

  /** The `validated_data` dictionary: every field that was sent, stripped. */
  function ValidatedData(reg: Registration): (d: Data)
    ensures d.Keys >= {"email", "password1", "password2"}
    ensures d["email"] == reg.email && d["password1"] == reg.password1 && d["password2"] == reg.password2
    ensures Lookup(d, "first_name") == reg.firstName && Lookup(d, "last_name") == reg.lastName
    ensures Lookup(d, "phone_number") == reg.phoneNumber
  {
    var base := map["email" := reg.email, "password1" := reg.password1, "password2" := reg.password2];
    var withFirst := if reg.firstName.Some? then base["first_name" := reg.firstName.value] else base;
    var withLast := if reg.lastName.Some? then withFirst["last_name" := reg.lastName.value] else withFirst;
    if reg.phoneNumber.Some? then withLast["phone_number" := reg.phoneNumber.value] else withLast
  }

  /** `CustomUserRegisterSerializer.create`: password2 is popped and
      dropped, password1 is popped and becomes the password, and every other
      field that was sent passes through to `create_user` unchanged. */
  method Create(store: AccountStore, env: Env, validatedData: Data, now: int) returns (result: Created)
    requires store.Valid()
    requires "password1" in validatedData && "password2" in validatedData
    modifies store
    ensures store.Valid()
    ensures store.codes == old(store.codes) && store.follows == old(store.follows)
    ensures store.tokens == old(store.tokens) && store.nextCodeId == old(store.nextCodeId)
    ensures !result.Made? ==> store.users == old(store.users) && store.nextUserId == old(store.nextUserId)
    ensures result == EmailNotSet <==> Lookup(validatedData, "email").GetOr("") == ""
    ensures result == DuplicateEmail <==>
      && Lookup(validatedData, "email").GetOr("") != ""
      && UserWithEmail(old(store.users), env.normalizeEmail(Lookup(validatedData, "email").GetOr(""))).Some?
    ensures result.Made? ==>
      var email := Lookup(validatedData, "email").GetOr("");
      && result.id !in old(store.users) && store.users.Keys == old(store.users).Keys + {result.id}
      && (forall u :: u in old(store.users) ==> store.users[u] == old(store.users)[u])
      && store.users[result.id].email == env.normalizeEmail(email)
      && store.users[result.id].password == env.makePassword(validatedData["password1"])
      && store.users[result.id].firstName == Lookup(validatedData, "first_name").GetOr("")
      && store.users[result.id].lastName == Lookup(validatedData, "last_name").GetOr("")
      && store.users[result.id].phoneNumber == Lookup(validatedData, "phone_number").GetOr("")
      && !store.users[result.id].isStaff && !store.users[result.id].isSuperuser
      && store.users[result.id].isActive
  {
    var rest := validatedData - {"password2"};
    var password := rest["password1"];
    rest := rest - {"password1"};
    var extra := ExtraFields(None, None, None, Lookup(rest, "first_name"), Lookup(rest, "last_name"),
                             Lookup(rest, "phone_number"));
    result := store.CreateUser(env, Lookup(rest, "email").GetOr(""), password, extra, now);
  }

  /** `EmailVerificationSerializer`: an address and a code. */
  function VerificationFields(env: Env, data: Data): (r: Option<(string, string)>)
    ensures r.Some? ==> env.isEmail(r.value.0) && r.value.1 != "" && |r.value.1| <= CODE_MAX
    ensures r.Some? ==> "email" in data && "code" in data && r.value.1 == Text.Strip(data["code"])
    ensures r.Some? <==> EmailField(env, data, "email", None).Given?
                         && CharField(data, "code", true, false, Some(CODE_MAX)).Given?
    ensures r.Some? ==> r.value.0 == Text.Strip(data["email"])
  {
    var email := EmailField(env, data, "email", None);
    var code := CharField(data, "code", true, false, Some(CODE_MAX));
    if email.Given? && code.Given? then Some((email.value, code.value)) else None
  }

  /** `PasswordResetRequestSerializer`: an address. */
  function ResetRequestFields(env: Env, data: Data): (r: Option<string>)
    ensures r.Some? <==> EmailField(env, data, "email", None).Given?
    ensures r.Some? ==> env.isEmail(r.value) && r.value != ""
  {
    var email := EmailField(env, data, "email", None);
    if email.Given? then Some(email.value) else None
  }

  /** Validated password-reset confirmation. */
  datatype ResetConfirm = ResetConfirm(email: string, code: string, password1: string, password2: string)

  /** `PasswordResetConfirmSerializer` with its `validate`: address, code of
      at most six characters, and two equal non-blank passwords. */
  function ResetConfirmFields(env: Env, data: Data): (r: Option<ResetConfirm>)
    ensures r.Some? ==> r.value.password1 == r.value.password2 && r.value.password1 != ""
    ensures r.Some? ==> env.isEmail(r.value.email) && r.value.code != "" && |r.value.code| <= CODE_MAX
    ensures (VerificationFields(env, data).Some? && CharField(data, "password1", true, false, None).Given?
             && CharField(data, "password2", true, false, None).Given?) ==>
              (r.Some? <==> CharField(data, "password1", true, false, None).value
                            == CharField(data, "password2", true, false, None).value)
    ensures r.Some? ==>
      && VerificationFields(env, data).Some?
      && CharField(data, "password1", true, false, None).Given?
      && CharField(data, "password2", true, false, None).Given?
      && (r.value.email, r.value.code) == VerificationFields(env, data).value
      && r.value.password1 == Text.Strip(data["password1"])
  {
    var fields := VerificationFields(env, data);
    var p1 := CharField(data, "password1", true, false, None);
    var p2 := CharField(data, "password2", true, false, None);
    if fields.Some? && p1.Given? && p2.Given? && p1.value == p2.value then
      Some(ResetConfirm(fields.value.0, fields.value.1, p1.value, p2.value))
    else None
  }

  /** A partial update through the profile serializer: the writable fields
      that were sent replace the stored ones; id, e-mail, activity, join date
      and every other column stay as they are. None is a 400. */
  function ApplyProfilePatch(u: User, data: Data): (r: Option<User>)
    ensures r.Some? ==>
      && r.value.id == u.id && r.value.email == u.email && r.value.isActive == u.isActive
      && r.value.dateJoined == u.dateJoined && r.value.password == u.password && r.value.role == u.role
      && r.value.isStaff == u.isStaff && r.value.isSuperuser == u.isSuperuser
    ensures r.Some? ==>
      && r.value.firstName == (if "first_name" in data then Text.Strip(data["first_name"]) else u.firstName)
      && r.value.lastName == (if "last_name" in data then Text.Strip(data["last_name"]) else u.lastName)
      && r.value.phoneNumber == (if "phone_number" in data then Text.Strip(data["phone_number"]) else u.phoneNumber)
      && r.value.bio == (if "bio" in data then Text.Strip(data["bio"]) else u.bio)
    ensures r.None? <==>
      || CharField(data, "first_name", false, true, Some(NAME_MAX)).Invalid?
      || CharField(data, "last_name", false, true, Some(NAME_MAX)).Invalid?
      || CharField(data, "phone_number", false, true, Some(PHONE_MAX)).Invalid?
  {
    var first := CharField(data, "first_name", false, true, Some(NAME_MAX));
    var last := CharField(data, "last_name", false, true, Some(NAME_MAX));
    var phone := CharField(data, "phone_number", false, true, Some(PHONE_MAX));
    var bio := CharField(data, "bio", false, true, None);
    if first.Invalid? || last.Invalid? || phone.Invalid? then None
    else Some(u.(firstName := AsOption(first).GetOr(u.firstName),
                 lastName := AsOption(last).GetOr(u.lastName),
                 phoneNumber := AsOption(phone).GetOr(u.phoneNumber),
                 bio := AsOption(bio).GetOr(u.bio)))
  }
}
