/** The account endpoints: registration, login and logout, the user
    listings, the follow graph, e-mail verification, password reset and the
    own-profile update. Each view is a method over the account tables that
    returns the HTTP status it answers with. Permission classes run before a
    view; the views that need an authenticated requester receive it as `me`. */
module AccountViews {
  import opened Base
  import Text
  import opened AccountModels
  import opened AccountUtils
  import opened AccountSerializers

  /** `Token.objects.get_or_create(user=...)`: keep an existing key, otherwise
      store a freshly generated one. */
  function TokenFor(tokens: map<UserId, string>, user: UserId, freshKey: string): (r: map<UserId, string>)
    ensures user in r && r.Keys == tokens.Keys + {user}
    ensures user in tokens ==> r == tokens
    ensures user !in tokens ==> r[user] == freshKey
    ensures forall u :: u in tokens ==> r[u] == tokens[u]
  {
    if user in tokens then tokens else tokens[user := freshKey]
  }

  /** `Token.objects.get_or_create(user=...)` on the token table; returns the
      user's key. */
  method GetOrCreateToken(store: AccountStore, user: UserId, freshKey: string) returns (key: string)
    requires store.Valid() && user in store.users
    modifies store
    ensures store.Valid()
    ensures store.tokens == TokenFor(old(store.tokens), user, freshKey) && key == store.tokens[user]
    ensures store.users == old(store.users) && store.nextUserId == old(store.nextUserId)
    ensures store.codes == old(store.codes) && store.nextCodeId == old(store.nextCodeId)
    ensures store.follows == old(store.follows)
  {
    store.tokens := TokenFor(store.tokens, user, freshKey);
    key := store.tokens[user];
  }

  /** The user-creating half of registration: `serializer.save()` and then
      `is_active = False`. */
  method CreateInactive(store: AccountStore, env: Env, reg: Registration, now: int) returns (result: Created)
    requires store.Valid() && reg.email != ""
    modifies store
    ensures store.Valid()
    ensures store.codes == old(store.codes) && store.nextCodeId == old(store.nextCodeId)
    ensures store.follows == old(store.follows) && store.tokens == old(store.tokens)
    ensures result.Made? || result == DuplicateEmail
    ensures result == DuplicateEmail <==> UserWithEmail(old(store.users), env.normalizeEmail(reg.email)).Some?
    ensures !result.Made? ==> store.users == old(store.users)
    ensures result.Made? ==>
      && result.id !in old(store.users) && store.users.Keys == old(store.users).Keys + {result.id}
      && (forall u :: u in old(store.users) ==> store.users[u] == old(store.users)[u])
      && !store.users[result.id].isActive
      && store.users[result.id].email == env.normalizeEmail(reg.email)
      && store.users[result.id].password == env.makePassword(reg.password1)
      && store.users[result.id].firstName == reg.firstName.GetOr("")
      && store.users[result.id].lastName == reg.lastName.GetOr("")
      && store.users[result.id].phoneNumber == reg.phoneNumber.GetOr("")
      && !store.users[result.id].isStaff && !store.users[result.id].isSuperuser
  {
    var validatedData := ValidatedData(reg);
    assert Lookup(validatedData, "email").GetOr("") == reg.email;
    result := Create(store, env, validatedData, now);
    if result.Made? {
      store.SaveUser(result.id, store.users[result.id].(isActive := false));
    }
  }

  /** Registration: 400 on invalid input; 500 when the normalised address
      collides with a stored one (the uniqueness check compares the address
      as sent); otherwise a new inactive user, an auth token and a
      'register' code mailed to the user, with 201. */
  method Register(store: AccountStore, env: Env, data: Data, now: int, draw: nat, freshKey: string)
    returns (status: int, created: Option<UserId>, mail: Option<Mail>)
    requires store.Valid()
    requires 100000 <= draw <= 999999
    modifies store
    ensures store.Valid()
    ensures status == BAD_REQUEST || status == SERVER_ERROR || status == CREATED
    ensures status == BAD_REQUEST <==> ValidateRegistration(old(store.users), env, data).None?
    ensures status == SERVER_ERROR <==>
      && ValidateRegistration(old(store.users), env, data).Some?
      && UserWithEmail(old(store.users), env.normalizeEmail(ValidateRegistration(old(store.users), env, data).value.email)).Some?
    ensures status != CREATED ==>
      && created.None? && mail.None?
      && store.users == old(store.users) && store.codes == old(store.codes)
      && store.follows == old(store.follows) && store.tokens == old(store.tokens)
    ensures status == CREATED ==>
      && created.Some? && created.value !in old(store.users)
      && store.users.Keys == old(store.users).Keys + {created.value}
      && (forall u :: u in old(store.users) ==> store.users[u] == old(store.users)[u])
      && var reg := ValidateRegistration(old(store.users), env, data).value;
      && var u := store.users[created.value];
      && !u.isActive && !u.isStaff && !u.isSuperuser
      && u.email == env.normalizeEmail(reg.email)
      && u.password == env.makePassword(reg.password1)
      && u.firstName == reg.firstName.GetOr("") && u.lastName == reg.lastName.GetOr("")
      && u.phoneNumber == reg.phoneNumber.GetOr("")
      && store.codes == old(store.codes) + [VerificationCode(old(store.nextCodeId), created.value,
                          Text.NatToString(draw), PURPOSE_REGISTER, now, now + CODE_LIFETIME, false)]
      && store.tokens == old(store.tokens)[created.value := freshKey]
      && store.follows == old(store.follows)
      && mail == Some(Mail(store.users[created.value].email, SUBJECT_REGISTER, Message(Text.NatToString(draw))))
  {
    var reg := ValidateRegistration(store.users, env, data);
    if reg.None? {
      return BAD_REQUEST, None, None;
    }
    var result := CreateInactive(store, env, reg.value, now);
    if !result.Made? {
      return SERVER_ERROR, None, None;
    }
    var id := result.id;
    assert id !in store.tokens;
    var _ := GetOrCreateToken(store, id, freshKey);
    var m := SendVerificationEmail(store, id, PURPOSE_REGISTER, draw, now);
    return CREATED, Some(id), Some(m);
  }

  /** Login, checked in this order: e-mail and password sent and non-empty
      (else 400), credentials accepted (else 401), account active (else 403);
      then the user's token, created if need be, with 200. `authenticated` is
      the user the authentication backend returned for the credentials. */
  method Login(store: AccountStore, data: Data, authenticated: Option<UserId>, freshKey: string)
    returns (status: int, token: Option<string>)
    requires store.Valid()
    requires authenticated.Some? ==> authenticated.value in store.users
    modifies store
    ensures store.Valid()
    ensures store.users == old(store.users) && store.codes == old(store.codes) && store.follows == old(store.follows)
    ensures Lookup(data, "email").GetOr("") == "" || Lookup(data, "password").GetOr("") == "" ==>
              status == BAD_REQUEST
    ensures status == UNAUTHORIZED <==>
              Lookup(data, "email").GetOr("") != "" && Lookup(data, "password").GetOr("") != ""
              && authenticated.None?
    ensures status == FORBIDDEN <==>
              Lookup(data, "email").GetOr("") != "" && Lookup(data, "password").GetOr("") != ""
              && authenticated.Some? && !store.users[authenticated.value].isActive
    ensures status == OK <==>
              Lookup(data, "email").GetOr("") != "" && Lookup(data, "password").GetOr("") != ""
              && authenticated.Some? && store.users[authenticated.value].isActive
    ensures status != OK ==> token.None? && store.tokens == old(store.tokens)
    ensures status == OK ==>
              && store.tokens == TokenFor(old(store.tokens), authenticated.value, freshKey)
              && token == Some(store.tokens[authenticated.value])
  {
    var email := Lookup(data, "email");
    var password := Lookup(data, "password");
    if email.GetOr("") == "" || password.GetOr("") == "" {
      return BAD_REQUEST, None;
    }
    if authenticated.None? {
      return UNAUTHORIZED, None;
    }
    var user := authenticated.value;
    if !store.users[user].isActive {
      return FORBIDDEN, None;
    }
    var key := GetOrCreateToken(store, user, freshKey);
    return OK, Some(key);
  }

  /** Logout: the presented token, if the request carried one, is deleted. */
  method Logout(store: AccountStore, presented: Option<UserId>) returns (status: int)
    requires store.Valid()
    modifies store
    ensures store.Valid() && status == OK
    ensures store.users == old(store.users) && store.codes == old(store.codes) && store.follows == old(store.follows)
    ensures presented.None? ==> store.tokens == old(store.tokens)
    ensures presented.Some? ==> store.tokens == old(store.tokens) - {presented.value}
  {
    if presented.Some? {
      store.tokens := store.tokens - {presented.value};
    }
    status := OK;
  }

  /** `UserViewSet.get_queryset`: staff and superusers see every user,
      everyone else only the active ones. */
  function UserQueryset(users: map<UserId, User>, viewer: User): (r: set<UserId>)
    ensures r <= users.Keys
    ensures viewer.isStaff || viewer.isSuperuser ==> r == users.Keys
    ensures !(viewer.isStaff || viewer.isSuperuser) ==>
              forall u :: u in r <==> u in users && users[u].isActive
  {
    if viewer.isStaff || viewer.isSuperuser then users.Keys
    else set u | u in users && users[u].isActive
  }

  /** A user matches a search term when it occurs, ignoring ASCII case, in
      the first name, last name or e-mail. */
  predicate MatchesSearch(u: User, q: string) {
    Text.IContains(u.firstName, q) || Text.IContains(u.lastName, q) || Text.IContains(u.email, q)
  }

  /** `UsersViewSet.get_queryset`: active users, narrowed by a non-empty `q`. */
  function UsersQueryset(users: map<UserId, User>, q: Option<string>): (r: set<UserId>)
    ensures q.None? || q.value == "" ==> forall u :: u in r <==> u in users && users[u].isActive
    ensures q.Some? && q.value != "" ==>
              forall u :: u in r <==> u in users && users[u].isActive && MatchesSearch(users[u], q.value)
  {
    if q.None? || q.value == "" then set u | u in users && users[u].isActive
    else set u | u in users && users[u].isActive && MatchesSearch(users[u], q.value)
  }

  /** Searching for a part of an active user's e-mail, as written, finds them. */
  lemma SearchFindsEmailPart(users: map<UserId, User>, u: UserId, q: string)
    requires u in users && users[u].isActive && q != ""
    requires Text.IsInfix(q, users[u].email)
    ensures u in UsersQueryset(users, Some(q))
  {
    Text.IContainsInfix(users[u].email, q);
  }

  /** `UserViewSet.create`: refused; users are created by registration only. */
  method CreateThroughUsers(store: AccountStore) returns (status: int)
    ensures status == METHOD_NOT_ALLOWED
  {
    status := METHOD_NOT_ALLOWED;
  }

  /** follow: 404 for an unknown user, 400 for oneself, 400 when already
      following, else exactly one new edge and 201. */
  method Follow(store: AccountStore, me: UserId, pk: UserId) returns (status: int)
    requires store.Valid() && me in store.users
    modifies store
    ensures store.Valid()
    ensures store.users == old(store.users) && store.codes == old(store.codes) && store.tokens == old(store.tokens)
    ensures pk !in old(store.users) ==> status == NOT_FOUND
    ensures pk in old(store.users) && pk == me ==> status == BAD_REQUEST
    ensures pk in old(store.users) && pk != me && FollowEdge(me, pk) in old(store.follows) ==> status == BAD_REQUEST
    ensures status == CREATED <==> pk in old(store.users) && pk != me && FollowEdge(me, pk) !in old(store.follows)
    ensures status == CREATED ==> store.follows == old(store.follows) + [FollowEdge(me, pk)]
    ensures status != CREATED ==> store.follows == old(store.follows)
  {
    if pk !in store.users {
      return NOT_FOUND;
    }
    if me == pk {
      return BAD_REQUEST;
    }
    var edge := FollowEdge(me, pk);
    if edge in store.follows {
      return BAD_REQUEST;
    }
    DistinctCons([edge] + store.follows);
    assert NoDuplicateEdges(store.follows + [edge]) by {
      var s := store.follows + [edge];
      forall i, j | 0 <= i < j < |s| ensures s[i] != s[j] {
        if j == |s| - 1 {
          assert s[i] in store.follows;
        }
      }
    }
    store.follows := store.follows + [edge];
    return CREATED;
  }

  /** unfollow: 404 for an unknown user, 400 for oneself, 400 when no edge
      was deleted, else the edge is gone and 200. */
  method Unfollow(store: AccountStore, me: UserId, pk: UserId) returns (status: int)
    requires store.Valid() && me in store.users
    modifies store
    ensures store.Valid()
    ensures store.users == old(store.users) && store.codes == old(store.codes) && store.tokens == old(store.tokens)
    ensures pk !in old(store.users) ==> status == NOT_FOUND
    ensures pk in old(store.users) && pk == me ==> status == BAD_REQUEST
    ensures pk in old(store.users) && pk != me && FollowEdge(me, pk) !in old(store.follows) ==> status == BAD_REQUEST
    ensures status == OK <==> pk in old(store.users) && pk != me && FollowEdge(me, pk) in old(store.follows)
    ensures status == OK ==> store.follows == Without(old(store.follows), FollowEdge(me, pk))
                             && |store.follows| == |old(store.follows)| - 1
    ensures status != OK ==> store.follows == old(store.follows)
  {
    if pk !in store.users {
      return NOT_FOUND;
    }
    if me == pk {
      return BAD_REQUEST;
    }
    var edge := FollowEdge(me, pk);
    var remaining := Without(store.follows, edge);
    var deletedCount := |store.follows| - |remaining|;
    if edge in store.follows {
      WithoutRemovesOne(store.follows, edge);
    }
    forall i | 0 <= i < |remaining|
      ensures remaining[i].follower in store.users && remaining[i].following in store.users
    {
      assert remaining[i] in store.follows;
    }
    store.follows := remaining;
    if deletedCount == 0 {
      return BAD_REQUEST;
    }
    return OK;
  }

  /** `followers(pk)`: 404 for an unknown user, else the users following pk. */
  function Followers(users: map<UserId, User>, follows: seq<FollowEdge>, pk: UserId): (r: Option<seq<UserId>>)
    ensures r.None? <==> pk !in users
    ensures r.Some? ==> forall u :: u in r.value <==> FollowEdge(u, pk) in follows
  {
    if pk !in users then None else Some(FollowersOf(follows, pk))
  }

  /** `following(pk)`: 404 for an unknown user, else the users pk follows. */
  function Following(users: map<UserId, User>, follows: seq<FollowEdge>, pk: UserId): (r: Option<seq<UserId>>)
    ensures r.None? <==> pk !in users
    ensures r.Some? ==> forall u :: u in r.value <==> FollowEdge(pk, u) in follows
  {
    if pk !in users then None else Some(FollowingOf(follows, pk))
  }

  /** How a code confirmation ends. */
  datatype Confirmation =
    | NoSuchUser                     // 404
    | NoCode                         // 400: wrong, used or other-purpose code
    | Expired(row: nat)              // 400: the newest match is past its expiry
    | Accepted(user: UserId, row: nat)

  /** Look the user up by the exact address, pick the newest unused code
      with this value and purpose, and check its expiry. */
  function Confirm(users: map<UserId, User>, codes: seq<VerificationCode>, email: string, code: string,
                   purpose: string, now: int): (r: Confirmation)
    requires UniqueEmails(users)
    ensures r == NoSuchUser <==> UserWithEmail(users, email).None?
    ensures r.Accepted? ==>
      && r.user in users && users[r.user].email == email
      && r.row < |codes| && Matches(codes[r.row], r.user, code, purpose) && !IsExpired(codes[r.row], now)
      && forall i :: 0 <= i < |codes| && Matches(codes[i], r.user, code, purpose) ==>
           codes[i].createdAt <= codes[r.row].createdAt
    ensures r.Expired? ==>
      && UserWithEmail(users, email).Some?
      && r.row < |codes| && Matches(codes[r.row], UserWithEmail(users, email).value, code, purpose)
      && IsExpired(codes[r.row], now)
      && forall i :: 0 <= i < |codes| && Matches(codes[i], UserWithEmail(users, email).value, code, purpose) ==>
           codes[i].createdAt <= codes[r.row].createdAt
    ensures r == NoCode <==>
      && UserWithEmail(users, email).Some?
      && forall i :: 0 <= i < |codes| ==> !Matches(codes[i], UserWithEmail(users, email).value, code, purpose)
    ensures UserWithEmail(users, email).Some? ==>
      var u := UserWithEmail(users, email).value;
      NewestMatch(codes, u, code, purpose).Some? ==>
        && (r.Expired? || r.Accepted?)
        && r.row == NewestMatch(codes, u, code, purpose).value
        && (r.Accepted? <==> !IsExpired(codes[r.row], now))
  {
    match UserWithEmail(users, email)
    case None => NoSuchUser
    case Some(u) =>
      match NewestMatch(codes, u, code, purpose)
      case None => NoCode
      case Some(i) => if IsExpired(codes[i], now) then Expired(i) else Accepted(u, i)
  }

  function ConfirmationStatus(c: Confirmation): int {
    match c
    case NoSuchUser => NOT_FOUND
    case NoCode => BAD_REQUEST
    case Expired(_) => BAD_REQUEST
    case Accepted(_, _) => OK
  }

  /** A code, once accepted, is never accepted again: the same row cannot
      be selected by any later confirmation. */
  lemma AcceptedCodeIsSingleUse(users: map<UserId, User>, codes: seq<VerificationCode>, email: string,
                                code: string, purpose: string, now: int, later: int)
    requires UniqueEmails(users)
    requires Confirm(users, codes, email, code, purpose, now).Accepted?
    ensures var row := Confirm(users, codes, email, code, purpose, now).row;
      var after := codes[row := codes[row].(isUsed := true)];
      !Confirm(users, after, email, code, purpose, later).Accepted? ||
      Confirm(users, after, email, code, purpose, later).row != row
  {
  }

  /** A password reset never consumes a registration code, nor the reverse. */
  lemma PurposesDoNotMix(users: map<UserId, User>, codes: seq<VerificationCode>, email: string,
                         code: string, purpose: string, now: int)
    requires UniqueEmails(users)
    requires Confirm(users, codes, email, code, purpose, now).Accepted?
    ensures codes[Confirm(users, codes, email, code, purpose, now).row].purpose == purpose
  {
  }

  /** E-mail verification: 400 on invalid input, 404 for an unknown address,
      400 without a matching unused 'register' code or when it has expired
      (the code stays unused), else the code is used up, the user becomes
      active, and 200. */
  method VerifyEmail(store: AccountStore, env: Env, data: Data, now: int) returns (status: int)
    requires store.Valid()
    modifies store
    ensures store.Valid()
    ensures store.follows == old(store.follows) && store.tokens == old(store.tokens)
    ensures VerificationFields(env, data).None? ==>
      status == BAD_REQUEST && store.users == old(store.users) && store.codes == old(store.codes)
    ensures VerificationFields(env, data).Some? ==>
      var (email, code) := VerificationFields(env, data).value;
      var c := Confirm(old(store.users), old(store.codes), email, code, PURPOSE_REGISTER, now);
      && status == ConfirmationStatus(c)
      && (!c.Accepted? ==> store.users == old(store.users) && store.codes == old(store.codes))
      && (c.Accepted? ==>
            && store.codes == old(store.codes)[c.row := old(store.codes)[c.row].(isUsed := true)]
            && store.users == old(store.users)[c.user := old(store.users)[c.user].(isActive := true)])
  {
    var fields := VerificationFields(env, data);
    if fields.None? {
      return BAD_REQUEST;
    }
    var (email, code) := fields.value;
    var c := Confirm(store.users, store.codes, email, code, PURPOSE_REGISTER, now);
    if !c.Accepted? {
      return ConfirmationStatus(c);
    }
    store.UseCode(c.row);
    store.SaveUser(c.user, store.users[c.user].(isActive := true));
    status := OK;
  }

  /** Password-reset request: 400 on invalid input, 404 for an unknown
      address, else a 'reset_password' code mailed to the user and 200. */
  method RequestReset(store: AccountStore, env: Env, data: Data, draw: nat, now: int)
    returns (status: int, mail: Option<Mail>)
    requires store.Valid()
    requires 100000 <= draw <= 999999
    modifies store
    ensures store.Valid()
    ensures store.users == old(store.users) && store.follows == old(store.follows) && store.tokens == old(store.tokens)
    ensures ResetRequestFields(env, data).None? ==> status == BAD_REQUEST
    ensures (ResetRequestFields(env, data).Some?
             && UserWithEmail(old(store.users), ResetRequestFields(env, data).value).None?) ==> status == NOT_FOUND
    ensures status != OK ==> store.codes == old(store.codes) && mail.None?
    ensures status == OK <==> ResetRequestFields(env, data).Some?
                              && UserWithEmail(old(store.users), ResetRequestFields(env, data).value).Some?
    ensures status == OK ==>
      var u := UserWithEmail(old(store.users), ResetRequestFields(env, data).value).value;
      && store.codes == old(store.codes) + [VerificationCode(old(store.nextCodeId), u, Text.NatToString(draw),
                                                             PURPOSE_RESET, now, now + CODE_LIFETIME, false)]
      && mail == Some(Mail(store.users[u].email, SUBJECT_RESET, Message(Text.NatToString(draw))))
  {
    var email := ResetRequestFields(env, data);
    if email.None? {
      return BAD_REQUEST, None;
    }
    var owner := UserWithEmail(store.users, email.value);
    if owner.None? {
      return NOT_FOUND, None;
    }
    var m := SendVerificationEmail(store, owner.value, PURPOSE_RESET, draw, now);
    return OK, Some(m);
  }

  /** Password-reset confirmation: as verification, but only a
      'reset_password' code is accepted, and on success the password is
      replaced by the hash of the new one. */
  method ConfirmReset(store: AccountStore, env: Env, data: Data, now: int) returns (status: int)
    requires store.Valid()
    modifies store
    ensures store.Valid()
    ensures store.follows == old(store.follows) && store.tokens == old(store.tokens)
    ensures ResetConfirmFields(env, data).None? ==>
      status == BAD_REQUEST && store.users == old(store.users) && store.codes == old(store.codes)
    ensures ResetConfirmFields(env, data).Some? ==>
      var r := ResetConfirmFields(env, data).value;
      var c := Confirm(old(store.users), old(store.codes), r.email, r.code, PURPOSE_RESET, now);
      && status == ConfirmationStatus(c)
      && (!c.Accepted? ==> store.users == old(store.users) && store.codes == old(store.codes))
      && (c.Accepted? ==>
            && store.codes == old(store.codes)[c.row := old(store.codes)[c.row].(isUsed := true)]
            && store.users == old(store.users)[c.user := old(store.users)[c.user].(password := env.makePassword(r.password1))])
  {
    var fields := ResetConfirmFields(env, data);
    if fields.None? {
      return BAD_REQUEST;
    }
    var r := fields.value;
    var c := Confirm(store.users, store.codes, r.email, r.code, PURPOSE_RESET, now);
    if !c.Accepted? {
      return ConfirmationStatus(c);
    }
    store.UseCode(c.row);
    store.SaveUser(c.user, store.users[c.user].(password := env.makePassword(r.password1)));
    status := OK;
  }

  /** `me` with PATCH: a partial profile update of the requester; 400 when
      a field is invalid. */
  method UpdateMe(store: AccountStore, me: UserId, data: Data) returns (status: int)
    requires store.Valid() && me in store.users
    modifies store
    ensures store.Valid()
    ensures store.codes == old(store.codes) && store.follows == old(store.follows) && store.tokens == old(store.tokens)
    ensures ApplyProfilePatch(old(store.users)[me], data).None? ==>
              status == BAD_REQUEST && store.users == old(store.users)
    ensures ApplyProfilePatch(old(store.users)[me], data).Some? ==>
              status == OK && store.users == old(store.users)[me := ApplyProfilePatch(old(store.users)[me], data).value]
  {
    var patched := ApplyProfilePatch(store.users[me], data);
    if patched.None? {
      return BAD_REQUEST;
    }
    store.SaveUser(me, patched.value);
    status := OK;
  }
}
