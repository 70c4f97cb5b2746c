/** Users, e-mail verification codes and follow edges, with the user
    manager's creation rules. The three tables and the auth-token table live
    in one `AccountStore`. */
module AccountModels {
  import opened Base
  import Text

  const ROLE_ADMIN := "admin"
  const ROLE_USER := "user"
  const PURPOSE_REGISTER := "register"
  const PURPOSE_RESET := "reset_password"

  /** A row of the user table. A nullable text column holds "" for NULL;
      `password` is the stored hash. */
  datatype User = User(
    id: UserId,
    email: string,
    password: string,
    firstName: string,
    lastName: string,
    phoneNumber: string,
    bio: string,
    role: string,
    isStaff: bool,
    isSuperuser: bool,
    isActive: bool,
    dateJoined: int)

  /** `email.split('@')[0]`. */
  function LocalPart(email: string): (r: string)
    ensures '@' !in r && |r| <= |email| && r == email[..|r|]
    ensures |r| < |email| ==> email[|r|] == '@'
  {
    Text.BeforeFirst(email, '@')
  }

  /** `get_full_name`: both names joined by a space when both are set,
      otherwise the title-cased local part of the e-mail. */
  function FullName(u: User, env: Env): (r: string)
    ensures u.firstName != "" && u.lastName != "" ==>
      && |r| == |u.firstName| + 1 + |u.lastName|
      && r[..|u.firstName|] == u.firstName
      && r[|u.firstName|] == ' '
      && r[|u.firstName| + 1..] == u.lastName
    ensures u.firstName == "" || u.lastName == "" ==> r == env.titleCase(LocalPart(u.email))
  {
    if u.firstName != "" && u.lastName != "" then u.firstName + " " + u.lastName
    else env.titleCase(LocalPart(u.email))
  }

  /** `get_short_name`: the first name, or else the local part of the e-mail. */
  function ShortName(u: User): (r: string)
    ensures u.firstName != "" ==> r == u.firstName
    ensures u.firstName == "" ==> '@' !in r && |r| <= |u.email| && r == u.email[..|r|]
  {
    if u.firstName != "" then u.firstName else LocalPart(u.email)
  }

  datatype VerificationCode = VerificationCode(
    id: nat,
    user: UserId,
    code: string,
    purpose: string,
    createdAt: int,
    expiresAt: int,
    isUsed: bool)

  /** `is_expired`: strictly after the expiry instant. */
  predicate IsExpired(c: VerificationCode, now: int) {
    now > c.expiresAt
  }

  /** Once a code has expired it stays expired. */
  lemma ExpiryIsFinal(c: VerificationCode, now: int, later: int)
    requires IsExpired(c, now) && now <= later
    ensures IsExpired(c, later)
  {
  }

  /** A row of the follow table: `follower` follows `following`. */
  datatype FollowEdge = FollowEdge(follower: UserId, following: UserId)

  /** No element occurs twice. */
  ghost predicate Distinct<T>(s: seq<T>) {
    forall i, j :: 0 <= i < j < |s| ==> s[i] != s[j]
  }

  /** A distinct sequence is its head in front of a distinct tail that
      does not hold the head; and conversely. */
  lemma DistinctCons<T>(s: seq<T>)
    requires s != []
    ensures Distinct(s) <==> Distinct(s[1..]) && s[0] !in s[1..]
  {
    if Distinct(s) {
      forall i, j | 0 <= i < j < |s[1..]| ensures s[1..][i] != s[1..][j] {
        assert s[1..][i] == s[i + 1] && s[1..][j] == s[j + 1];
      }
    }
    if Distinct(s[1..]) && s[0] !in s[1..] {
      forall i, j | 0 <= i < j < |s| ensures s[i] != s[j] {
        if i == 0 {
          assert s[j] == s[1..][j - 1];
        } else {
          assert s[i] == s[1..][i - 1] && s[j] == s[1..][j - 1];
        }
      }
    }
  }

  /** `unique_together = ('follower', 'following')`. */
  ghost predicate NoDuplicateEdges(follows: seq<FollowEdge>) {
    Distinct(follows)
  }

  /** The `**extra_fields` of a manager call; None is a key not passed. */
  datatype ExtraFields = ExtraFields(
    isStaff: Option<bool>,
    isSuperuser: Option<bool>,
    isActive: Option<bool>,
    firstName: Option<string>,
    lastName: Option<string>,
    phoneNumber: Option<string>)

  /** `dict.setdefault`: keep a value that was passed, otherwise store d. */
  function SetDefault<T>(given: Option<T>, d: T): (r: Option<T>)
    ensures r.Some?
    ensures given.Some? ==> r == given
    ensures given.None? ==> r.value == d
  {
    if given.Some? then given else Some(d)
  }

  /** `self.model(email=..., **extra_fields)` with the hashed password and the
      model's defaults for every column not passed. */
  function NewUser(id: UserId, email: string, hash: string, extra: ExtraFields, now: int): (u: User)
    ensures u.id == id && u.email == email && u.password == hash && u.dateJoined == now
    ensures u.role == ROLE_USER && u.bio == ""
    ensures u.isStaff == extra.isStaff.GetOr(false) && u.isSuperuser == extra.isSuperuser.GetOr(false)
    ensures u.isActive == extra.isActive.GetOr(true)
    ensures u.firstName == extra.firstName.GetOr("") && u.lastName == extra.lastName.GetOr("")
    ensures u.phoneNumber == extra.phoneNumber.GetOr("")
  {
    User(id, email, hash, extra.firstName.GetOr(""), extra.lastName.GetOr(""),
         extra.phoneNumber.GetOr(""), "", ROLE_USER,
         extra.isStaff.GetOr(false), extra.isSuperuser.GetOr(false), extra.isActive.GetOr(true), now)
  }

  /** E-mail addresses are unique in the user table. */
  ghost predicate UniqueEmails(users: map<UserId, User>) {
    forall a, b :: a in users && b in users && a != b ==> users[a].email != users[b].email
  }

  /** `CustomUser.objects.get(email=email)`: the one user with exactly this
      address, or None for DoesNotExist. */
  function UserWithEmail(users: map<UserId, User>, email: string): (r: Option<UserId>)
    requires UniqueEmails(users)
    ensures r.None? <==> forall u :: u in users ==> users[u].email != email
    ensures r.Some? ==> r.value in users && users[r.value].email == email
  {
    if exists u :: u in users && users[u].email == email then
      var u :| u in users && users[u].email == email;
      Some(u)
    else None
  }

  /** The outcome of `_create_user`. */
  datatype Created =
    | EmailNotSet        // ValueError: no e-mail given
    | DuplicateEmail     // IntegrityError on the unique e-mail column
    | Made(id: UserId)

  /** The account tables. `tokens` maps a user to the key of their auth token. */
  class AccountStore {
    var users: map<UserId, User>
    var nextUserId: nat
    var codes: seq<VerificationCode>
    var nextCodeId: nat
    var follows: seq<FollowEdge>
    var tokens: map<UserId, string>

    ghost predicate Valid()
      reads this
    {
      && 0 < nextUserId
      && (forall u :: u in users ==> users[u].id == u && 0 < u < nextUserId)
      && UniqueEmails(users)
      && (forall i :: 0 <= i < |codes| ==> codes[i].id < nextCodeId && codes[i].user in users)
      && (forall i, j :: 0 <= i < j < |codes| ==> codes[i].id < codes[j].id)
      && NoDuplicateEdges(follows)
      && (forall i :: 0 <= i < |follows| ==> follows[i].follower in users && follows[i].following in users)
      && (forall u :: u in tokens ==> u in users)
    }

    constructor ()
      ensures Valid()
      ensures users == map[] && codes == [] && follows == [] && tokens == map[]
    {
      users := map[];
      nextUserId := 1;
      codes := [];
      nextCodeId := 1;
      follows := [];
      tokens := map[];
    }

    /** `_create_user`: no e-mail is a ValueError; the address is normalised,
        the password hashed, and the row saved, unless another user already
        has the normalised address. */
    method CreateUserFrom(env: Env, email: string, password: string, extra: ExtraFields, now: int)
      returns (result: Created)
      requires Valid()
      modifies this
      ensures Valid()
      ensures codes == old(codes) && follows == old(follows) && tokens == old(tokens)
      ensures nextCodeId == old(nextCodeId)
      ensures result == EmailNotSet <==> email == ""
      ensures result == DuplicateEmail <==> email != "" && UserWithEmail(old(users), env.normalizeEmail(email)).Some?
      ensures !result.Made? ==> users == old(users) && nextUserId == old(nextUserId)
      ensures result.Made? ==>
        && email != "" && UserWithEmail(old(users), env.normalizeEmail(email)).None?
        && result.id == old(nextUserId) && nextUserId == old(nextUserId) + 1
        && users == old(users)[result.id := NewUser(result.id, env.normalizeEmail(email),
                                                    env.makePassword(password), extra, now)]
    {
      if email == "" {
        return EmailNotSet;
      }
      var normalized := env.normalizeEmail(email);
      if UserWithEmail(users, normalized).Some? {
        return DuplicateEmail;
      }
      var id := nextUserId;
      users := users[id := NewUser(id, normalized, env.makePassword(password), extra, now)];
      nextUserId := nextUserId + 1;
      result := Made(id);
    }

    /** `user.save()` for a row already stored: the row is replaced; its
        id and e-mail stay the same. */
    method SaveUser(u: UserId, row: User)
      requires Valid() && u in users && row.id == u && row.email == users[u].email
      modifies this
      ensures Valid()
      ensures users == old(users)[u := row] && nextUserId == old(nextUserId)
      ensures codes == old(codes) && nextCodeId == old(nextCodeId)
      ensures follows == old(follows) && tokens == old(tokens)
    {
      users := users[u := row];
    }

    /** `verification.is_used = True; verification.save()`. */
    method UseCode(row: nat)
      requires Valid() && row < |codes|
      modifies this
      ensures Valid()
      ensures codes == old(codes)[row := old(codes)[row].(isUsed := true)] && nextCodeId == old(nextCodeId)
      ensures users == old(users) && nextUserId == old(nextUserId)
      ensures follows == old(follows) && tokens == old(tokens)
    {
      codes := codes[row := codes[row].(isUsed := true)];
    }

    /** `create_user`: staff and superuser default to false, active to true. */
    method CreateUser(env: Env, email: string, password: string, extra: ExtraFields, now: int)
      returns (result: Created)
      requires Valid()
      modifies this
      ensures Valid()
      ensures codes == old(codes) && follows == old(follows) && tokens == old(tokens)
      ensures nextCodeId == old(nextCodeId)
      ensures result == EmailNotSet <==> email == ""
      ensures result == DuplicateEmail <==> email != "" && UserWithEmail(old(users), env.normalizeEmail(email)).Some?
      ensures !result.Made? ==> users == old(users) && nextUserId == old(nextUserId)
      ensures result.Made? ==>
        && result.id !in old(users) && users.Keys == old(users).Keys + {result.id}
        && (forall u :: u in old(users) ==> users[u] == old(users)[u])
        && users[result.id].email == env.normalizeEmail(email)
        && users[result.id].isStaff == extra.isStaff.GetOr(false)
        && users[result.id].isSuperuser == extra.isSuperuser.GetOr(false)
        && users[result.id].isActive == extra.isActive.GetOr(true)
        && users[result.id] == NewUser(result.id, env.normalizeEmail(email), env.makePassword(password),
                                       extra.(isStaff := SetDefault(extra.isStaff, false),
                                              isSuperuser := SetDefault(extra.isSuperuser, false),
                                              isActive := SetDefault(extra.isActive, true)), now)
    {
      var withDefaults := extra.(isStaff := SetDefault(extra.isStaff, false),
                                 isSuperuser := SetDefault(extra.isSuperuser, false),
                                 isActive := SetDefault(extra.isActive, true));
      result := CreateUserFrom(env, email, password, withDefaults, now);
    }

    /** `create_superuser`: staff, superuser and active all default to true. */
    method CreateSuperuser(env: Env, email: string, password: string, extra: ExtraFields, now: int)
      returns (result: Created)
      requires Valid()
      modifies this
      ensures Valid()
      ensures codes == old(codes) && follows == old(follows) && tokens == old(tokens)
      ensures nextCodeId == old(nextCodeId)
      ensures result == EmailNotSet <==> email == ""
      ensures result == DuplicateEmail <==> email != "" && UserWithEmail(old(users), env.normalizeEmail(email)).Some?
      ensures !result.Made? ==> users == old(users) && nextUserId == old(nextUserId)
      ensures result.Made? ==>
        && result.id !in old(users) && users.Keys == old(users).Keys + {result.id}
        && (forall u :: u in old(users) ==> users[u] == old(users)[u])
        && users[result.id].email == env.normalizeEmail(email)
        && users[result.id].isStaff == extra.isStaff.GetOr(true)
        && users[result.id].isSuperuser == extra.isSuperuser.GetOr(true)
        && users[result.id].isActive == extra.isActive.GetOr(true)
        && users[result.id] == NewUser(result.id, env.normalizeEmail(email), env.makePassword(password),
                                       extra.(isStaff := SetDefault(extra.isStaff, true),
                                              isSuperuser := SetDefault(extra.isSuperuser, true),
                                              isActive := SetDefault(extra.isActive, true)), now)
    {
      var withDefaults := extra.(isStaff := SetDefault(extra.isStaff, true),
                                 isSuperuser := SetDefault(extra.isSuperuser, true),
                                 isActive := SetDefault(extra.isActive, true));
      result := CreateUserFrom(env, email, password, withDefaults, now);
    }
  }

  /** The codes a confirmation may consume: this user's, this code, this
      purpose, not yet used. */
  predicate Matches(c: VerificationCode, user: UserId, code: string, purpose: string) {
    c.user == user && c.code == code && c.purpose == purpose && !c.isUsed
  }

  /** `filter(...).order_by('-created_at').first()`: the position of the
      newest matching code; among codes created at the same instant, the
      one stored last. */
  function NewestMatch(codes: seq<VerificationCode>, user: UserId, code: string, purpose: string): (r: Option<nat>)
    ensures r.None? <==> forall i :: 0 <= i < |codes| ==> !Matches(codes[i], user, code, purpose)
    ensures r.Some? ==>
      && r.value < |codes| && Matches(codes[r.value], user, code, purpose)
      && forall i :: 0 <= i < |codes| && Matches(codes[i], user, code, purpose) ==>
           codes[i].createdAt <= codes[r.value].createdAt
    decreases |codes|
  {
    if codes == [] then None
    else
      var last := |codes| - 1;
      var earlier := NewestMatch(codes[..last], user, code, purpose);
      if Matches(codes[last], user, code, purpose)
         && (earlier.None? || codes[earlier.value].createdAt <= codes[last].createdAt)
      then Some(last)
      else earlier
  }

  /** `Follow.objects.filter(following=pk)` mapped to the followers, in
      table order. */
  function FollowersOf(follows: seq<FollowEdge>, pk: UserId): (r: seq<UserId>)
    ensures forall u :: u in r <==> FollowEdge(u, pk) in follows
    ensures |r| <= |follows|
  {
    if follows == [] then []
    else
      assert follows == [follows[0]] + follows[1..];
      (if follows[0].following == pk then [follows[0].follower] else []) + FollowersOf(follows[1..], pk)
  }

  /** `Follow.objects.filter(follower=pk)` mapped to the followed users, in
      table order. */
  function FollowingOf(follows: seq<FollowEdge>, pk: UserId): (r: seq<UserId>)
    ensures forall u :: u in r <==> FollowEdge(pk, u) in follows
    ensures |r| <= |follows|
  {
    if follows == [] then []
    else
      assert follows == [follows[0]] + follows[1..];
      (if follows[0].follower == pk then [follows[0].following] else []) + FollowingOf(follows[1..], pk)
  }

  /** Because an edge is stored at most once, nobody is listed twice. */
  lemma {:induction false} FollowersDistinct(follows: seq<FollowEdge>, pk: UserId)
    requires NoDuplicateEdges(follows)
    ensures Distinct(FollowersOf(follows, pk))
  {
    if follows != [] {
      DistinctCons(follows);
      FollowersDistinct(follows[1..], pk);
      var rest := FollowersOf(follows[1..], pk);
      if follows[0].following == pk {
        assert FollowersOf(follows, pk) == [follows[0].follower] + rest;
        DistinctCons([follows[0].follower] + rest);
      } else {
        assert FollowersOf(follows, pk) == rest;
      }
    }
  }

  /** The follow table after `filter(follower=.., following=..).delete()`. */
  function Without(follows: seq<FollowEdge>, e: FollowEdge): (r: seq<FollowEdge>)
    ensures forall x :: x in r <==> x in follows && x != e
    ensures |r| <= |follows|
    ensures e !in follows ==> r == follows
    ensures NoDuplicateEdges(follows) ==> NoDuplicateEdges(r)
  {
    if follows == [] then []
    else
      var rest := Without(follows[1..], e);
      assert follows == [follows[0]] + follows[1..];
      DistinctCons(follows);
      if follows[0] == e then rest
      else
        DistinctCons([follows[0]] + rest);
        [follows[0]] + rest
  }

  /** With each edge stored once, deleting a present edge removes exactly one row. */
  lemma {:induction false} WithoutRemovesOne(follows: seq<FollowEdge>, e: FollowEdge)
    requires NoDuplicateEdges(follows) && e in follows
    ensures |Without(follows, e)| == |follows| - 1
  {
    assert follows == [follows[0]] + follows[1..];
    DistinctCons(follows);
    if follows[0] != e {
      WithoutRemovesOne(follows[1..], e);
    }
  }

  /** Following and then unfollowing restores the table. */
  lemma {:induction false} FollowThenUnfollow(follows: seq<FollowEdge>, e: FollowEdge)
    requires e !in follows
    ensures Without(follows + [e], e) == follows
  {
    if follows == [] {
      assert Without([e], e) == Without([], e);
    } else {
      assert (follows + [e])[1..] == follows[1..] + [e];
      FollowThenUnfollow(follows[1..], e);
      assert follows == [follows[0]] + follows[1..];
    }
  }
}
