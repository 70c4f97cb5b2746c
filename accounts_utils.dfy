/** Issuing e-mail verification codes and composing the message that
    carries them. */
module AccountUtils {
  import opened Base
  import Text
  import opened AccountModels

  /** A code is valid for two minutes (times are in seconds). */
  const CODE_LIFETIME := 120

  const SUBJECT_REGISTER := "Ro'yxatdan o'tishni tasdiqlash"
  const SUBJECT_RESET := "Parolni tiklash uchun tasdiqlash kodi"
  const SUBJECT_OTHER := "Tasdiqlash kodi"

  const BODY_HEAD := "Sizning tasdiqlash kodingiz: "
  const BODY_TAIL := "\nBu kod 2 daqiqa davomida amal qiladi."

  /** An outgoing e-mail; sending it is not part of the model. */
  datatype Mail = Mail(to: string, subject: string, body: string)

  /** The code `str(random.randint(100000, 999999))` has exactly six
      decimal digits, and reading them back gives the number drawn. */
  lemma GeneratedCodeHasSixDigits(draw: nat)
    requires 100000 <= draw <= 999999
    ensures |Text.NatToString(draw)| == 6
    ensures Text.AllDigits(Text.NatToString(draw))
    ensures Text.DigitsValue(Text.NatToString(draw)) == draw
  {
    assert Text.Pow10(5) == 100000 && Text.Pow10(6) == 1000000;
    Text.NatToStringLength(draw, 6);
    Text.DigitsValueOfNatToString(draw);
  }

  /** A code issued at `now` is not expired up to and including
      `now + CODE_LIFETIME`, and is expired at every later instant. */
  lemma FreshCodeLifetime(c: VerificationCode, now: int, t: int)
    requires c.expiresAt == now + CODE_LIFETIME
    ensures IsExpired(c, t) <==> t > now + CODE_LIFETIME
  {
  }

  /** `generate_verification_code`: one new unused code row for the user and
      purpose, expiring two minutes from now. `draw` is the random number. */
  method GenerateVerificationCode(store: AccountStore, user: UserId, purpose: string, draw: nat, now: int)
    returns (c: VerificationCode)
    requires store.Valid() && user in store.users
    requires 100000 <= draw <= 999999
    modifies store
    ensures store.Valid()
    ensures c == VerificationCode(old(store.nextCodeId), user, Text.NatToString(draw), purpose,
                                  now, now + CODE_LIFETIME, false)
    ensures store.codes == old(store.codes) + [c]
    ensures store.nextCodeId == old(store.nextCodeId) + 1
    ensures store.users == old(store.users) && store.nextUserId == old(store.nextUserId)
    ensures store.follows == old(store.follows) && store.tokens == old(store.tokens)
  {
    var code := Text.NatToString(draw);
    var expiresAt := now + CODE_LIFETIME;
    c := VerificationCode(store.nextCodeId, user, code, purpose, now, expiresAt, false);
    store.codes := store.codes + [c];
    store.nextCodeId := store.nextCodeId + 1;
  }

  /** The subject for a purpose: one for registration, one for a password
      reset, and a generic one for anything else. */
  function Subject(purpose: string): (s: string)
    ensures s == SUBJECT_REGISTER <==> purpose == PURPOSE_REGISTER
    ensures s == SUBJECT_RESET <==> purpose == PURPOSE_RESET
    ensures s == SUBJECT_OTHER <==> purpose != PURPOSE_REGISTER && purpose != PURPOSE_RESET
  {
    if purpose == PURPOSE_REGISTER then SUBJECT_REGISTER
    else if purpose == PURPOSE_RESET then SUBJECT_RESET
    else SUBJECT_OTHER
  }

  /** The message body quotes the code. */
  function Message(code: string): (m: string)
    ensures Text.OccursAt(code, m, |BODY_HEAD|)
    ensures Text.IsInfix(code, m)
  {
    var m := BODY_HEAD + code + BODY_TAIL;
    assert m[|BODY_HEAD|..|BODY_HEAD| + |code|] == code;
    assert Text.OccursAt(code, m, |BODY_HEAD|);
    assert 0 <= |BODY_HEAD| <= |m|;
    m
  }

  /** `send_verification_email`: issue a code, then compose the mail to the
      user's address. */
  method SendVerificationEmail(store: AccountStore, user: UserId, purpose: string, draw: nat, now: int)
    returns (mail: Mail)
    requires store.Valid() && user in store.users
    requires 100000 <= draw <= 999999
    modifies store
    ensures store.Valid()
    ensures store.codes == old(store.codes) + [VerificationCode(old(store.nextCodeId), user,
              Text.NatToString(draw), purpose, now, now + CODE_LIFETIME, false)]
    ensures store.nextCodeId == old(store.nextCodeId) + 1
    ensures store.users == old(store.users) && store.nextUserId == old(store.nextUserId)
    ensures store.follows == old(store.follows) && store.tokens == old(store.tokens)
    ensures mail == Mail(store.users[user].email, Subject(purpose), Message(Text.NatToString(draw)))
  {
    var verification := GenerateVerificationCode(store, user, purpose, draw, now);
    var subject := Subject(purpose);
    var message := Message(verification.code);
    mail := Mail(store.users[user].email, subject, message);
  }
}
