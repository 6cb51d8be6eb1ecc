/**
 * Account-action tokens: `generate_token` and `validate_token`.
 *
 * The signing serializer is abstract: `dumps` turns a payload (and an optional
 * expiry) into a token string, and `loads` gives the payload back, or `None`
 * when the signature is bad or the token has expired.
 */
module Tokens {
  import opened Wrappers
  import opened Accounts

  /** The `Operations` constants. */
  const CONFIRM: string := "confirm"
  const RESET_PASSWORD: string := "reset-password"
  const CHANGE_EMAIL: string := "change-email"

  /** A JSON scalar in a payload. `Null` is JSON null, and also what `dict.get` gives for a missing key. */
  datatype Value = Null | Int(i: int) | Str(s: string)

  type Payload = map<string, Value>

  /** `data.get(key)`. */
  function Get(d: Payload, key: string): Value
  {
    if key in d then d[key] else Null
  }

  /** The signing serializer under the server's secret key and clock. */
  datatype Serializer = Serializer(dumps: (Payload, Option<nat>) -> string, loads: string -> Option<Payload>)

  /** The serializer gives back exactly what was signed (a valid, unexpired token). */
  predicate RoundTrips(s: Serializer, d: Payload, expireIn: Option<nat>)
  {
    s.loads(s.dumps(d, expireIn)) == Some(d)
  }

  /**
   * Keyword arguments that Python binds to `generate_token`'s own parameters
   * never reach `**kwargs`; every other key does.
   */
  predicate IsExtraKeywords(kwargs: Payload)
  {
    "user" !in kwargs && "operation" !in kwargs && "expire_in" !in kwargs
  }

  /** The payload `generate_token` signs: `id` and `operation`, then `kwargs` merged over them. */
  function TokenData(id: int, operation: string, kwargs: Payload): (d: Payload)
    requires IsExtraKeywords(kwargs)
    ensures d.Keys == kwargs.Keys + {"id", "operation"}
    ensures Get(d, "operation") == Str(operation)
    ensures Get(d, "id") == if "id" in kwargs then kwargs["id"] else Int(id)
    ensures forall k :: k != "id" && k != "operation" ==> Get(d, k) == Get(kwargs, k)
  {
    map["id" := Int(id), "operation" := Str(operation)] + kwargs
  }

  /** `generate_token(user, operation, expire_in, **kwargs)`. */
  function GenerateToken(s: Serializer, userId: int, operation: string, expireIn: Option<nat>, kwargs: Payload): (token: string)
    requires IsExtraKeywords(kwargs)
    // a token that decodes gives back the operation, the subject (or a keyword `id`) and every keyword
    ensures RoundTrips(s, TokenData(userId, operation, kwargs), expireIn) ==>
              && s.loads(token).Some?
              && Get(s.loads(token).value, "operation") == Str(operation)
              && Get(s.loads(token).value, "id") == (if "id" in kwargs then kwargs["id"] else Int(userId))
              && forall k :: k in kwargs && k != "id" ==> Get(s.loads(token).value, k) == kwargs[k]
  {
    s.dumps(TokenData(userId, operation, kwargs), expireIn)
  }

  /**
   * The decision `validate_token` makes: `None` when it returns False, and
   * otherwise the user's fields after the one mutation it commits. `decoded`
   * is what the serializer's `loads` gave; `taken` holds the emails of all
   * stored users.
   */
  function Validate(a: Account, decoded: Option<Payload>, operation: string, newPassword: string, taken: set<string>): (r: Option<Account>)
    // a token that does not decode never validates
    ensures decoded.None? ==> r.None?
    // success needs a payload minted for this operation and this user
    ensures r.Some? ==> decoded.Some? && Get(decoded.value, "operation") == Str(operation) && Get(decoded.value, "id") == Int(a.id)
    // success changes exactly the one field the operation names
    ensures r.Some? ==> operation == CONFIRM || operation == RESET_PASSWORD || operation == CHANGE_EMAIL
    ensures r.Some? && operation == CONFIRM ==> r.value == a.(confirmed := true)
    ensures r.Some? && operation == RESET_PASSWORD ==> r.value == a.(password := newPassword)
    ensures r.Some? && operation == CHANGE_EMAIL ==>
              Get(decoded.value, "new_email") == Str(r.value.email) && r.value.email !in taken && r.value == a.(email := r.value.email)
  {
    match decoded
    case None => None
    case Some(d) =>
      if Str(operation) != Get(d, "operation") || Int(a.id) != Get(d, "id") then None
      else if operation == CONFIRM then Some(a.(confirmed := true))
      else if operation == RESET_PASSWORD then Some(a.(password := newPassword))
      else if operation == CHANGE_EMAIL then
        match Get(d, "new_email")
        case Null => None
        case Int(_) => None
        case Str(e) => if e in taken then None else Some(a.(email := e))
      else None
  }

  /**
   * `validate_token(user, token, operation, new_password)`: decodes the token,
   * checks operation and subject, applies one mutation to `user` and commits;
   * every failure returns false before the commit.
   */
  method ValidateToken(user: User, token: string, operation: string, newPassword: string, s: Serializer, db: Session)
    returns (ok: bool)
    modifies user, db
    ensures ok == Validate(old(user.State()), s.loads(token), operation, newPassword, old(db.Emails())).Some?
    ensures user.State() == Validate(old(user.State()), s.loads(token), operation, newPassword, old(db.Emails())).GetOr(old(user.State()))
    ensures db.rows == if ok then old(db.rows)[user.id := user.State()] else old(db.rows)
    ensures db.commits == if ok then old(db.commits) + 1 else old(db.commits)
  {
    var data := s.loads(token);
    if data.None? {
      return false;
    }
    var d := data.value;
    if Str(operation) != Get(d, "operation") || Int(user.id) != Get(d, "id") {
      return false;
    }
    if operation == CONFIRM {
      user.confirmed := true;
    } else if operation == RESET_PASSWORD {
      user.SetPassword(newPassword);
    } else if operation == CHANGE_EMAIL {
      var newEmail := Get(d, "new_email");
      if !newEmail.Str? {
        return false;
      }
      if newEmail.s in db.Emails() {
        return false;
      }
      user.email := newEmail.s;
    } else {
      return false;
    }
    db.Commit(user);
    ok := true;
  }

  /** A confirmation token for `a` validates and sets only `confirmed`. */
  lemma ConfirmRoundTrip(s: Serializer, a: Account, expireIn: Option<nat>, kwargs: Payload, newPassword: string, taken: set<string>)
    requires IsExtraKeywords(kwargs) && "id" !in kwargs
    requires RoundTrips(s, TokenData(a.id, CONFIRM, kwargs), expireIn)
    ensures Validate(a, s.loads(GenerateToken(s, a.id, CONFIRM, expireIn, kwargs)), CONFIRM, newPassword, taken)
            == Some(a.(confirmed := true))
  {
  }

  /** A password-reset token for `a` validates and replaces only the password. */
  lemma ResetPasswordRoundTrip(s: Serializer, a: Account, expireIn: Option<nat>, kwargs: Payload, newPassword: string, taken: set<string>)
    requires IsExtraKeywords(kwargs) && "id" !in kwargs
    requires RoundTrips(s, TokenData(a.id, RESET_PASSWORD, kwargs), expireIn)
    ensures Validate(a, s.loads(GenerateToken(s, a.id, RESET_PASSWORD, expireIn, kwargs)), RESET_PASSWORD, newPassword, taken)
            == Some(a.(password := newPassword))
  {
  }

  /**
   * An email-change token carrying `new_email` validates exactly when no stored
   * user has that email (the subject included), and then sets only the email.
   */
  lemma ChangeEmailRoundTrip(s: Serializer, a: Account, expireIn: Option<nat>, newEmail: string, newPassword: string, taken: set<string>)
    requires RoundTrips(s, TokenData(a.id, CHANGE_EMAIL, map["new_email" := Str(newEmail)]), expireIn)
    ensures Validate(a, s.loads(GenerateToken(s, a.id, CHANGE_EMAIL, expireIn, map["new_email" := Str(newEmail)])), CHANGE_EMAIL, newPassword, taken)
            == if newEmail in taken then None else Some(a.(email := newEmail))
  {
  }

  /** An email-change payload without `new_email` (or with a null one) never validates. */
  lemma ChangeEmailNeedsNewEmail(a: Account, d: Payload, newPassword: string, taken: set<string>)
    requires Get(d, "new_email") == Null
    ensures Validate(a, Some(d), CHANGE_EMAIL, newPassword, taken) == None
  {
  }

  /**
   * The subject's own committed email counts as taken: an email-change token
   * naming it fails and leaves the user as it was.
   */
  lemma OwnCommittedEmailRefused(user: User, db: Session, d: Payload, newPassword: string)
    requires user.id in db.rows && Get(d, "new_email") == Str(db.rows[user.id].email)
    ensures Validate(user.State(), Some(d), CHANGE_EMAIL, newPassword, db.Emails()) == None
  {
  }

  /** A token minted for one operation fails when validated for another. */
  lemma OperationMismatchRejected(s: Serializer, a: Account, minted: string, expected: string, expireIn: Option<nat>,
                                 kwargs: Payload, newPassword: string, taken: set<string>)
    requires IsExtraKeywords(kwargs) && minted != expected
    requires RoundTrips(s, TokenData(a.id, minted, kwargs), expireIn)
    ensures Validate(a, s.loads(GenerateToken(s, a.id, minted, expireIn, kwargs)), expected, newPassword, taken) == None
  {
  }

  /** A token whose payload names another user fails for this one. */
  lemma SubjectMismatchRejected(s: Serializer, a: Account, otherId: int, operation: string, expireIn: Option<nat>,
                               kwargs: Payload, newPassword: string, taken: set<string>)
    requires IsExtraKeywords(kwargs) && "id" !in kwargs && otherId != a.id
    requires RoundTrips(s, TokenData(otherId, operation, kwargs), expireIn)
    ensures Validate(a, s.loads(GenerateToken(s, otherId, operation, expireIn, kwargs)), operation, newPassword, taken) == None
  {
  }

  /** An operation outside the three constants never validates. */
  lemma UnknownOperationRejected(a: Account, decoded: Option<Payload>, operation: string, newPassword: string, taken: set<string>)
    requires operation != CONFIRM && operation != RESET_PASSWORD && operation != CHANGE_EMAIL
    ensures Validate(a, decoded, operation, newPassword, taken) == None
  {
  }

  /** A keyword argument `id` overrides the subject: the token then validates for that id, not the issuer's. */
  lemma KeywordIdOverridesSubject(s: Serializer, a: Account, issuer: int, expireIn: Option<nat>, kwargs: Payload, newPassword: string, taken: set<string>)
    requires IsExtraKeywords(kwargs) && Get(kwargs, "id") == Int(a.id) && issuer != a.id
    requires RoundTrips(s, TokenData(issuer, CONFIRM, kwargs), expireIn)
    ensures Validate(a, s.loads(GenerateToken(s, issuer, CONFIRM, expireIn, kwargs)), CONFIRM, newPassword, taken)
            == Some(a.(confirmed := true))
  {
  }

  /** Tokens are not single-use: a confirmation token validates again after it has been used. */
  lemma ConfirmTokenReplays(a: Account, d: Payload, newPassword: string, taken: set<string>)
    requires Validate(a, Some(d), CONFIRM, newPassword, taken).Some?
    ensures var a' := Validate(a, Some(d), CONFIRM, newPassword, taken).value;
            Validate(a', Some(d), CONFIRM, newPassword, taken) == Some(a')
  {
  }

  /** Once an email change is committed the new email is taken, so the same token then fails. */
  lemma ChangeEmailTokenDoesNotReplay(a: Account, d: Payload, newPassword: string, taken: set<string>)
    requires Validate(a, Some(d), CHANGE_EMAIL, newPassword, taken).Some?
    ensures var a' := Validate(a, Some(d), CHANGE_EMAIL, newPassword, taken).value;
            Validate(a', Some(d), CHANGE_EMAIL, newPassword, taken + {a'.email}) == None
  {
  }
}
