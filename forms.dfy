/**
 * The uniqueness checks (`validate_username`, `validate_email`) and the
 * declared length and character-class constraints of the account forms.
 * Each check is true when the form accepts the value.
 */
module Forms {

  /** What the `User.query.filter_by(...)` lookups can find: every stored username and email. */
  datatype Directory = Directory(usernames: set<string>, emails: set<string>)

  // ---------------------------------------------------------------- strings

  /** `str.lower` on one character (ASCII letters only). */
  function LowerChar(c: char): char
  {
    if 'A' <= c <= 'Z' then (c as int + 32) as char else c
  }

  /** `str.lower` (ASCII letters only). */
  function Lower(s: string): (r: string)
    ensures |r| == |s|
    ensures forall i :: 0 <= i < |s| ==> r[i] == LowerChar(s[i])
  {
    if s == [] then [] else [LowerChar(s[0])] + Lower(s[1..])
  }

  /** Lowercasing twice is lowercasing once. */
  lemma LowerIdempotent(s: string)
    ensures Lower(Lower(s)) == Lower(s)
  {
  }

  /** One of `a-z`, `A-Z`, `0-9`. */
  predicate IsAlnum(c: char)
  {
    'a' <= c <= 'z' || 'A' <= c <= 'Z' || '0' <= c <= '9'
  }

  predicate AllAlnum(s: string)
  {
    forall i :: 0 <= i < |s| ==> IsAlnum(s[i])
  }

  // ---------------------------------------------------------------- field constraints

  /**
   * `Regexp('^[a-zA-Z0-9]*$')` as Python's `re.match` applies it: without
   * MULTILINE, `$` matches at the end and also just before a final newline.
   */
  function UsernamePatternAsWritten(s: string): (ok: bool)
    ensures ok <==> AllAlnum(s) || (|s| > 0 && s[|s| - 1] == '\n' && AllAlnum(s[..|s| - 1]))
  {
    if |s| > 0 && s[|s| - 1] == '\n' then AllAlnum(s) || AllAlnum(s[..|s| - 1]) else AllAlnum(s)
  }

  /** The username field as declared: `Length(1, 20)` and the pattern as Python matches it. */
  function UsernameFieldAsWritten(s: string): (ok: bool)
    ensures ok <==> 1 <= |s| <= 20 && UsernamePatternAsWritten(s)
  {
    1 <= |s| <= 20 && UsernamePatternAsWritten(s)
  }

  /** The username field as intended: 1 to 20 characters, each one of `a-z`, `A-Z`, `0-9`. */
  function UsernameField(s: string): (ok: bool)
    ensures ok <==> 1 <= |s| <= 20 && forall i :: 0 <= i < |s| ==> IsAlnum(s[i])
  {
    1 <= |s| <= 20 && AllAlnum(s)
  }

  /** The declared pattern lets a username with a trailing newline through. */
  lemma UsernameTrailingNewlineSlipsThrough()
    ensures UsernameFieldAsWritten("abc\n")
    ensures !UsernameField("abc\n")
  {
    assert "abc\n"[..3] == "abc";
    assert !IsAlnum("abc\n"[3]);
  }

  /** Apart from one trailing newline, the declared pattern and the intended one agree. */
  lemma UsernameFieldDifference(s: string)
    ensures UsernameField(s) ==> UsernameFieldAsWritten(s)
    ensures UsernameFieldAsWritten(s) && !UsernameField(s) ==> s == s[..|s| - 1] + "\n" && AllAlnum(s[..|s| - 1])
  {
  }

  /** The new-password field: `Length(8, 128)` and `EqualTo('password2')`. */
  function NewPasswordField(password: string, password2: string): (ok: bool)
    ensures ok <==> 8 <= |password| <= 128 && password2 == password
  {
    8 <= |password| <= 128 && password == password2
  }

  // ---------------------------------------------------------------- uniqueness checks

  /** `EditProfileForm.validate_username`: the user's own username, or one no one holds. */
  function EditProfileUsername(currentUsername: string, value: string, dir: Directory): (ok: bool)
    ensures !ok <==> value != currentUsername && value in dir.usernames
  {
    !(value != currentUsername && value in dir.usernames)
  }

  /** `RegisterForm.validate_username`: a username no one holds; no exemption. */
  function RegisterUsername(value: string, dir: Directory): (ok: bool)
    ensures ok <==> value !in dir.usernames
  {
    value !in dir.usernames
  }

  /** `ChangeEmailForm.validate_email` and `RegisterForm.validate_email`: the lowercased email is not stored. */
  function NewEmail(value: string, dir: Directory): (ok: bool)
    ensures ok <==> forall e :: e in dir.emails ==> e != Lower(value)
  {
    Lower(value) !in dir.emails
  }

  /** `DeleteAccountForm.validate_username`: exactly the current username. */
  function DeleteAccountUsername(currentUsername: string, value: string): (ok: bool)
    ensures ok <==> value == currentUsername
  {
    value == currentUsername
  }

  /** `EditProfileAdminForm.validate_username`: the profile rule, with the edited user in place of the signed-in one. */
  function AdminUsername(editedUsername: string, value: string, dir: Directory): (ok: bool)
    ensures !ok <==> value != editedUsername && value in dir.usernames
  {
    EditProfileUsername(editedUsername, value, dir)
  }

  /**
   * The admin form exempts the edited user's username, not the signed-in
   * admin's: the admin's own username, when it is not the edited one, is
   * refused, though the profile form would let the admin keep it.
   */
  lemma AdminUsernameExemptsEditedUser(edited: string, signedIn: string, dir: Directory)
    ensures AdminUsername(edited, edited, dir)
    ensures signedIn != edited && signedIn in dir.usernames ==>
              !AdminUsername(edited, signedIn, dir) && EditProfileUsername(signedIn, signedIn, dir)
  {
  }

  /**
   * `EditProfileAdminForm.validate_email` as written: the exemption compares
   * the value as typed with the stored email, the lookup uses its lowercase.
   */
  function AdminEmailAsWritten(editedEmail: string, value: string, dir: Directory): (ok: bool)
    ensures !ok <==> value != editedEmail && Lower(value) in dir.emails
  {
    !(value != editedEmail && Lower(value) in dir.emails)
  }

  /** `EditProfileAdminForm.validate_email` as intended: exemption and lookup both case-insensitive. */
  function AdminEmail(editedEmail: string, value: string, dir: Directory): (ok: bool)
    ensures !ok <==> Lower(value) != Lower(editedEmail) && Lower(value) in dir.emails
  {
    !(Lower(value) != Lower(editedEmail) && Lower(value) in dir.emails)
  }

  /** The edited user's own email, typed in another case, is refused as already in use. */
  lemma AdminOwnEmailOtherCaseRejected()
    ensures !AdminEmailAsWritten("ann@x.org", "Ann@x.org", Directory({}, {"ann@x.org"}))
    ensures AdminEmail("ann@x.org", "Ann@x.org", Directory({}, {"ann@x.org"}))
  {
    assert Lower("Ann@x.org") == "ann@x.org";
    assert "Ann@x.org"[0] != "ann@x.org"[0];
  }

  /** Corrected admin email check: the user's own email in any case passes; another user's email does not. */
  lemma AdminEmailExemptsOwnEmail(editedEmail: string, value: string, dir: Directory)
    ensures Lower(value) == Lower(editedEmail) ==> AdminEmail(editedEmail, value, dir)
    ensures Lower(value) in dir.emails && Lower(value) != Lower(editedEmail) ==> !AdminEmail(editedEmail, value, dir)
    ensures AdminEmailAsWritten(editedEmail, value, dir) && Lower(editedEmail) == editedEmail ==> AdminEmail(editedEmail, value, dir)
  {
  }

  /** Email lookups ignore case: two spellings that lowercase alike are accepted or refused together. */
  lemma NewEmailIgnoresCase(v1: string, v2: string, dir: Directory)
    requires Lower(v1) == Lower(v2)
    ensures NewEmail(v1, dir) == NewEmail(v2, dir)
    ensures NewEmail(v1, dir) == NewEmail(Lower(v1), dir)
  {
  }

  /** A stored email entered in any case is refused, the user's own one included. */
  lemma NewEmailRefusesStored(stored: string, value: string, dir: Directory)
    requires stored in dir.emails && Lower(value) == stored
    ensures !NewEmail(value, dir)
  {
  }

  /** Registration is stricter than profile editing: it has no self-exemption. */
  lemma RegisterStricterThanEditProfile(currentUsername: string, value: string, dir: Directory)
    ensures RegisterUsername(value, dir) ==> EditProfileUsername(currentUsername, value, dir)
    ensures currentUsername in dir.usernames ==>
              EditProfileUsername(currentUsername, currentUsername, dir) && !RegisterUsername(currentUsername, dir)
  {
  }

  // ---------------------------------------------------------------- forms as a whole

  /** The fields of a submitted `RegisterForm`. */
  datatype Registration = Registration(name: string, email: string, username: string, password: string, password2: string)

  /**
   * `RegisterForm` accepts a submission: the declared lengths, the username
   * pattern as Python matches it, matching passwords, and a fresh username
   * and email.
   */
  function RegisterAccepts(f: Registration, dir: Directory): (ok: bool)
    ensures ok ==> f.username !in dir.usernames && Lower(f.email) !in dir.emails
    ensures ok ==> 1 <= |f.username| <= 20 && UsernamePatternAsWritten(f.username)
    ensures ok ==> 8 <= |f.password| <= 128 && f.password == f.password2
  {
    && 1 <= |f.name| <= 30
    && 1 <= |f.email| <= 254
    && UsernameFieldAsWritten(f.username)
    && NewPasswordField(f.password, f.password2)
    && NewEmail(f.email, dir)
    && RegisterUsername(f.username, dir)
  }

  /** `RegisterForm` with the intended username pattern: letters and digits only. */
  function RegisterAcceptsIntended(f: Registration, dir: Directory): (ok: bool)
    ensures ok ==> f.username !in dir.usernames && Lower(f.email) !in dir.emails
    ensures ok ==> 1 <= |f.username| <= 20 && AllAlnum(f.username)
    ensures ok ==> 8 <= |f.password| <= 128 && f.password == f.password2
  {
    && 1 <= |f.name| <= 30
    && 1 <= |f.email| <= 254
    && UsernameField(f.username)
    && NewPasswordField(f.password, f.password2)
    && NewEmail(f.email, dir)
    && RegisterUsername(f.username, dir)
  }

  /**
   * The declared form accepts everything the intended one does, and also a
   * username with a trailing newline.
   */
  lemma RegisterAcceptsTrailingNewline(dir: Directory)
    ensures forall f :: RegisterAcceptsIntended(f, dir) ==> RegisterAccepts(f, dir)
    ensures RegisterAccepts(Registration("n", "a@b.c", "abc\n", "12345678", "12345678"), Directory({}, {}))
    ensures !RegisterAcceptsIntended(Registration("n", "a@b.c", "abc\n", "12345678", "12345678"), Directory({}, {}))
  {
    forall f | RegisterAcceptsIntended(f, dir) ensures RegisterAccepts(f, dir) {
      UsernameFieldDifference(f.username);
    }
    UsernameTrailingNewlineSlipsThrough();
  }

  /** After a registration is stored, the same submission is refused. */
  lemma RegistrationNotRepeatable(f: Registration, dir: Directory)
    requires RegisterAccepts(f, dir)
    ensures !RegisterAccepts(f, Directory(dir.usernames + {f.username}, dir.emails + {Lower(f.email)}))
    ensures !RegisterAcceptsIntended(f, Directory(dir.usernames + {f.username}, dir.emails + {Lower(f.email)}))
  {
  }
}
