# Photobook account rules in Dafny

This project models the two small rule sets of the Photobook photo-sharing
application and proves properties about them:

- the **account-action tokens** of `photobook/function.py`. `generate_token`
  signs a payload naming a user and an operation (`confirm`, `reset-password`,
  `change-email`). `validate_token` decodes a token, checks its operation and
  subject, then applies one mutation to the user (confirm, new password or new
  email) and commits. Every failure returns `False` before the commit;
- the **safe-redirect rule** (`is_safe_url`, `redirect_back`): redirect to the
  first non-empty candidate (`next`, then the referrer) that resolves to
  http(s) on the host's own network location, else to a default endpoint;
- the **authorization gates**: the `Guest` anonymous user, `permission_required`,
  `admin_required` and `confirm_required`;
- the **file-name rule** of `resize_image`: keep the name when the image is
  narrow enough, otherwise insert the size's suffix (`_s` for 400, `_m` for 800)
  before the extension;
- the **form checks** of `photobook/form.py`: the uniqueness validators
  (`validate_username`, `validate_email`) of the profile, email-change,
  account-deletion, admin-edit and registration forms, and the declared
  username and password constraints.

Modules, one per component: `Wrappers` (Option), `Accounts` (the user object and
the database session, as classes with mutable fields), `Tokens`, `Redirects`,
`Guards`, `Photos`, `Forms`.

Abstractions:
- The `itsdangerous` serializer is a `Tokens.Serializer` made of two functions.
  `dumps` signs a payload with an optional expiry. `loads` gives the payload
  back, or `None` for a bad signature or an expired token. The round-trip
  lemmas assume `loads(dumps(d)) == Some(d)` for the one payload they talk about.
- `urlparse` and `urljoin` are the function parameters `parse` and `join`
  of `Redirects.RedirectBack`.
- The database is `Accounts.Session`: committed rows keyed by user id and a
  commit counter. The email lookup of `validate_token` reads the committed rows.
- `Forms.Directory` is the form-side view of the same user table: the sets of
  usernames and emails that the form lookups can find.

What the code does where a reader might expect otherwise:
- A reset-password token does not check that a new password was passed; the
  value goes to `set_password` unchecked.
- The email-change check refuses an email held by *any* stored user, the
  token's own subject included.
- All failures collapse into `False`. There are no separate "missing field" or
  "conflict" outcomes.
- `expire_in=None` is passed on to the serializer as it is. What the library
  does with it (its own default lifetime) is not part of this model.
- Only `id` can be overridden through `**kwargs`. Python binds `operation`
  (and `user`, `expire_in`) to `generate_token`'s own parameters, so those keys
  never reach the merged payload (`Tokens.IsExtraKeywords`).

## Model

| member | source | states |
|---|---|---|
| `Tokens.TokenData` | photobook/function.py:63-68 | the payload has `operation` set to the given operation and `id` set to the user id unless a keyword `id` overrides it; every other key comes from the keywords |
| `Tokens.GenerateToken` | photobook/function.py:63-68 | a token that the serializer decodes gives back the operation, the user id (or a keyword `id`) and every other keyword argument |
| `Tokens.Validate` | photobook/function.py:71-97 | failing to decode never validates; success needs the payload's operation and id to match; success changes exactly the field the operation names (confirmed, password, or an email that no stored user has) |
| `Tokens.ValidateToken` | photobook/function.py:71-97 | returns true iff `Validate` succeeds; the user then holds the new state and the session commits exactly once; on false neither the user, the rows nor the commit count change |
| `Tokens.ConfirmRoundTrip` | photobook/function.py:63-83 | a confirmation token from `generate_token` for the user validates and only sets `confirmed` |
| `Tokens.ResetPasswordRoundTrip` | photobook/function.py:84-85 | a reset token for the user validates and only replaces the password with the given one |
| `Tokens.ChangeEmailRoundTrip` | photobook/function.py:86-92 | an email-change token carrying `new_email` validates iff no stored user has that email, the subject included, and then only the email changes |
| `Tokens.ChangeEmailNeedsNewEmail` | photobook/function.py:87-89 | an email-change payload with no (or a null) `new_email` never validates |
| `Tokens.OwnCommittedEmailRefused` | photobook/function.py:90-91 | an email-change payload naming the subject's own committed email fails |
| `Tokens.OperationMismatchRejected` | photobook/function.py:79-80 | a token minted for one operation fails for any other operation |
| `Tokens.SubjectMismatchRejected` | photobook/function.py:79-80 | a token minted for another user id fails for this user |
| `Tokens.UnknownOperationRejected` | photobook/function.py:93-94 | an operation other than the three constants never validates, whatever the payload |
| `Tokens.KeywordIdOverridesSubject` | photobook/function.py:66-67 | a keyword `id` replaces the issuer's id, so the token validates for the user that keyword names |
| `Tokens.ConfirmTokenReplays` | photobook/function.py:82-83 | tokens are not single-use: a confirmation token that validated validates again on the updated user |
| `Tokens.ChangeEmailTokenDoesNotReplay` | photobook/function.py:90-92 | after an email change is stored, the same token fails because its email is now taken |
| `Accounts.User.SetPassword` | photobook/function.py:85 | only the password changes |
| `Accounts.Session.Commit` | photobook/function.py:96 | the user's row becomes the object's current state, other rows stay, one more commit |
| `Accounts.Session.Emails` | photobook/function.py:90 | the emails the lookup finds are exactly those of the stored rows |
| `Redirects.IsSafeUrl` | photobook/function.py:99-103 | a target is safe iff, joined to the host URL, its scheme is http or https and its network location is the host's |
| `Redirects.RedirectBack` | photobook/function.py:99-112 | answers `next` if it is non-empty and safe, else the referrer if non-empty and safe, else the default endpoint; any URL it answers is http(s) on the host's network location |
| `Guards.Can` | photobook/function.py:46-49 | a permission is granted only to a member holding it; `Guest` has none |
| `Guards.IsAdmin` | photobook/function.py:51-53 | only a member can be admin |
| `Guards.PermissionRequired` | photobook/function.py:165-173 | the handler runs iff the user can; otherwise abort with 403 |
| `Guards.AdminRequired` | photobook/function.py:176-177 | the handler runs iff the user holds `ADMINISTER`; otherwise abort with 403 |
| `Guards.ConfirmRequired` | photobook/function.py:150-162 | a member reaches the handler iff confirmed, else is redirected to `main.index` with a warning; for `Guest` reading `confirmed` fails |
| `Guards.GuestPassesNoGate` | photobook/function.py:46-53 | the guest is denied every permission, is never admin, and gets through no gate |
| `Guards.GatesIndependent` | photobook/function.py:150-177 | confirmation and permission are separate: either gate can pass while the other refuses |
| `Photos.SplitExt` | photobook/function.py:187 | stem and extension concatenate to the name; an extension is empty or a dot followed by neither `/` nor `.` |
| `Photos.ResizedName` | photobook/function.py:186-197 | an image no wider than the base keeps its name; a wider one gets stem + suffix + extension; no name (a failing suffix lookup) exactly when it is wider and the base is neither 400 nor 800 |
| `Photos.ResizedNameKeepsExtension` | photobook/function.py:187-195 | splitting a resized name gives back the original extension, with the suffix added to the stem |
| `Photos.ResizedNamesDistinct` | photobook/__init__.py:46-51 | for a photo wider than 800 pixels, the small and medium copies get different names, and neither keeps the original name |
| `Photos.SplitExtExamples` | photobook/function.py:187 | worked cases of the extension rule: `.jpg`, a double extension, a dot file, a dot in a directory name |
| `Forms.Lower` | photobook/form.py:46 | the lowercase has the same length and lowercases each character |
| `Forms.LowerIdempotent` | photobook/form.py:46 | lowercasing twice equals lowercasing once |
| `Forms.UsernamePatternAsWritten` | photobook/form.py:12-14 | the declared pattern accepts letters and digits, optionally followed by one final newline |
| `Forms.UsernameFieldAsWritten` | photobook/form.py:111-113 | the declared username field: length 1 to 20 and the pattern as Python matches it |
| `Forms.UsernameField` | photobook/form.py:111-113 | the intended username field: length 1 to 20, every character one of `a-z`, `A-Z`, `0-9` |
| `Forms.UsernameTrailingNewlineSlipsThrough` | photobook/form.py:12-14 | `"abc\n"` passes the declared field but not the intended one |
| `Forms.UsernameFieldDifference` | photobook/form.py:111-113 | the two agree except on names made of letters and digits (possibly none) followed by one final newline |
| `Forms.NewPasswordField` | photobook/form.py:52-53 | a new password is accepted iff it has 8 to 128 characters and equals its confirmation |
| `Forms.EditProfileUsername` | photobook/form.py:20-22 | refused iff the value differs from the current username and some user holds it |
| `Forms.RegisterUsername` | photobook/form.py:123-125 | refused iff some user holds the username; there is no exemption |
| `Forms.NewEmail` | photobook/form.py:45-47 | refused iff the lowercased value is a stored email |
| `Forms.DeleteAccountUsername` | photobook/form.py:74-76 | accepted iff the value equals the current username exactly |
| `Forms.AdminUsername` | photobook/form.py:92-94 | refused iff the value differs from the edited user's username and some user holds it |
| `Forms.AdminUsernameExemptsEditedUser` | photobook/form.py:92-94 | the edited user's username passes; the signed-in admin's own username, when it is not the edited one and is held, is refused although the profile form would accept it |
| `Forms.AdminEmailAsWritten` | photobook/form.py:96-98 | refused iff the value as typed differs from the edited user's email and its lowercase is stored |
| `Forms.AdminEmail` | photobook/form.py:96-98 | refused iff the value differs from the edited user's email ignoring case and its lowercase is stored |
| `Forms.AdminOwnEmailOtherCaseRejected` | photobook/form.py:97 | the edited user's own email typed with a capital is refused as written and accepted by the corrected check |
| `Forms.AdminEmailExemptsOwnEmail` | photobook/form.py:96-98 | the corrected check accepts the user's own email in any case, refuses another stored email, and accepts whatever the written check accepts when stored emails are lowercase |
| `Forms.NewEmailIgnoresCase` | photobook/form.py:119-121 | two spellings with the same lowercase are accepted or refused together |
| `Forms.NewEmailRefusesStored` | photobook/form.py:45-47 | a stored email in any case is refused, the user's own included |
| `Forms.RegisterStricterThanEditProfile` | photobook/form.py:123-125 | whatever registration accepts, profile editing accepts; the user's own username passes editing but not registration |
| `Forms.RegisterAccepts` | photobook/form.py:108-125 | an accepted registration has a fresh username, a fresh email in lowercase, a 1 to 20 character username matching the declared pattern as Python matches it, and a matching 8 to 128 character password |
| `Forms.RegisterAcceptsIntended` | photobook/form.py:108-125 | the same form with the intended pattern: an accepted username has only letters and digits |
| `Forms.RegisterAcceptsTrailingNewline` | photobook/form.py:111-113 | the declared form accepts every registration the intended one does, and also the username `"abc\n"`, which the intended one refuses |
| `Forms.RegistrationNotRepeatable` | photobook/form.py:119-125 | once a registration's username and email are stored, the same submission is refused, by the declared and the intended form alike |

## Left out

- Mail dispatch (`send_mail`, `_send_async_mail`, the `send_*_email` helpers): a background thread and mail I/O.
- Notification helpers (`push_*_notification`) and `flash_errors`: HTML strings built with `url_for` and database inserts.
- `rename_image`: its name comes from `uuid4` randomness.
- The pixel work of `resize_image` (float scaling, the PIL resize and save to disk). Only the returned name is modelled; the image width is a parameter.
- `load_user`, the login-manager settings and the application factory and configuration of `photobook/__init__.py`. From there only the photo-suffix table is modelled.
- The HMAC signing, JSON encoding and clock of the serializer: they sit behind `Tokens.Serializer`.
- URL parsing and joining: they sit behind the `parse` and `join` parameters.
- The flash message text of `confirm_required`. Only the endpoint and the `warning` category are kept.
- `Tokens.Validate`: payload values are null, integers and strings only. JSON booleans and floats, and Python's `1 == True` and `1 == 1.0` when the payload `id` is compared, are not modelled; they matter only for tokens minted with unusual keyword arguments.
- `Tokens.Validate`: a `new_email` that is neither a string nor null is refused. Python would store such a value as the email.
- `Tokens.ValidateToken`: `new_password` is a string. With the Python default `None`, the reset branch would pass `None` to `set_password`. That method and its hashing live in the user model, which is not part of this model; the stored value is the new password itself.
- `Tokens.ValidateToken`: the email lookup reads the session's committed rows. SQLAlchemy's autoflush of pending changes is not modelled.
- `Accounts.Session.Commit`: persists only the token's user. Other pending objects in the session are not modelled.
- `Guards.Can`: a member's `can` and `is_admin` come from role lookups in the user model, which is not part of this model. A permission set and an admin flag stand in for them.
- `Photos.SplitExt`: follows POSIX `os.path.splitext`, where only `/` separates path components. On Windows, which the configuration also provides for, `\` is a separator too; that variant is not modelled.
- `Forms.Lower`: lowercases ASCII letters only. Python's `str.lower` also maps other Unicode letters.
- WTForms built-ins: `DataRequired` (its whitespace handling), `Email()`, `FileAllowed` and the error messages. Only the declared lengths, the pattern and the password equality are modelled.
- `EditProfileAdminForm.__init__`: the role choices, loaded from the role table. The edited user's username and email are parameters instead.

## Findings

| source | as written | input that shows it | evidently intended | confidence | as-written member | corrected member |
|---|---|---|---|---|---|---|
| photobook/form.py:12-14 | the username pattern `^[a-zA-Z0-9]*$` is applied with `re.match`, whose `$` also matches before a final newline | username `"abc\n"` (four characters) | usernames of letters and digits only, as the error message says | medium, not executed | `Forms.UsernameTrailingNewlineSlipsThrough` | `Forms.UsernameField` |
| photobook/form.py:97 | the admin email check's exemption compares the typed value with the stored email, but the lookup lowercases it | edited user's email `ann@x.org`, typed as `Ann@x.org` | the user's own email, in any case, is not "already in use" | medium, not executed | `Forms.AdminOwnEmailOtherCaseRejected` | `Forms.AdminEmail` |
