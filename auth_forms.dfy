/**
 * The sign-up and sign-in forms: the Firebase error-code table, the ordered
 * form checks with the e-mail pattern, and `handleSubmit`, which validates,
 * checks the invite, signs up, marks the invite used and sets the role.
 */
module AuthForms {
  import opened Common
  import opened Text
  import opened Accounts

  // ---------------------------------------------------------------------
  // Error messages

  const DefaultMessage := "An error occurred. Please try again."

  /** The `errorMessages` record of both forms. */
  const ErrorMessages: map<string, string> := map[
    "auth/email-already-in-use" := "This email is already registered",
    "auth/invalid-email" := "Invalid email address",
    "auth/weak-password" := "Password should be at least 6 characters",
    "auth/user-not-found" := "User not found",
    "auth/wrong-password" := "Incorrect password",
    "auth/too-many-requests" := "Too many login attempts. Please try again later.",
    "auth/invalid-credential" := "Invalid email or password"]

  /**
   * `getFirebaseErrorMessage(code)`: the message listed for the code, and
   * the default message exactly for the codes not listed.
   */
  function ErrorMessage(code: string): (m: string)
    ensures code in ErrorMessages ==> m == ErrorMessages[code]
    ensures m == DefaultMessage <==> code !in ErrorMessages
    ensures m != ""
  {
    if code in ErrorMessages then ErrorMessages[code] else DefaultMessage
  }

  /** `error.code || 'unknown'` */
  function CodeOf(code: Option<string>): (c: string)
    ensures c != ""
    ensures code.Some? && code.value != "" ==> c == code.value
  {
    if code.Some? && code.value != "" then code.value else "unknown"
  }

  /** An error without a code gets the default message. */
  lemma MissingCodeGivesDefault(code: Option<string>)
    requires code.None? || code == Some("")
    ensures ErrorMessage(CodeOf(code)) == DefaultMessage
  {
    assert CodeOf(code) == "unknown";
    assert "unknown" !in ErrorMessages;
  }

  /** Each listed code has its own message. */
  lemma MessagesDistinct(a: string, b: string)
    requires a in ErrorMessages && b in ErrorMessages && a != b
    ensures ErrorMessage(a) != ErrorMessage(b)
  {
  }

  // ---------------------------------------------------------------------
  // The e-mail pattern

  /** `[^\s@]`: neither white space nor `@`. */
  predicate PlainChar(c: char) {
    !IsSpace(c) && c != '@'
  }

  predicate Plain(s: string) {
    forall i | 0 <= i < |s| :: PlainChar(s[i])
  }

  /**
   * `/^[^\s@]+@[^\s@]+\.[^\s@]+$/.test(s)`: `s` is a non-empty plain run, an
   * `@`, a non-empty plain run, a `.` and a non-empty plain run, the `@` at
   * `at` and the `.` at `dot`.
   */
  predicate EmailPattern(s: string) {
    exists at, dot | 0 < at && at + 1 < dot < |s| - 1 ::
      s[at] == '@' && s[dot] == '.' && Plain(s[..at]) && Plain(s[at + 1..dot]) && Plain(s[dot + 1..])
  }

  /**
   * No white space and exactly one `@`, with text before the `@` and, after
   * it, a `.` with text on both sides.
   */
  predicate EmailShape(s: string) {
    && (forall i | 0 <= i < |s| :: !IsSpace(s[i]))
    && '@' in s
    && var a := IndexOf(s, '@');
    && 0 < a
    && '@' !in s[a + 1..]
    && exists k | a + 2 <= k < |s| - 1 :: s[k] == '.'
  }

  /** Each character of a plain piece of `s` is plain. */
  lemma PlainAt(s: string, lo: nat, hi: nat, i: nat)
    requires lo <= i < hi <= |s| && Plain(s[lo..hi])
    ensures PlainChar(s[i])
  {
    assert s[lo..hi][i - lo] == s[i];
  }

  /** Around the `@` at `at` and the `.` at `dot`, the three runs are plain. */
  lemma PiecesPlain(s: string, at: nat, dot: nat)
    requires at < dot < |s|
    requires Plain(s[..at]) && Plain(s[at + 1..dot]) && Plain(s[dot + 1..])
    ensures forall i | 0 <= i < |s| && i != at && i != dot :: PlainChar(s[i])
  {
    assert s[..at] == s[0..at] && s[dot + 1..] == s[dot + 1..|s|];
    forall i | 0 <= i < |s| && i != at && i != dot ensures PlainChar(s[i]) {
      if i < at {
        PlainAt(s, 0, at, i);
      } else if i < dot {
        PlainAt(s, at + 1, dot, i);
      } else {
        PlainAt(s, dot + 1, |s|, i);
      }
    }
  }

  lemma PatternHasShape(s: string)
    requires EmailPattern(s)
    ensures EmailShape(s)
  {
    var at, dot :| 0 < at && at + 1 < dot < |s| - 1
      && s[at] == '@' && s[dot] == '.' && Plain(s[..at]) && Plain(s[at + 1..dot]) && Plain(s[dot + 1..]);
    PiecesPlain(s, at, dot);
    assert !IsSpace('@') && !IsSpace('.');
    assert forall i | 0 <= i < |s| :: !IsSpace(s[i]);
    assert IndexOf(s, '@') == at;
    var rest := s[at + 1..];
    forall i | 0 <= i < |rest| ensures rest[i] != '@' {
      assert rest[i] == s[at + 1 + i];
    }
    assert at + 2 <= dot < |s| - 1 && s[dot] == '.';
  }

  lemma ShapeFitsPattern(s: string)
    requires EmailShape(s)
    ensures EmailPattern(s)
  {
    var a := IndexOf(s, '@');
    var k :| a + 2 <= k < |s| - 1 && s[k] == '.';
    var rest := s[a + 1..];
    forall i | 0 <= i < |s| && i != a ensures PlainChar(s[i]) {
      if i < a {
        assert s[..a][i] == s[i];
      } else {
        assert rest[i - a - 1] == s[i];
      }
    }
    assert Plain(s[..a]) && Plain(s[a + 1..k]) && Plain(s[k + 1..]);
  }

  /** The pattern accepts exactly the strings of that shape. */
  lemma EmailPatternMeaning(s: string)
    ensures EmailPattern(s) <==> EmailShape(s)
  {
    if EmailPattern(s) {
      PatternHasShape(s);
    }
    if EmailShape(s) {
      ShapeFitsPattern(s);
    }
  }

  // ---------------------------------------------------------------------
  // Ordered checks

  /** One check of a form: whether it passes and the message shown when it does not. */
  datatype Check = Check(passes: bool, message: string)

  /** The message of the first failing check, `None` when all pass. */
  function FirstFailure(checks: seq<Check>): (r: Option<string>)
    ensures r.None? <==> forall i | 0 <= i < |checks| :: checks[i].passes
    ensures r.Some? ==> exists k | 0 <= k < |checks| ::
      && !checks[k].passes && r.value == checks[k].message
      && forall i | 0 <= i < k :: checks[i].passes
  {
    if checks == [] then None
    else if !checks[0].passes then Some(checks[0].message)
    else
      var rest := FirstFailure(checks[1..]);
      if rest.Some? then
        var k :| 0 <= k < |checks| - 1 && !checks[1..][k].passes && rest.value == checks[1..][k].message
          && forall i | 0 <= i < k :: checks[1..][i].passes;
        assert !checks[k + 1].passes && forall i | 0 <= i < k + 1 :: checks[i].passes;
        rest
      else rest
  }

  /** A failing check is reported only when every check before it passes. */
  lemma FirstFailureAt(checks: seq<Check>, k: nat)
    requires k < |checks| && !checks[k].passes
    requires forall i | 0 <= i < k :: checks[i].passes
    ensures FirstFailure(checks) == Some(checks[k].message)
  {
    if k > 0 {
      FirstFailureAt(checks[1..], k - 1);
    }
  }

  /** The fields of the sign-up form. */
  datatype SignUpFields = SignUpFields(
    email: string,
    displayName: string,
    password: string,
    confirmPassword: string,
    inviteCode: string)

  /** The checks of the sign-up `validateForm`, in order. */
  function SignUpChecks(f: SignUpFields): seq<Check> {
    [ Check(!Blank(f.email), "Email is required"),
      Check(EmailPattern(f.email), "Please enter a valid email"),
      Check(!Blank(f.displayName), "Display name is required"),
      Check(!Blank(f.password), "Password is required"),
      Check(|f.password| >= 6, "Password must be at least 6 characters"),
      Check(f.password == f.confirmPassword, "Passwords do not match"),
      Check(!Blank(f.inviteCode), "Invite code is required") ]
  }

  /**
   * Sign-up `validateForm`: `None` when the form passes, otherwise the
   * message of the first check it fails. A form passes exactly when the
   * e-mail and display name are not blank and the e-mail fits the pattern,
   * the password is not blank, has at least 6 characters and equals its
   * confirmation, and the invite code is not blank.
   */
  function ValidateSignUp(f: SignUpFields): (r: Option<string>)
    ensures r.None? <==>
      && !Blank(f.email) && EmailPattern(f.email) && !Blank(f.displayName)
      && !Blank(f.password) && |f.password| >= 6 && f.password == f.confirmPassword
      && !Blank(f.inviteCode)
    ensures Blank(f.email) ==> r == Some("Email is required")
  {
    var checks := SignUpChecks(f);
    assert (forall i | 0 <= i < |checks| :: checks[i].passes) <==>
      && checks[0].passes && checks[1].passes && checks[2].passes && checks[3].passes
      && checks[4].passes && checks[5].passes && checks[6].passes;
    if Blank(f.email) then
      FirstFailureAt(checks, 0);
      FirstFailure(checks)
    else
      FirstFailure(checks)
  }

  /**
   * The e-mail is checked untrimmed against the pattern, so a non-blank
   * e-mail with surrounding white space is refused as invalid.
   */
  lemma PaddedEmailIsInvalid(f: SignUpFields)
    requires !Blank(f.email) && |f.email| > 0 && IsSpace(f.email[0])
    ensures ValidateSignUp(f) == Some("Please enter a valid email")
  {
    var checks := SignUpChecks(f);
    EmailPatternMeaning(f.email);
    FirstFailureAt(checks, 1);
  }

  /** A password of fewer than 6 characters that is not blank is refused for its length. */
  lemma ShortPassword(f: SignUpFields)
    requires !Blank(f.email) && EmailPattern(f.email) && !Blank(f.displayName)
    requires !Blank(f.password) && |f.password| < 6
    ensures ValidateSignUp(f) == Some("Password must be at least 6 characters")
  {
    FirstFailureAt(SignUpChecks(f), 4);
  }

  /** The fields of the sign-in form. */
  datatype SignInFields = SignInFields(email: string, password: string)

  /**
   * Sign-in `validateForm`: a blank e-mail is reported first, then a blank
   * password; anything else passes.
   */
  function ValidateSignIn(f: SignInFields): (r: Option<string>)
    ensures r.None? <==> !Blank(f.email) && !Blank(f.password)
    ensures Blank(f.email) ==> r == Some("Email is required")
    ensures !Blank(f.email) && Blank(f.password) ==> r == Some("Password is required")
  {
    var checks := [Check(!Blank(f.email), "Email is required"), Check(!Blank(f.password), "Password is required")];
    if Blank(f.email) then
      FirstFailureAt(checks, 0);
      FirstFailure(checks)
    else if Blank(f.password) then
      FirstFailureAt(checks, 1);
      FirstFailure(checks)
    else
      FirstFailure(checks)
  }

  // ---------------------------------------------------------------------
  // Submitting

  /** A toast: its title and its description. */
  datatype Notice = Notice(title: string, description: string)

  /**
   * What Firebase Auth answered: the account was created under `uid`
   * (`uid` may be empty), or it was refused with an error whose `code` may
   * be missing.
   */
  datatype AuthOutcome = Created(uid: string) | Refused(code: Option<string>)

  const InvalidInvite := "Invalid or expired invite code"
  const Unexpected := Notice("Error", "An unexpected error occurred")

  /**
   * Sign-up `handleSubmit`. A form that fails validation shows the first
   * failure; an invite that is missing or used stops the sign-up before
   * Firebase Auth is asked (`attempted` false). A refused sign-up shows the
   * message of its code. A created account gets its user document and a
   * `"user"` role document (what `signUp` writes); then, when `uid` is not
   * empty, the invite is marked used by it and only after that the role
   * read from the invite is set. `photoUrl` is the uploaded photo, `now` the
   * server time.
   */
  method SubmitSignUp(store: DocStore, f: SignUpFields, auth: AuthOutcome, photoUrl: Option<string>, now: int)
    returns (attempted: bool, notice: Notice)
    modifies store
    ensures attempted <==> ValidateSignUp(f).None? && Usable(old(store.invites), f.inviteCode)
    ensures ValidateSignUp(f).Some? ==>
      notice == Notice("Error", ValidateSignUp(f).value) && unchanged(store)
    ensures ValidateSignUp(f).None? && !attempted ==>
      notice == Notice("Error", InvalidInvite) && unchanged(store)
    ensures attempted && auth.Refused? ==>
      notice == Notice("Signup failed", ErrorMessage(CodeOf(auth.code))) && unchanged(store)
    ensures attempted && auth.Created? ==>
      var uid := auth.uid;
      var code := f.inviteCode;
      var invite := old(store.invites)[code];
      && notice == Notice("Success", "Account created successfully")
      && store.users == old(store.users)[uid := UserDoc(f.email, f.displayName, if photoUrl == Some("") then None else photoUrl, now)]
      && (uid != "" ==>
        && store.invites == old(store.invites)[code := invite.(used := true, usedBy := Some(uid), usedAt := Some(now))]
        && store.roles == old(store.roles)[uid := RoleDoc(invite.role, Some(now), Some(now))]
        && GetInvite(store.invites, code).None?
        && (IsUserAdmin(store.roles, uid) <==> invite.role == "admin"))
      && (uid == "" ==>
        && store.invites == old(store.invites)
        && store.roles == old(store.roles)[uid := RoleDoc("user", Some(now), None)])
  {
    var problem := ValidateSignUp(f);
    if problem.Some? {
      return false, Notice("Error", problem.value);
    }
    var invite := GetInvite(store.invites, f.inviteCode);
    if invite.None? {
      return false, Notice("Error", InvalidInvite);
    }
    var role := invite.value.role;
    attempted := true;
    match auth
    case Refused(code) =>
      notice := Notice("Signup failed", ErrorMessage(CodeOf(code)));
    case Created(uid) =>
      store.CreateUserDocument(uid, f.email, f.displayName, photoUrl, now);
      notice := Notice("Success", "Account created successfully");
      if uid != "" {
        var marked := store.MarkInviteAsUsed(f.inviteCode, uid, now);
        if marked {
          store.SetUserRole(uid, role, now);
        } else {
          notice := Unexpected;
        }
      }
  }

  /**
   * Sign-in `handleSubmit`: Firebase Auth is asked (`attempted`) only for a
   * form that passes validation; `signIn` is its answer, `None` for success
   * or the code of its error.
   */
  method SubmitSignIn(f: SignInFields, signIn: Option<Option<string>>) returns (attempted: bool, notice: Notice)
    ensures attempted <==> ValidateSignIn(f).None?
    ensures !attempted ==> notice == Notice("Error", ValidateSignIn(f).value)
    ensures attempted && signIn.Some? ==> notice == Notice("Login failed", ErrorMessage(CodeOf(signIn.value)))
    ensures attempted && signIn.None? ==> notice == Notice("Success", "Logged in successfully")
  {
    var problem := ValidateSignIn(f);
    if problem.Some? {
      return false, Notice("Error", problem.value);
    }
    attempted := true;
    if signIn.Some? {
      notice := Notice("Login failed", ErrorMessage(CodeOf(signIn.value)));
    } else {
      notice := Notice("Success", "Logged in successfully");
    }
  }
}
