/**
 * The account endpoints: logging in, verifying a one-time code, setting a
 * first password, signing in with a Google identity (its token already
 * checked), and updating an account.
 */
module UsersViews {
  import opened Wrappers
  import opened Text
  import opened UsersModels
  import opened UsersSerializers

  /** A refused request: its HTTP status and errors. */
  datatype Refusal = Refusal(statusCode: nat, errors: seq<string>)

  /** The form errors as the endpoints report them: "field: message". */
  function ErrorLines(errors: seq<FieldError>): (r: seq<string>)
    ensures |r| == |errors|
  {
    seq(|errors|, i requires 0 <= i < |errors| => errors[i].field + ": " + errors[i].message)
  }

  // ---------------------------------------------------------------------------
  // Logging in
  // ---------------------------------------------------------------------------

  /** The login name with every '+' removed. */
  function WithoutPlus(s: string): (r: string)
    ensures |r| <= |s|
  {
    if s == [] then [] else (if s[0] == '+' then [] else [s[0]]) + WithoutPlus(s[1..])
  }

  /**
   * The phone number the login name is looked up as: when the name is digits
   * apart from '+' signs, only its digits; otherwise the name itself.
   */
  function LoginPhone(username: string): (r: string)
    ensures WithoutPlus(username) != [] && AllDigits(WithoutPlus(username)) ==> AllDigits(r)
  {
    if WithoutPlus(username) != [] && AllDigits(WithoutPlus(username)) then DigitsOnly(username) else username
  }

  /** For a name of digits and plus signs, "only the digits" is the name without its plus signs. */
  lemma {:induction false} DigitsOfPhoneName(username: string)
    requires AllDigits(WithoutPlus(username))
    ensures DigitsOnly(username) == WithoutPlus(username)
  {
    if username != [] {
      var rest := username[1..];
      assert WithoutPlus(username) == (if username[0] == '+' then [] else [username[0]]) + WithoutPlus(rest);
      assert AllDigits(WithoutPlus(rest)) by {
        forall i | 0 <= i < |WithoutPlus(rest)|
          ensures IsDigit(WithoutPlus(rest)[i])
        {
          var off := if username[0] == '+' then 0 else 1;
          assert WithoutPlus(rest)[i] == WithoutPlus(username)[i + off];
        }
      }
      DigitsOfPhoneName(rest);
      if username[0] != '+' {
        assert IsDigit(WithoutPlus(username)[0]);
      }
    }
  }

  /** An account the login name designates: by email, by username, or by phone number. */
  predicate LoginMatch(a: Account, username: string) {
    a.email == Some(username) || a.username == username || a.phoneNumber == LoginPhone(username)
  }

  function MatchCount(accounts: seq<Account>, username: string): (n: nat)
    ensures n <= |accounts|
    ensures n == 0 <==> forall j | 0 <= j < |accounts| :: !LoginMatch(accounts[j], username)
  {
    if accounts == [] then 0
    else
      assert forall j | 0 <= j < |accounts| - 1 :: accounts[..|accounts| - 1][j] == accounts[j];
      MatchCount(accounts[..|accounts| - 1], username) + (if LoginMatch(accounts[|accounts| - 1], username) then 1 else 0)
  }

  function FirstMatch(accounts: seq<Account>, username: string): (r: Option<nat>)
    ensures r.Some? ==> r.value < |accounts| && LoginMatch(accounts[r.value], username)
    ensures r.None? <==> MatchCount(accounts, username) == 0
  {
    if accounts == [] then None
    else if LoginMatch(accounts[0], username) then
      assert MatchCount(accounts, username) != 0;
      Some(0)
    else match FirstMatch(accounts[1..], username)
      case None =>
        assert forall j | 1 <= j < |accounts| :: accounts[j] == accounts[1..][j - 1];
        None
      case Some(k) =>
        assert accounts[k + 1] == accounts[1..][k];
        assert MatchCount(accounts, username) != 0;
        Some(k + 1)
  }

  datatype LoginOutcome =
    | LoggedIn(user: UserId)
    | LoginRefused(refusal: Refusal)
    /** More than one account matched: the lookup raises and the request fails. */
    | LookupRaised

  const InvalidCredentials := Refusal(401, ["Invalid credentials"])
  const AccountDisabled := Refusal(401, ["User account is disabled"])

  /** `UserLoginView.post`. */
  function Login(accounts: seq<Account>, username: Option<string>, password: Option<string>): (r: LoginOutcome)
    ensures username.None? || username.value == "" || password.None? || password.value == "" ==>
      r == LoginRefused(Refusal(400, ["Please provide both username/email and password"]))
    ensures r.LoggedIn? ==> exists j | 0 <= j < |accounts| ::
      && accounts[j].id == r.user && LoginMatch(accounts[j], username.value)
      && PasswordMatches(accounts[j], password.value) && accounts[j].isActive
    ensures r.LoggedIn? || r == LoginRefused(AccountDisabled) ==> MatchCount(accounts, username.value) == 1
    ensures username.Some? && username.value != "" && password.Some? && password.value != "" ==>
      && (MatchCount(accounts, username.value) == 0 ==> r == LoginRefused(InvalidCredentials))
      && (MatchCount(accounts, username.value) > 1 ==> r == LookupRaised)
  {
    if username.None? || username.value == "" || password.None? || password.value == "" then
      LoginRefused(Refusal(400, ["Please provide both username/email and password"]))
    else
      var n := MatchCount(accounts, username.value);
      if n == 0 then LoginRefused(InvalidCredentials)
      else if n > 1 then LookupRaised
      else
        var account := accounts[FirstMatch(accounts, username.value).value];
        if !PasswordMatches(account, password.value) then LoginRefused(InvalidCredentials)
        else if !account.isActive then LoginRefused(AccountDisabled)
        else LoggedIn(account.id)
  }

  /** Two different matching accounts make the count at least two. */
  lemma {:induction false} TwoMatchesCount(accounts: seq<Account>, username: string, i: nat, j: nat)
    requires i < j < |accounts| && LoginMatch(accounts[i], username) && LoginMatch(accounts[j], username)
    ensures MatchCount(accounts, username) >= 2
    decreases |accounts|
  {
    var init := accounts[..|accounts| - 1];
    assert init[i] == accounts[i];
    if j < |accounts| - 1 {
      assert init[j] == accounts[j];
      TwoMatchesCount(init, username, i, j);
    }
  }

  /**
   * The converse of the login contract: the one account the name designates,
   * given its right password and active, is logged in; inactive, it is told
   * it is disabled.
   */
  lemma LoginOfUniqueMatch(accounts: seq<Account>, username: string, password: string, j: nat)
    requires username != "" && password != ""
    requires MatchCount(accounts, username) == 1
    requires j < |accounts| && LoginMatch(accounts[j], username) && PasswordMatches(accounts[j], password)
    ensures accounts[j].isActive ==> Login(accounts, Some(username), Some(password)) == LoggedIn(accounts[j].id)
    ensures !accounts[j].isActive ==> Login(accounts, Some(username), Some(password)) == LoginRefused(AccountDisabled)
  {
    var k := FirstMatch(accounts, username).value;
    if k < j {
      TwoMatchesCount(accounts, username, k, j);
    } else if j < k {
      TwoMatchesCount(accounts, username, j, k);
    }
  }

  /** "Account disabled" is said only to someone who gave the right password. */
  lemma DisabledOnlyAfterPassword(accounts: seq<Account>, username: string, password: string)
    requires Login(accounts, Some(username), Some(password)) == LoginRefused(AccountDisabled)
    ensures exists j | 0 <= j < |accounts| ::
      LoginMatch(accounts[j], username) && PasswordMatches(accounts[j], password) && !accounts[j].isActive
  {
    var k := FirstMatch(accounts, username).value;
    assert LoginMatch(accounts[k], username);
  }

  /** A wrong password gets the same answer as an unknown login name. */
  lemma WrongPasswordLooksUnknown(accounts: seq<Account>, username: string, password: string)
    requires username != "" && password != ""
    requires MatchCount(accounts, username) == 1
    requires forall j | 0 <= j < |accounts| && LoginMatch(accounts[j], username) :: !PasswordMatches(accounts[j], password)
    ensures Login(accounts, Some(username), Some(password)) == Login([], Some(username), Some(password))
  {
    var k := FirstMatch(accounts, username).value;
    assert LoginMatch(accounts[k], username);
  }

  /** A phone number typed with a leading plus finds the account stored with its digits. */
  lemma PlusPrefixedPhone(digits: string)
    requires digits != [] && AllDigits(digits)
    ensures LoginPhone("+" + digits) == digits
  {
    var name := "+" + digits;
    assert name[1..] == digits;
    assert WithoutPlus(name) == WithoutPlus(digits);
    NoPlusInDigits(digits);
    DigitsOfPhoneName(name);
  }

  lemma {:induction false} NoPlusInDigits(s: string)
    requires AllDigits(s)
    ensures WithoutPlus(s) == s
  {
    if s != [] {
      assert IsDigit(s[0]);
      assert AllDigits(s[1..]) by {
        forall i | 0 <= i < |s[1..]| ensures IsDigit(s[1..][i]) {
          assert s[1..][i] == s[i + 1];
        }
      }
      NoPlusInDigits(s[1..]);
    }
  }

  // ---------------------------------------------------------------------------
  // Verifying a one-time code
  // ---------------------------------------------------------------------------

  /** Codes are good for ten minutes. */
  const OtpLifetime := 600

  /** A code `verify_otp` accepts: unused, for this user, code and purpose, and young enough. */
  predicate OtpMatches(o: Otp, user: UserId, code: string, purpose: Purpose, now: int) {
    o.user == user && o.code == code && o.purpose == purpose && !o.isUsed && o.createdAt >= now - OtpLifetime
  }

  function OtpMatchCount(otps: seq<Otp>, user: UserId, code: string, purpose: Purpose, now: int): (n: nat)
    ensures n <= |otps|
  {
    if otps == [] then 0
    else OtpMatchCount(otps[..|otps| - 1], user, code, purpose, now)
         + (if OtpMatches(otps[|otps| - 1], user, code, purpose, now) then 1 else 0)
  }

  /** No code matches exactly when the count is zero. */
  lemma {:induction false} OtpMatchCountZero(otps: seq<Otp>, user: UserId, code: string, purpose: Purpose, now: int)
    ensures OtpMatchCount(otps, user, code, purpose, now) == 0
            <==> forall j | 0 <= j < |otps| :: !OtpMatches(otps[j], user, code, purpose, now)
    decreases |otps|
  {
    if otps != [] {
      var n := |otps| - 1;
      OtpMatchCountZero(otps[..n], user, code, purpose, now);
      assert forall j | 0 <= j < n :: otps[..n][j] == otps[j];
    }
  }

  function FindOtp(otps: seq<Otp>, user: UserId, code: string, purpose: Purpose, now: int): (r: Option<nat>)
    ensures r.Some? ==> r.value < |otps| && OtpMatches(otps[r.value], user, code, purpose, now)
    ensures r.None? ==> forall j | 0 <= j < |otps| :: !OtpMatches(otps[j], user, code, purpose, now)
  {
    if otps == [] then None
    else if OtpMatches(otps[0], user, code, purpose, now) then Some(0)
    else match FindOtp(otps[1..], user, code, purpose, now)
      case None => None
      case Some(k) => Some(k + 1)
  }

  /** The form errors of `OTPVerificationSerializer`, in field order. */
  function OtpFormErrors(accounts: seq<Account>, user: UserId, otp: string): (r: seq<FieldError>)
    ensures r == [] <==> FindAccount(accounts, user).Some? && CheckOtp(otp).Ok?
  {
    (if FindAccount(accounts, user).None? then [FieldError("user_id", "User not found")] else [])
    + (match CheckOtp(otp) case Err(e) => [FieldError("otp", e)] case Ok(_) => [])
  }

  /** The account after a code for `purpose` is accepted. */
  function Verified(a: Account, purpose: Purpose): (a': Account)
    ensures a'.isEmailVerified == (a.isEmailVerified || purpose == EmailVerification)
    ensures a'.isPhoneVerified == (a.isPhoneVerified || purpose == PhoneVerification)
    ensures a'.(isEmailVerified := a.isEmailVerified, isPhoneVerified := a.isPhoneVerified) == a
  {
    match purpose
    case EmailVerification => a.(isEmailVerified := true)
    case PhoneVerification => a.(isPhoneVerified := true)
    case PasswordReset => a
  }

  datatype OtpOutcome = OtpAccepted | OtpRefused(refusal: Refusal) | OtpLookupRaised

  /**
   * `verify_otp`: after the form checks, exactly one matching code must exist;
   * it is marked used and the account is flagged verified for the code's purpose.
   */
  method VerifyOtp(dir: Directory, user: UserId, otp: string, purpose: Purpose, now: int) returns (r: OtpOutcome)
    requires dir.Valid()
    modifies dir
    ensures dir.Valid()
    ensures OtpFormErrors(old(dir.accounts), user, otp) != [] ==>
      && r == OtpRefused(Refusal(400, ErrorLines(OtpFormErrors(old(dir.accounts), user, otp))))
      && dir.accounts == old(dir.accounts) && dir.otps == old(dir.otps)
    ensures OtpFormErrors(old(dir.accounts), user, otp) == [] ==>
      var code := CheckOtp(otp).value;
      var n := OtpMatchCount(old(dir.otps), user, code, purpose, now);
      && (n == 0 ==> r == OtpRefused(Refusal(400, ["Invalid or expired OTP"])))
      && (n > 1 ==> r == OtpLookupRaised)
      && (n != 1 ==> dir.accounts == old(dir.accounts) && dir.otps == old(dir.otps))
      && (n == 1 ==>
            && FindOtp(old(dir.otps), user, code, purpose, now).Some?
            && var k := FindOtp(old(dir.otps), user, code, purpose, now).value;
            var a := FindAccount(old(dir.accounts), user).value;
            && r == OtpAccepted
            && dir.otps == old(dir.otps)[k := old(dir.otps)[k].(isUsed := true)]
            && dir.accounts == old(dir.accounts)[a := Verified(old(dir.accounts)[a], purpose)])
  {
    var errors := OtpFormErrors(dir.accounts, user, otp);
    if errors != [] {
      return OtpRefused(Refusal(400, ErrorLines(errors)));
    }
    var code := CheckOtp(otp).value;
    var n := OtpMatchCount(dir.otps, user, code, purpose, now);
    if n == 0 {
      return OtpRefused(Refusal(400, ["Invalid or expired OTP"]));
    }
    if n > 1 {
      return OtpLookupRaised;
    }
    OtpMatchCountZero(dir.otps, user, code, purpose, now);
    var k := FindOtp(dir.otps, user, code, purpose, now).value;
    dir.otps := dir.otps[k := dir.otps[k].(isUsed := true)];
    var a := FindAccount(dir.accounts, user).value;
    dir.Replace(a, Verified(dir.accounts[a], purpose));
    r := OtpAccepted;
  }

  /** Once accepted, the same code is refused: it is now used. */
  lemma {:induction false} UsedCodeNoLongerMatches(otps: seq<Otp>, k: nat, user: UserId, code: string, purpose: Purpose, now: int)
    requires k < |otps| && OtpMatchCount(otps, user, code, purpose, now) == 1
    requires OtpMatches(otps[k], user, code, purpose, now)
    ensures OtpMatchCount(otps[k := otps[k].(isUsed := true)], user, code, purpose, now) == 0
  {
    OtpMatchCountUpdate(otps, k, user, code, purpose, now);
  }

  /** Marking row `k` used removes exactly its own match from the count. */
  lemma {:induction false} OtpMatchCountUpdate(otps: seq<Otp>, k: nat, user: UserId, code: string, purpose: Purpose, now: int)
    requires k < |otps|
    ensures OtpMatchCount(otps[k := otps[k].(isUsed := true)], user, code, purpose, now)
            == OtpMatchCount(otps, user, code, purpose, now) - (if OtpMatches(otps[k], user, code, purpose, now) then 1 else 0)
    decreases |otps|
  {
    var otps' := otps[k := otps[k].(isUsed := true)];
    var n := |otps| - 1;
    if k == n {
      assert otps'[..n] == otps[..n];
    } else {
      assert otps'[..n] == otps[..n][k := otps[k].(isUsed := true)];
      assert otps'[n] == otps[n];
      OtpMatchCountUpdate(otps[..n], k, user, code, purpose, now);
    }
  }

  /** A code older than ten minutes never matches. */
  lemma ExpiredCodeRefused(o: Otp, user: UserId, code: string, purpose: Purpose, now: int)
    requires o.createdAt < now - OtpLifetime
    ensures !OtpMatches(o, user, code, purpose, now)
  {
  }

  // ---------------------------------------------------------------------------
  // Setting a first password
  // ---------------------------------------------------------------------------

  /** The form errors of `SetPasswordSerializer`; the passwords are compared once both fields are valid. */
  function SetPasswordFormErrors(password: string, confirm: string): (r: seq<FieldError>)
    ensures r == [] <==> |Strip(password)| >= 8 && |Strip(confirm)| >= 8 && Strip(password) == Strip(confirm)
  {
    var fieldErrors := PasswordFieldErrors("password", password) + PasswordFieldErrors("confirm_password", confirm);
    if fieldErrors != [] then fieldErrors
    else match CheckConfirmation(SetPassword, Strip(password), Strip(confirm))
      case Some(e) => [e]
      case None => []
  }

  /**
   * The checks of `set_password`, in order: the form, the account, a verified
   * email, and no usable password yet. `Ok` carries the account's position.
   */
  function SetPasswordCheck(accounts: seq<Account>, user: UserId, password: string, confirm: string)
    : (r: Result<nat, Refusal>)
    ensures r.Ok? <==>
      && SetPasswordFormErrors(password, confirm) == []
      && FindAccount(accounts, user).Some?
      && accounts[FindAccount(accounts, user).value].isEmailVerified
      && accounts[FindAccount(accounts, user).value].password.None?
    ensures r.Ok? ==> r.value == FindAccount(accounts, user).value
    ensures SetPasswordFormErrors(password, confirm) == [] && FindAccount(accounts, user).None? ==>
      r == Err(Refusal(404, ["User not found"]))
  {
    var errors := SetPasswordFormErrors(password, confirm);
    if errors != [] then Err(Refusal(400, ErrorLines(errors)))
    else FirstPasswordAccount(accounts, user)
  }

  const PasswordAlreadySet := "Password has already been set. Use the password reset flow to change your password."

  /** The account checks of `set_password`, once the form is valid. */
  function FirstPasswordAccount(accounts: seq<Account>, user: UserId): (r: Result<nat, Refusal>)
    ensures r.Ok? <==>
      && FindAccount(accounts, user).Some?
      && accounts[FindAccount(accounts, user).value].isEmailVerified
      && accounts[FindAccount(accounts, user).value].password.None?
    ensures r.Ok? ==> r.value == FindAccount(accounts, user).value
    ensures FindAccount(accounts, user).None? ==> r == Err(Refusal(404, ["User not found"]))
  {
    match FindAccount(accounts, user)
    case None => Err(Refusal(404, ["User not found"]))
    case Some(a) =>
      if !accounts[a].isEmailVerified then Err(Refusal(400, ["Email is not verified."]))
      else if accounts[a].password.Some? then
        Err(Refusal(400, [PasswordAlreadySet]))
      else Ok(a)
  }

  /** `set_password`: when every check passes, the account's password is set. */
  method SetFirstPassword(dir: Directory, user: UserId, password: string, confirm: string)
    returns (r: Result<string, Refusal>)
    requires dir.Valid()
    modifies dir
    ensures dir.Valid() && dir.otps == old(dir.otps)
    ensures r.Err? <==> SetPasswordCheck(old(dir.accounts), user, password, confirm).Err?
    ensures r.Err? ==>
      r.error == SetPasswordCheck(old(dir.accounts), user, password, confirm).error && dir.accounts == old(dir.accounts)
    ensures r.Ok? ==>
      var a := SetPasswordCheck(old(dir.accounts), user, password, confirm).value;
      && r.value == "Password set successfully. You can now log in."
      && dir.accounts == old(dir.accounts)[a := old(dir.accounts)[a].(password := Some(Strip(password)))]
  {
    var check := SetPasswordCheck(dir.accounts, user, password, confirm);
    if check.Err? {
      return Err(check.error);
    }
    var a := check.value;
    var account := dir.accounts[a].(password := Some(Strip(password)));
    dir.Replace(a, account);
    r := Ok("Password set successfully. You can now log in.");
  }

  // ---------------------------------------------------------------------------
  // Signing in with Google
  // ---------------------------------------------------------------------------

  /** `email.split('@')[0]`: everything before the first '@'. */
  function LocalPart(email: string): (r: string)
    ensures r <= email && '@' !in r
  {
    if email == [] || email[0] == '@' then [] else [email[0]] + LocalPart(email[1..])
  }

  /** The names tried in turn: the base itself, then base1, base2, and so on. */
  function Candidate(base: string, counter: nat): string {
    if counter == 0 then base else base + NatToString(counter)
  }

  lemma CandidatesDistinct(base: string, i: nat, j: nat)
    requires i != j
    ensures Candidate(base, i) != Candidate(base, j)
  {
    if i != 0 && j != 0 && Candidate(base, i) == Candidate(base, j) {
      assert Candidate(base, i)[|base|..] == NatToString(i);
      assert Candidate(base, j)[|base|..] == NatToString(j);
      NatToStringInjective(i, j);
    }
  }

  /** Distinct names all taken are no more than the names taken. */
  lemma TriedBound(base: string, counter: nat, taken: set<string>)
    requires forall i | 0 <= i < counter :: Candidate(base, i) in taken
    ensures counter <= |taken|
  {
    var tried := Tried(base, counter);
    assert tried <= taken;
    TriedCount(base, counter);
    assert taken == tried + (taken - tried);
  }

  /** The first `counter` candidates. */
  function Tried(base: string, counter: nat): set<string> {
    set i | 0 <= i < counter :: Candidate(base, i)
  }

  lemma {:induction false} TriedCount(base: string, counter: nat)
    ensures |Tried(base, counter)| == counter
  {
    if counter > 0 {
      TriedCount(base, counter - 1);
      var before := Tried(base, counter - 1);
      assert Tried(base, counter) == before + {Candidate(base, counter - 1)};
      if Candidate(base, counter - 1) in before {
        var i :| 0 <= i < counter - 1 && Candidate(base, i) == Candidate(base, counter - 1);
        CandidatesDistinct(base, i, counter - 1);
      }
    }
  }

  /** The unique-username loop: the first candidate no account uses. */
  method UniqueUsername(taken: set<string>, base: string) returns (username: string)
    ensures username !in taken
    ensures exists c: nat :: username == Candidate(base, c) && forall i | 0 <= i < c :: Candidate(base, i) in taken
  {
    username := base;
    var counter := 1;
    while username in taken
      invariant counter >= 1 && username == Candidate(base, counter - 1)
      invariant forall i | 0 <= i < counter - 1 :: Candidate(base, i) in taken
      decreases |taken| - (counter - 1)
    {
      TriedBound(base, counter, taken);
      username := base + NatToString(counter);
      counter := counter + 1;
    }
  }

  function Usernames(accounts: seq<Account>): set<string> {
    set j | 0 <= j < |accounts| :: accounts[j].username
  }

  function FindByEmail(accounts: seq<Account>, email: string): (r: Option<nat>)
    ensures r.Some? ==> r.value < |accounts| && accounts[r.value].email == Some(email)
    ensures r.None? ==> !EmailTaken(accounts, email)
  {
    if accounts == [] then None
    else if accounts[0].email == Some(email) then Some(0)
    else match FindByEmail(accounts[1..], email)
      case None =>
        assert forall j | 1 <= j < |accounts| :: accounts[j] == accounts[1..][j - 1];
        None
      case Some(k) => Some(k + 1)
  }

  /** Some account other than the one at `except` holds the Google id. */
  predicate GoogleIdHeldByOther(accounts: seq<Account>, googleId: string, except: int) {
    exists j | 0 <= j < |accounts| && j != except :: accounts[j].googleId == Some(googleId)
  }

  /** The unique constraint of `google_id`: no two accounts hold the same id (null is not a value). */
  predicate GoogleIdsUnique(accounts: seq<Account>) {
    forall i, j | 0 <= i < j < |accounts| :: accounts[i].googleId.Some? ==> accounts[i].googleId != accounts[j].googleId
  }

  /**
   * What the sign-in answers: the account signed in, or the 500 of a save the
   * `google_id` unique constraint refuses (its message is the database's).
   */
  datatype GoogleOutcome = SignedIn(user: UserId) | GoogleIdConflict

  /**
   * `GoogleSignInView.post` once the token is verified: an account with the
   * email gets the Google id if it had none; otherwise a new account is made,
   * email verified, under the first free username derived from the email.
   * Either save fails, changing nothing, when another account already holds
   * the Google id.
   */
  method GoogleSignIn(dir: Directory, email: string, firstName: string, lastName: string, googleId: string)
    returns (r: GoogleOutcome)
    requires dir.Valid()
    modifies dir
    ensures dir.Valid() && dir.otps == old(dir.otps)
    ensures r.GoogleIdConflict? ==> dir.accounts == old(dir.accounts)
    ensures GoogleIdsUnique(old(dir.accounts)) ==> GoogleIdsUnique(dir.accounts)
    ensures match FindByEmail(old(dir.accounts), email)
      case Some(k) =>
        var a := old(dir.accounts)[k];
        && (a.googleId.GetOr("") != "" ==> r == SignedIn(a.id) && dir.accounts == old(dir.accounts))
        && (a.googleId.GetOr("") == "" ==>
              && (r.GoogleIdConflict? <==> GoogleIdHeldByOther(old(dir.accounts), googleId, k))
              && (r.SignedIn? ==> r.user == a.id && dir.accounts == old(dir.accounts)[k := a.(googleId := Some(googleId))]))
      case None =>
        && (r.GoogleIdConflict? <==> GoogleIdHeldByOther(old(dir.accounts), googleId, -1))
        && (r.SignedIn? ==>
              && |dir.accounts| == |old(dir.accounts)| + 1
              && dir.accounts[..|old(dir.accounts)|] == old(dir.accounts)
              && var a := dir.accounts[|old(dir.accounts)|];
                 && r.user == old(dir.nextUserId)
                 && a == Account(old(dir.nextUserId), a.username, Some(email), "", firstName, lastName,
                                 Some(""), true, false, true, false, Some(googleId))
                 && a.username !in Usernames(old(dir.accounts))
                 && exists c: nat ::
                      && a.username == Candidate(LocalPart(email), c)
                      && forall i | 0 <= i < c :: Candidate(LocalPart(email), i) in Usernames(old(dir.accounts)))
  {
    var found := FindByEmail(dir.accounts, email);
    match found {
      case Some(k) =>
        var account := dir.accounts[k];
        if account.googleId.None? || account.googleId == Some("") {
          if exists j | 0 <= j < |dir.accounts| && j != k :: dir.accounts[j].googleId == Some(googleId) {
            return GoogleIdConflict;
          }
          dir.Replace(k, account.(googleId := Some(googleId)));
        }
        r := SignedIn(account.id);
      case None =>
        if exists j | 0 <= j < |dir.accounts| :: dir.accounts[j].googleId == Some(googleId) {
          return GoogleIdConflict;
        }
        var username := UniqueUsername(Usernames(dir.accounts), LocalPart(email));
        var account := Account(dir.nextUserId, username, Some(email), "", firstName, lastName,
                               Some(""), true, false, true, false, Some(googleId));
        dir.Add(account);
        r := SignedIn(account.id);
    }
  }

  // ---------------------------------------------------------------------------
  // Updating an account
  // ---------------------------------------------------------------------------

  /** `update`: a user who is not a superuser may update only their own account. */
  function CheckUpdate(requester: UserId, isSuperuser: bool, target: UserId): (r: Option<Refusal>)
    ensures r.None? <==> isSuperuser || requester == target
    ensures r.Some? ==> r.value == Refusal(403, ["You can only update your own account"])
  {
    if !isSuperuser && requester != target then Some(Refusal(403, ["You can only update your own account"])) else None
  }
}
