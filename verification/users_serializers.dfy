/**
 * The account forms: registration (plain and through Telegram), the password
 * confirmations, the one-time code, price settings, and how a profile is shown.
 *
 * Text fields are read the way the form library reads them by default:
 * surrounding whitespace is stripped before any rule sees them.
 */
module UsersSerializers {
  import opened Wrappers
  import opened Text
  import opened UsersModels

  /** A form error: the field it belongs to and its message. */
  datatype FieldError = FieldError(field: string, message: string)

  // ---------------------------------------------------------------------------
  // Phone numbers
  // ---------------------------------------------------------------------------

  const PhoneLengthError := "Phone number must be between 10 and 15 digits"
  const PhoneTakenError := "A user with this phone number already exists."

  /**
   * `validate_phone_number`: only the digits are kept; 10 to 15 of them, not
   * already some account's number. The digits are what is stored.
   */
  function ValidatePhone(accounts: seq<Account>, value: string): (r: Result<string, string>)
    ensures r.Ok? <==> 10 <= |DigitsOnly(value)| <= 15 && !PhoneTaken(accounts, DigitsOnly(value))
    ensures r.Ok? ==> r.value == DigitsOnly(value) && AllDigits(r.value) && 10 <= |r.value| <= 15
    ensures r.Err? ==> r.error == if 10 <= |DigitsOnly(value)| <= 15 then PhoneTakenError else PhoneLengthError
  {
    var phone := DigitsOnly(value);
    if |phone| < 10 || |phone| > 15 then Err(PhoneLengthError)
    else if PhoneTaken(accounts, phone) then Err(PhoneTakenError)
    else Ok(phone)
  }

  /** `create` normalises the validated number again, which leaves it as it is. */
  lemma ValidPhoneIsNormal(accounts: seq<Account>, value: string)
    requires ValidatePhone(accounts, value).Ok?
    ensures DigitsOnly(ValidatePhone(accounts, value).value) == ValidatePhone(accounts, value).value
  {
    DigitsOnlyIdempotent(value);
  }

  /** Punctuation and a leading plus do not matter: the same digits validate the same way. */
  lemma PhoneFormattingIgnored(accounts: seq<Account>, a: string, b: string)
    requires DigitsOnly(a) == DigitsOnly(b)
    ensures ValidatePhone(accounts, a) == ValidatePhone(accounts, b)
  {
  }

  // ---------------------------------------------------------------------------
  // Password confirmation, in every form that asks for one
  // ---------------------------------------------------------------------------

  datatype PasswordForm = PasswordChange | ResetPassword | SetPassword | TelegramRegistration

  /** The error each form reports when the two passwords differ. */
  function MismatchError(form: PasswordForm): FieldError {
    match form
    case PasswordChange => FieldError("non_field_errors", "New passwords don't match")
    case _ => FieldError("confirm_password", "Passwords don't match")
  }

  function CheckConfirmation(form: PasswordForm, password: string, confirm: string): (r: Option<FieldError>)
    ensures r.None? <==> password == confirm
    ensures r.Some? ==> r.value == MismatchError(form)
  {
    if password != confirm then Some(MismatchError(form)) else None
  }

  const TooShortPassword := "Ensure this field has at least 8 characters."

  /** A `min_length=8` password field: a blank value gets the blank message, a short one the length message. */
  function PasswordFieldErrors(field: string, value: string): (r: seq<FieldError>)
    ensures r == [] <==> |Strip(value)| >= 8
    ensures Strip(value) == [] ==> r == [FieldError(field, BlankError)]
    ensures 0 < |Strip(value)| < 8 ==> r == [FieldError(field, TooShortPassword)]
  {
    if Strip(value) == [] then [FieldError(field, BlankError)]
    else if |Strip(value)| < 8 then [FieldError(field, TooShortPassword)]
    else []
  }

  // ---------------------------------------------------------------------------
  // Registration
  // ---------------------------------------------------------------------------

  const BlankError := "This field may not be blank."
  const PhoneMaxLengthError := "Ensure this field has no more than 15 characters."
  /** The messages of the unique validators the model's `email` and `username` columns give their fields. */
  const EmailUniqueError := "custom user with this email already exists."
  const UsernameUniqueError := "A user with that username already exists."
  const EmailTakenError := "A user with this email already exists."

  /**
   * The `phone_number` field: the text is stripped, may not be blank and must
   * fit the column's 15 characters before `validate_phone_number` sees it.
   */
  function PhoneFieldError(accounts: seq<Account>, phone: string): (r: Option<string>)
    ensures r.None? <==> Strip(phone) != [] && |Strip(phone)| <= 15 && ValidatePhone(accounts, Strip(phone)).Ok?
    ensures Strip(phone) != [] && |Strip(phone)| > 15 ==> r == Some(PhoneMaxLengthError)
  {
    var value := Strip(phone);
    if value == [] then Some(BlankError)
    else if |value| > 15 then Some(PhoneMaxLengthError)
    else match ValidatePhone(accounts, value)
      case Err(e) => Some(e)
      case Ok(_) => None
  }

  /**
   * The field errors of `UserRegistrationSerializer`, in field order. The
   * unique validator of each unique column runs before the serializer's own
   * `validate_email` and `validate_username`, so a taken email or username is
   * reported with the validator's message and those two methods never refuse.
   */
  function RegistrationErrors(accounts: seq<Account>, email: string, username: string, phone: string)
    : (r: seq<FieldError>)
    ensures r == [] <==> !EmailTaken(accounts, email) && !UsernameTaken(accounts, username) && PhoneFieldError(accounts, phone).None?
    ensures EmailTaken(accounts, email) ==> FieldError("email", EmailUniqueError) in r
    ensures UsernameTaken(accounts, username) ==> FieldError("username", UsernameUniqueError) in r
    ensures Strip(phone) != [] && |Strip(phone)| > 15 ==> FieldError("phone_number", PhoneMaxLengthError) in r
  {
    var emailErrors := if EmailTaken(accounts, email) then [FieldError("email", EmailUniqueError)] else [];
    var usernameErrors := if UsernameTaken(accounts, username) then [FieldError("username", UsernameUniqueError)] else [];
    var phoneErrors := match PhoneFieldError(accounts, phone) case Some(e) => [FieldError("phone_number", e)] case None => [];
    assert usernameErrors != [] ==> usernameErrors[0] == (emailErrors + usernameErrors + phoneErrors)[|emailErrors|];
    assert phoneErrors != [] ==> phoneErrors[0] == (emailErrors + usernameErrors + phoneErrors)[|emailErrors| + |usernameErrors|];
    emailErrors + usernameErrors + phoneErrors
  }

  /**
   * Why a registration was refused: form errors (400), or a name the request
   * left out, which `create` reads as a required key (a KeyError, answered
   * with a server error after validation passed).
   */
  datatype RegisterError = Invalid(errors: seq<FieldError>) | MissingKey(key: string)

  /** The first of the two optional name fields `create` reads and the request left out. */
  function MissingName(firstName: Option<string>, lastName: Option<string>): Option<string> {
    if firstName.None? then Some("first_name") else if lastName.None? then Some("last_name") else None
  }

  /** `UserRegistrationSerializer.create`: the account starts with an unusable password and nothing verified. */
  method Register(dir: Directory, email: string, username: string, firstName: Option<string>, lastName: Option<string>,
                  phone: string)
    returns (r: Result<Account, RegisterError>)
    requires dir.Valid()
    modifies dir
    ensures dir.Valid() && dir.otps == old(dir.otps)
    ensures r.Err? ==> dir.accounts == old(dir.accounts)
    ensures r.Err? && r.error.Invalid? <==> RegistrationErrors(old(dir.accounts), email, username, phone) != []
    ensures r.Err? && r.error.Invalid? ==> r.error.errors == RegistrationErrors(old(dir.accounts), email, username, phone)
    ensures r.Err? && r.error.MissingKey? <==>
      RegistrationErrors(old(dir.accounts), email, username, phone) == [] && (firstName.None? || lastName.None?)
    ensures r.Ok? ==>
      && r.value == Account(old(dir.nextUserId), username, Some(email), DigitsOnly(Strip(phone)), firstName.value, lastName.value,
                            None, true, false, false, false, None)
      && ValidatePhone(old(dir.accounts), Strip(phone)) == Ok(r.value.phoneNumber)
      && dir.accounts == old(dir.accounts) + [r.value]
  {
    var errors := RegistrationErrors(dir.accounts, email, username, phone);
    if errors != [] {
      return Err(Invalid(errors));
    }
    var missing := MissingName(firstName, lastName);
    if missing.Some? {
      return Err(MissingKey(missing.value));
    }
    var account := Account(dir.nextUserId, username, Some(email), DigitsOnly(Strip(phone)), firstName.value, lastName.value,
                           None, true, false, false, false, None);
    dir.Add(account);
    r := Ok(account);
  }

  /**
   * The errors of `TelegramUserRegistrationSerializer`: the field errors in
   * field order; the passwords are compared only once every field is valid.
   * The email field is declared on the form, so it has no unique validator:
   * `validate_email` checks it, and only when one is given. The username keeps
   * its column's unique validator.
   */
  function TelegramErrors(accounts: seq<Account>, username: string, email: Option<string>, phone: string,
                          password: string, confirm: string): (r: seq<FieldError>)
    ensures r == [] <==>
      && !UsernameTaken(accounts, username)
      && !(email.Some? && email.value != "" && EmailTaken(accounts, email.value))
      && PhoneFieldError(accounts, phone).None?
      && |Strip(password)| >= 8 && |Strip(confirm)| >= 8
      && Strip(password) == Strip(confirm)
    ensures UsernameTaken(accounts, username) ==> r[0] == FieldError("username", UsernameUniqueError)
  {
    var fieldErrors :=
      (if UsernameTaken(accounts, username) then [FieldError("username", UsernameUniqueError)] else [])
      + (if email.Some? && email.value != "" && EmailTaken(accounts, email.value)
         then [FieldError("email", EmailTakenError)] else [])
      + (match PhoneFieldError(accounts, phone) case Some(e) => [FieldError("phone_number", e)] case None => [])
      + PasswordFieldErrors("password", password)
      + PasswordFieldErrors("confirm_password", confirm);
    if fieldErrors != [] then fieldErrors
    else match CheckConfirmation(TelegramRegistration, Strip(password), Strip(confirm))
      case Some(e) => [e]
      case None => []
  }

  /**
   * The account `TelegramUserRegistrationSerializer.create` makes: the phone
   * counts as verified, a missing or blank email is stored as null, and the
   * password is usable.
   */
  function TelegramAccount(id: UserId, firstName: string, lastName: string, username: string,
                           email: Option<string>, phone: string, password: string): (a: Account)
    ensures a.id == id && a.username == username && a.phoneNumber == DigitsOnly(phone)
    ensures a.isPhoneVerified && !a.isEmailVerified && a.isActive && !a.isSuperuser
    ensures a.email.None? <==> email.None? || email.value == ""
    ensures a.email.Some? ==> a.email == email
    ensures a.password == Some(Strip(password))
  {
    var stored := if email.Some? && email.value != "" then email else None;
    Account(id, username, stored, DigitsOnly(phone), firstName, lastName, Some(Strip(password)), true, false, false, true, None)
  }

  const NullEmailError := "IntegrityError: the email column does not accept null"

  /**
   * The insert `create` performs, as written: the email column is NOT NULL,
   * so an account without an email is refused by the database.
   */
  function TelegramInsertAsWritten(a: Account): (r: Result<Account, string>)
    ensures r.Ok? <==> a.email.Some?
    ensures r.Ok? ==> r.value == a
    ensures r.Err? ==> r.error == NullEmailError
  {
    if a.email.None? then Err(NullEmailError) else Ok(a)
  }

  /**
   * The form accepts a Telegram registration without an email, and the
   * insert as written then fails: every such registration ends in a server
   * error, although the form declares the email optional.
   */
  lemma TelegramWithoutEmailFails(accounts: seq<Account>, id: UserId, firstName: string, lastName: string,
                                  username: string, email: Option<string>, phone: string, password: string, confirm: string)
    requires TelegramErrors(accounts, username, email, phone, password, confirm) == []
    requires email.None? || email.value == ""
    ensures TelegramInsertAsWritten(TelegramAccount(id, firstName, lastName, username, email, phone, password)).Err?
  {
  }

  /**
   * `TelegramUserRegistrationSerializer.create` as intended: the phone counts
   * as verified, a missing or blank email is stored as null, and the password
   * is usable. A name the request left out is read as a required key.
   */
  method RegisterWithTelegram(dir: Directory, firstName: Option<string>, lastName: Option<string>, username: string,
                              email: Option<string>, phone: string, password: string, confirm: string)
    returns (r: Result<Account, RegisterError>)
    requires dir.Valid()
    modifies dir
    ensures dir.Valid() && dir.otps == old(dir.otps)
    ensures r.Err? ==> dir.accounts == old(dir.accounts)
    ensures r.Err? && r.error.Invalid? <==> TelegramErrors(old(dir.accounts), username, email, phone, password, confirm) != []
    ensures r.Err? && r.error.Invalid? ==> r.error.errors == TelegramErrors(old(dir.accounts), username, email, phone, password, confirm)
    ensures r.Err? && r.error.MissingKey? <==>
      TelegramErrors(old(dir.accounts), username, email, phone, password, confirm) == [] && (firstName.None? || lastName.None?)
    ensures r.Ok? ==>
      && r.value == TelegramAccount(old(dir.nextUserId), firstName.value, lastName.value, username, email, Strip(phone), password)
      && ValidatePhone(old(dir.accounts), Strip(phone)) == Ok(r.value.phoneNumber)
      && dir.accounts == old(dir.accounts) + [r.value]
  {
    var errors := TelegramErrors(dir.accounts, username, email, phone, password, confirm);
    if errors != [] {
      return Err(Invalid(errors));
    }
    var missing := MissingName(firstName, lastName);
    if missing.Some? {
      return Err(MissingKey(missing.value));
    }
    var account := TelegramAccount(dir.nextUserId, firstName.value, lastName.value, username, email, Strip(phone), password);
    dir.Add(account);
    r := Ok(account);
  }

  // ---------------------------------------------------------------------------
  // One-time codes
  // ---------------------------------------------------------------------------

  /**
   * The `otp` field: not blank, exactly 6 characters, digits only, checked in
   * that order.
   */
  function CheckOtp(value: string): (r: Result<string, string>)
    ensures r.Ok? <==> |Strip(value)| == 6 && AllDigits(Strip(value))
    ensures r.Ok? ==> r.value == Strip(value)
  {
    var code := Strip(value);
    if code == [] then Err("This field may not be blank.")
    else if |code| < 6 then Err("Ensure this field has at least 6 characters.")
    else if |code| > 6 then Err("Ensure this field has no more than 6 characters.")
    else if !AllDigits(code) then Err("OTP must contain only digits")
    else Ok(code)
  }

  /** Six digits pass, with or without whitespace around them. */
  lemma SixDigitsAccepted(code: string)
    requires |code| == 6 && AllDigits(code)
    ensures CheckOtp(code) == Ok(code)
    ensures CheckOtp(" " + code) == Ok(code)
  {
    assert IsDigit(code[0]) && IsDigit(code[5]);
    StripUnchanged(code);
    assert " " + code == [' '] + code;
    StripSkipsSpace(' ', code);
  }

  // ---------------------------------------------------------------------------
  // Price settings
  // ---------------------------------------------------------------------------

  /**
   * `TravelPriceSettingMutationSerializer.validate`: the given values are
   * checked in order and the first one not above zero is reported.
   */
  method ValidatePriceSettings(attrs: seq<(string, real)>) returns (r: Result<seq<(string, real)>, FieldError>)
    ensures r.Ok? <==> forall i | 0 <= i < |attrs| :: attrs[i].1 > 0.0
    ensures r.Ok? ==> r.value == attrs
    ensures r.Err? ==> exists i | 0 <= i < |attrs| ::
      && attrs[i].1 <= 0.0 && r.error == FieldError(attrs[i].0, "Value has to be greater than 0")
      && forall j | 0 <= j < i :: attrs[j].1 > 0.0
  {
    var i := 0;
    while i < |attrs|
      invariant 0 <= i <= |attrs|
      invariant forall j | 0 <= j < i :: attrs[j].1 > 0.0
    {
      var (key, value) := attrs[i];
      if value <= 0.0 {
        return Err(FieldError(key, "Value has to be greater than 0"));
      }
      i := i + 1;
    }
    r := Ok(attrs);
  }

  // ---------------------------------------------------------------------------
  // Showing a profile
  // ---------------------------------------------------------------------------

  /** `get_full_name`: first and last name with a space between, stripped. */
  function FullName(firstName: string, lastName: string): (r: string)
    ensures |r| <= |firstName| + 1 + |lastName|
    ensures r != [] ==> !IsSpace(r[0]) && !IsSpace(r[|r| - 1])
  {
    Strip(firstName + " " + lastName)
  }

  lemma FullNameOfTwoNames(firstName: string, lastName: string)
    requires firstName != [] && !IsSpace(firstName[0]) && !IsSpace(firstName[|firstName| - 1])
    requires lastName != [] && !IsSpace(lastName[0]) && !IsSpace(lastName[|lastName| - 1])
    ensures FullName(firstName, lastName) == firstName + " " + lastName
  {
    var s := firstName + " " + lastName;
    assert s[0] == firstName[0] && s[|s| - 1] == lastName[|lastName| - 1];
    StripUnchanged(s);
  }

  /** Without a first name the space disappears. */
  lemma FullNameWithoutFirst(lastName: string)
    ensures FullName("", lastName) == Strip(lastName)
  {
    assert "" + " " + lastName == [' '] + lastName;
    StripSkipsSpace(' ', lastName);
  }

  /** The keys a viewer who is neither the owner nor a superuser does not get. */
  const SensitiveFields: seq<string> := [
    "front_side_identity_card_url", "back_side_identity_card_url", "issue_country", "issue_country_id",
    "selfie_photo_url", "notification_setting", "preferred_payment_method", "referral_code_used",
    "device_os", "app_version", "ip_address_last_login", "device_fingerprint", "two_factor_enabled", "kyc_method"]

  /** Who asks for the profile: nobody (no request in the context), or a user. */
  datatype Viewer = NoRequest | Requester(isOwner: bool, isSuperuser: bool)

  predicate SeesEverything(viewer: Viewer) {
    viewer.NoRequest? || viewer.isOwner || viewer.isSuperuser
  }

  /**
   * `ProfileSerializer.to_representation`: for other users the sensitive keys
   * are popped one by one; every other key and value is kept.
   */
  method Represent(representation: map<string, string>, viewer: Viewer) returns (r: map<string, string>)
    ensures SeesEverything(viewer) ==> r == representation
    ensures !SeesEverything(viewer) ==>
      r == map k | k in representation && k !in SensitiveFields :: representation[k]
  {
    r := representation;
    if SeesEverything(viewer) {
      return;
    }
    var i := 0;
    while i < |SensitiveFields|
      invariant 0 <= i <= |SensitiveFields|
      invariant r == map k | k in representation && k !in SensitiveFields[..i] :: representation[k]
    {
      var field := SensitiveFields[i];
      assert SensitiveFields[..i + 1] == SensitiveFields[..i] + [field];
      r := r - {field};
      i := i + 1;
    }
    assert SensitiveFields[..i] == SensitiveFields;
  }
}
