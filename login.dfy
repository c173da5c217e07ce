/** The sign-in screen: the email and password check, the password-reset dialog, the federated
    sign-in branches and the profile record a first federated sign-in writes. */
module Login {
  import opened Wrappers
  import opened Text
  import opened Backend

  const EMAIL_REQUIRED := "Email is required"
  const PASSWORD_REQUIRED := "Password is required"
  const AUTH_FAILED := "Authentication failed."
  const ENTER_EMAIL := "Please enter your email"
  const RESET_SENT := "Password reset email sent."
  const RESET_FAILED := "Failed to send reset email."
  const FIREBASE_AUTH_FAILED := "Firebase Authentication failed."
  const USER_IS_NULL := "User is null. Unable to save details."

  /** The input fields an error can be set on. */
  datatype Field = EmailField | PasswordField | ResetEmailField

  /** What the user sees next: the homepage, a toast, an error on a field, or the dialog asking a
      new federated user for age and phone number. */
  datatype Screen = Homepage | Toast(message: string) | FieldError(field: Field, message: string)
                  | ExtraInfoDialog(user: Account)

  // ---------------------------------------------------------------- email and password

  /** The decision of loginUser before contacting the service: an error on one field, or the
      credentials to sign in with. */
  datatype LoginCheck = Invalid(field: Field, message: string) | SignIn(email: string, password: string)

  /** loginUser's early returns on the trimmed inputs: the password is looked at only when the
      email is non-empty, and sign-in is attempted with them exactly when neither is empty. */
  function CheckTrimmed(e: string, p: string): (r: LoginCheck)
    ensures r == Invalid(EmailField, EMAIL_REQUIRED) <==> e == []
    ensures r == Invalid(PasswordField, PASSWORD_REQUIRED) <==> e != [] && p == []
    ensures r.SignIn? <==> e != [] && p != []
    ensures r.SignIn? ==> r == SignIn(e, p)
  {
    if e == [] then Invalid(EmailField, EMAIL_REQUIRED)
    else if p == [] then Invalid(PasswordField, PASSWORD_REQUIRED)
    else SignIn(e, p)
  }

  /** loginUser trims both inputs before checking them. */
  function CheckLogin(email: string, password: string): LoginCheck {
    CheckTrimmed(Trim(email), Trim(password))
  }

  /** Sign-in is attempted exactly when neither input is blank. */
  lemma SignInIffNotBlank(email: string, password: string)
    ensures CheckLogin(email, password).SignIn? <==> !IsBlank(email) && !IsBlank(password)
  {
  }

  /** With a blank email the password does not matter. */
  lemma PasswordIgnoredWithoutEmail(email: string, password1: string, password2: string)
    requires IsBlank(email)
    ensures CheckLogin(email, password1) == CheckLogin(email, password2) == Invalid(EmailField, EMAIL_REQUIRED)
  {
  }

  /** Inputs that were trimmed already are decided the same way. */
  lemma CheckLoginOfTrimmed(email: string, password: string)
    ensures CheckLogin(Trim(email), Trim(password)) == CheckLogin(email, password)
  {
    TrimIdempotent(email);
    TrimIdempotent(password);
  }

  /** loginUser, given whether signInWithEmailAndPassword succeeds: the homepage after a
      successful attempt, the failure toast after a failed one, and the field error otherwise. */
  function LoginUser(email: string, password: string, signInSucceeds: bool): (r: Screen)
    ensures r == Homepage <==> CheckLogin(email, password).SignIn? && signInSucceeds
    ensures r == Toast(AUTH_FAILED) <==> CheckLogin(email, password).SignIn? && !signInSucceeds
    ensures r.FieldError? <==> CheckLogin(email, password).Invalid?
    ensures r.FieldError? ==> CheckLogin(email, password) == Invalid(r.field, r.message)
  {
    match CheckLogin(email, password)
    case Invalid(field, message) => FieldError(field, message)
    case SignIn(_, _) => if signInSucceeds then Homepage else Toast(AUTH_FAILED)
  }

  // ---------------------------------------------------------------- password reset

  /** The Reset button of the dialog: the address sendPasswordResetEmail is called with, or None
      when the trimmed input is empty and the field error is set instead. */
  function ResetRequest(email: string): (r: Option<string>)
    ensures r.Some? <==> !IsBlank(email)
    ensures r.Some? ==> r.value == Trim(email) && r.value != []
  {
    var e := Trim(email);
    if e != [] then Some(e) else None
  }

  /** What the dialog shows, given whether the reset email is sent. */
  function ResetPassword(email: string, sent: bool): (r: Screen)
    ensures r == FieldError(ResetEmailField, ENTER_EMAIL) <==> ResetRequest(email).None?
    ensures r == Toast(RESET_SENT) <==> ResetRequest(email).Some? && sent
    ensures r == Toast(RESET_FAILED) <==> ResetRequest(email).Some? && !sent
  {
    match ResetRequest(email)
    case None => FieldError(ResetEmailField, ENTER_EMAIL)
    case Some(_) => if sent then Toast(RESET_SENT) else Toast(RESET_FAILED)
  }

  // ---------------------------------------------------------------- federated sign-in

  /** firebaseAuthWithGoogle followed by checkUserExists, given whether the credential sign-in
      succeeds, the account then signed in and whether Users/uid exists: a returning user goes to
      the homepage, a new one is asked for more details. */
  function AfterFederatedSignIn(succeeded: bool, current: Option<Account>, recordExists: bool): (r: Screen)
    ensures !succeeded ==> r == Toast(FIREBASE_AUTH_FAILED)
    ensures succeeded && current.None? ==> r == Toast(USER_IS_NULL)
    ensures succeeded && current.Some? ==> (r == Homepage <==> recordExists)
    ensures succeeded && current.Some? && !recordExists ==> r == ExtraInfoDialog(current.value)
    ensures r == Homepage || r.Toast? || r.ExtraInfoDialog?
  {
    if !succeeded then Toast(FIREBASE_AUTH_FAILED)
    else if current.None? then Toast(USER_IS_NULL)
    else if recordExists then Homepage
    else ExtraInfoDialog(current.value)
  }

  /** The Save button of the extra-details dialog followed by saveUserDetails: the profile of the
      account, with its display name as username, its email and the trimmed age and phone, goes
      to Users/uid, and the homepage opens. */
  method SaveUserDetails(user: Account, age: string, phone: string) returns (w: Write, next: Screen)
    ensures IsUserWrite(w, user.uid, user.displayName, user.email, Some(Trim(age)), Some(Trim(phone)))
    ensures next == Homepage
  {
    var a, p := Trim(age), Trim(phone);
    var userMap := PutUserDetails(user.displayName, user.email, Some(a), Some(p));
    w := Write(["Users", user.uid], userMap);
    next := Homepage;
  }
}
