/** The sign-up screen: validation of the five inputs, the account creation outcome and the
    profile record written for a new account. */
module Signup {
  import opened Wrappers
  import opened Text
  import opened Backend

  const USERNAME_MISSING := "Please enter a username."
  const EMAIL_MISSING := "Please enter an email."
  const PASSWORD_MISSING := "Please enter a password."
  const AGE_MISSING := "Please enter your age."
  const PHONE_MISSING := "Please enter your phone number."

  /** The message for each input, in the order the inputs are checked. */
  const MISSING_MESSAGES := [USERNAME_MISSING, EMAIL_MISSING, PASSWORD_MISSING, AGE_MISSING, PHONE_MISSING]

  const REGISTERED := "Registration successful."
  const EMAIL_EXISTS := "Email already exists."
  const AUTH_FAILED := "Authentication failed."

  /** The trimmed inputs, in the order they are checked. */
  function Fields(username: string, email: string, password: string, age: string, phoneNumber: string): seq<string> {
    [Trim(username), Trim(email), Trim(password), Trim(age), Trim(phoneNumber)]
  }

  /** What the screen decides before contacting the authentication service: the toast for the first
      empty input, or the trimmed values to register with. */
  datatype Check = Missing(message: string)
                 | Register(username: string, email: string, password: string, age: string, phoneNumber: string)

  /** The early-return chain of registerWithEmailPassword over the trimmed inputs: registration goes
      ahead exactly when none is empty, and otherwise the message is that of the first empty one in
      the order username, email, password, age, phone number. */
  function CheckTrimmed(u: string, e: string, p: string, a: string, ph: string): (r: Check)
    ensures r.Register? <==> u != [] && e != [] && p != [] && a != [] && ph != []
    ensures r.Register? ==> r == Register(u, e, p, a, ph)
  {
    if u == [] then Missing(USERNAME_MISSING)
    else if e == [] then Missing(EMAIL_MISSING)
    else if p == [] then Missing(PASSWORD_MISSING)
    else if a == [] then Missing(AGE_MISSING)
    else if ph == [] then Missing(PHONE_MISSING)
    else Register(u, e, p, a, ph)
  }

  /** The message of a rejection is the one of the first empty field in checking order. */
  lemma MissingIsFirstEmpty(u: string, e: string, p: string, a: string, ph: string)
    ensures var r, k := CheckTrimmed(u, e, p, a, ph), FirstEmpty([u, e, p, a, ph]);
      && (r.Missing? <==> k < 5)
      && (r.Missing? ==> r.message == MISSING_MESSAGES[k])
  {
    var f := [u, e, p, a, ph];
    var k := FirstEmpty(f);
    assert f[0] == u && f[1] == e && f[2] == p && f[3] == a && f[4] == ph;
    if u == [] {
      assert k == 0;
    } else if e == [] {
      assert k == 1;
    } else if p == [] {
      assert k == 2;
    } else if a == [] {
      assert k == 3;
    } else if ph == [] {
      assert k == 4;
    }
  }

  /** registerWithEmailPassword's validation: all five inputs are trimmed before any check. */
  function Validate(username: string, email: string, password: string, age: string, phoneNumber: string): Check {
    CheckTrimmed(Trim(username), Trim(email), Trim(password), Trim(age), Trim(phoneNumber))
  }

  /** Registration goes ahead exactly when no input is blank, that is, empty or made of characters
      trim removes. */
  lemma ValidateBlank(username: string, email: string, password: string, age: string, phoneNumber: string)
    ensures Validate(username, email, password, age, phoneNumber).Register? <==>
              !IsBlank(username) && !IsBlank(email) && !IsBlank(password) && !IsBlank(age) && !IsBlank(phoneNumber)
  {
  }

  /** Validation trims, so inputs that were trimmed already are decided the same way. */
  lemma ValidateOfTrimmed(username: string, email: string, password: string, age: string, phoneNumber: string)
    ensures Validate(Trim(username), Trim(email), Trim(password), Trim(age), Trim(phoneNumber))
         == Validate(username, email, password, age, phoneNumber)
  {
    TrimIdempotent(username);
    TrimIdempotent(email);
    TrimIdempotent(password);
    TrimIdempotent(age);
    TrimIdempotent(phoneNumber);
  }

  /** The outcome of createUserWithEmailAndPassword. */
  datatype AuthResult = AuthSucceeded | UserCollision | OtherFailure

  /** What the completion listener does: a failure toast, or the success toast (REGISTERED) with
      the profile write saveUserDetails makes, if any, followed by the move to the homepage. */
  datatype Attempt = Failed(message: string) | Registered(saved: Option<Write>)

  /** What a press of the sign-up button leads to. */
  datatype Registration = Rejected(message: string) | Attempted(email: string, password: string, result: Attempt)

  /** saveUserDetails: nothing is written when the screen is detached or nobody is signed in;
      otherwise the four profile values go to Users/uid. The password is not among them. */
  method SaveUserDetails(attached: bool, current: Option<Account>, username: string, email: string,
                         age: string, phoneNumber: string) returns (w: Option<Write>)
    ensures w.None? <==> !attached || current.None?
    ensures w.Some? ==> IsUserWrite(w.value, current.value.uid, Some(username), Some(email), Some(age), Some(phoneNumber))
    ensures w.Some? ==> "password" !in w.value.record
  {
    if !attached || current.None? {
      return None;
    }
    var userMap := PutUserDetails(Some(username), Some(email), Some(age), Some(phoneNumber));
    return Some(Write(["Users", current.value.uid], userMap));
  }

  /** The registration that follows a validation result, given the answer of the authentication
      service, whether the screen is still attached and the account then signed in. */
  method Complete(check: Check, auth: AuthResult, attached: bool, current: Option<Account>) returns (r: Registration)
    ensures check.Missing? <==> r.Rejected?
    ensures check.Missing? ==> r.message == check.message
    ensures check.Register? ==> r.email == check.email && r.password == check.password
    ensures r.Attempted? ==> (r.result.Registered? <==> auth == AuthSucceeded)
    ensures r.Attempted? && auth == UserCollision ==> r.result == Failed(EMAIL_EXISTS)
    ensures r.Attempted? && auth == OtherFailure ==> r.result == Failed(AUTH_FAILED)
    ensures r.Attempted? && r.result.Registered? ==> (r.result.saved.None? <==> !attached || current.None?)
    ensures r.Attempted? && r.result.Registered? && r.result.saved.Some? ==>
              && current.Some?
              && IsUserWrite(r.result.saved.value, current.value.uid, Some(check.username), Some(check.email),
                             Some(check.age), Some(check.phoneNumber))
  {
    if check.Missing? {
      return Rejected(check.message);
    }
    match auth {
      case AuthSucceeded =>
        var saved := SaveUserDetails(attached, current, check.username, check.email, check.age, check.phoneNumber);
        r := Attempted(check.email, check.password, Registered(saved));
      case UserCollision =>
        r := Attempted(check.email, check.password, Failed(EMAIL_EXISTS));
      case OtherFailure =>
        r := Attempted(check.email, check.password, Failed(AUTH_FAILED));
    }
  }

  /** The five input fields of the screen. */
  class SignupForm {
    var usernameText: string
    var emailText: string
    var passwordText: string
    var ageText: string
    var phoneNumberText: string

    function Texts(): seq<string>
      reads this
    {
      [usernameText, emailText, passwordText, ageText, phoneNumberText]
    }

    /** A screen whose fields hold what the user typed. */
    constructor (username: string, email: string, password: string, age: string, phoneNumber: string)
      ensures Texts() == [username, email, password, age, phoneNumber]
    {
      usernameText, emailText, passwordText, ageText, phoneNumberText := username, email, password, age, phoneNumber;
    }

    /** registerWithEmailPassword: the validation of the five fields, then Complete. The
        credentials passed to the service are the trimmed email and password; only a success clears
        the five fields, and the profile it saves holds the trimmed values read before that. */
    method RegisterWithEmailPassword(auth: AuthResult, attached: bool, current: Option<Account>) returns (r: Registration)
      modifies this
      ensures var check := Validate(old(usernameText), old(emailText), old(passwordText), old(ageText), old(phoneNumberText));
        && (check.Missing? <==> r.Rejected?)
        && (check.Missing? ==> r.message == check.message)
        && (check.Register? ==> r.email == check.email && r.password == check.password)
        && (r.Attempted? && r.result.Registered? && r.result.saved.Some? ==>
              && current.Some?
              && IsUserWrite(r.result.saved.value, current.value.uid, Some(check.username), Some(check.email),
                             Some(check.age), Some(check.phoneNumber)))
      ensures r.Attempted? ==> (r.result.Registered? <==> auth == AuthSucceeded)
      ensures r.Attempted? && auth == UserCollision ==> r.result == Failed(EMAIL_EXISTS)
      ensures r.Attempted? && auth == OtherFailure ==> r.result == Failed(AUTH_FAILED)
      ensures r.Attempted? && r.result.Registered? ==> (r.result.saved.None? <==> !attached || current.None?)
      ensures r.Attempted? && r.result.Registered? ==>
                usernameText == [] && emailText == [] && passwordText == [] && ageText == [] && phoneNumberText == []
      ensures !(r.Attempted? && r.result.Registered?) ==> Texts() == old(Texts())
    {
      var check := Validate(usernameText, emailText, passwordText, ageText, phoneNumberText);
      r := Complete(check, auth, attached, current);
      if r.Attempted? && r.result.Registered? {
        ClearFields();
      }
    }

    /** The five setText("") calls of a successful registration. */
    method ClearFields()
      modifies this
      ensures usernameText == [] && emailText == [] && passwordText == [] && ageText == [] && phoneNumberText == []
    {
      usernameText, emailText, passwordText, ageText, phoneNumberText := "", "", "", "", "";
    }
  }
}
