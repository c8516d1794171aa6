/** client/src/components/Login.js: the login form, the PIN keypad, the PIN auto-submit
    and what a failed attempt leaves behind. The server's reply is an input: a
    response, or None when the request failed without one. The 500 ms flash reset is
    a separate step, ClearFlash. */
module LoginComponent {
  import opened Wrappers
  import opened Server
  import opened Auth

  const PinLength: nat := 4
  const DefaultLoginError: string := "Incorrect credentials, please try again"

  datatype LoginForm = LoginForm(username: string, password: string, pin: string)

  /** The text inputs that `handleChange` updates by name. */
  datatype FormField = Username | Password

  /** The PIN after a keypad press: the digit is appended only below four characters. */
  function PinAfterPress(pin: string, digit: char): (r: string)
    ensures |pin| < PinLength ==> r == pin + [digit]
    ensures |pin| >= PinLength ==> r == pin
    ensures |pin| <= PinLength ==> |r| <= PinLength
  {
    if |pin| < PinLength then pin + [digit] else pin
  }

  /** The PIN after pressing `digits` in order. */
  function PressAll(pin: string, digits: string): string
    decreases |digits|
  {
    if digits == [] then pin else PressAll(PinAfterPress(pin, digits[0]), digits[1..])
  }

  /** Pressing keys one after another keeps the first four and drops the rest. */
  lemma {:induction false} PressesKeepFirstFour(pin: string, digits: string)
    requires |pin| <= PinLength
    ensures PressAll(pin, digits) == (pin + digits)[..if |pin + digits| <= PinLength then |pin + digits| else PinLength]
    decreases |digits|
  {
    if digits != [] {
      var next := PinAfterPress(pin, digits[0]);
      PressesKeepFirstFour(next, digits[1..]);
      if |pin| < PinLength {
        assert next + digits[1..] == pin + digits;
      } else {
        assert |pin| == PinLength;
        assert PressAll(next, digits[1..]) == pin by {
          PressAllFull(pin, digits[1..]);
        }
      }
    }
  }

  lemma {:induction false} PressAllFull(pin: string, digits: string)
    requires |pin| == PinLength
    ensures PressAll(pin, digits) == pin
    decreases |digits|
  {
    if digits != [] {
      PressAllFull(pin, digits[1..]);
    }
  }

  /** The request body: only username and PIN in PIN mode, the whole form otherwise. */
  function RequestBody(form: LoginForm, usePin: bool): (r: LoginBody)
    ensures usePin ==> r.username == form.username && r.pin == form.pin && r.password == ""
    ensures !usePin ==> r == LoginBody(form.username, form.password, form.pin)
  {
    if usePin then LoginBody(form.username, "", form.pin) else LoginBody(form.username, form.password, form.pin)
  }

  /** A PIN-mode request succeeds exactly when the user exists, a PIN was typed and it
      matches the stored PIN hash (and the token is signed); the typed password plays
      no part. */
  lemma PinRequestChecksPin(users: seq<User>, form: LoginForm, hashMatches: (string, string) -> bool,
                            password: string, signed: Option<string>)
    ensures LoginDecision(users, RequestBody(form, true), hashMatches, signed).status == 200 <==>
              && form.username != ""
              && FindByUsername(users, form.username).Some?
              && form.pin != ""
              && hashMatches(form.pin, FindByUsername(users, form.username).value.pin)
              && signed.Some?
    ensures LoginDecision(users, RequestBody(form, true), hashMatches, signed)
         == LoginDecision(users, RequestBody(form.(password := password), true), hashMatches, signed)
  {
  }

  /** `res.data.token`; a body without one gives `undefined`, which localStorage stores
      as the text "undefined". */
  function TokenOf(body: Body): string {
    if body.TokenBody? then body.token else "undefined"
  }

  /** `error.response?.data?.msg || "Incorrect credentials, please try again"` */
  function FailureMessage(reply: Option<Response>): (r: string)
    ensures r != ""
    ensures reply.Some? && reply.value.body.Msg? && reply.value.body.msg != "" ==> r == reply.value.body.msg
    ensures !(reply.Some? && reply.value.body.Msg?) ==> r == DefaultLoginError
  {
    if reply.Some? && reply.value.body.Msg? && reply.value.body.msg != "" then reply.value.body.msg
    else DefaultLoginError
  }

  /** Against this server a wrong secret and an unknown user read the same, and a
      validation error falls back to the default text. */
  lemma LoginFailureMessages(users: seq<User>, body: LoginBody, hashMatches: (string, string) -> bool,
                             signed: Option<string>)
    ensures body.username == "" ==> FailureMessage(Some(LoginDecision(users, body, hashMatches, signed))) == DefaultLoginError
    ensures body.username != "" && FindByUsername(users, body.username).None? ==>
      FailureMessage(Some(LoginDecision(users, body, hashMatches, signed))) == InvalidCredentialsMsg
  {
  }

  datatype LoginState = LoginState(form: LoginForm, errors: map<string, string>, usePin: bool,
                                   showPassword: bool, flashError: bool)

  class Login {
    var formData: LoginForm
    var errors: map<string, string>
    var usePin: bool
    var showPassword: bool
    var flashError: bool
    const auth: AuthProvider

    function State(): LoginState
      reads this
    {
      LoginState(formData, errors, usePin, showPassword, flashError)
    }

    /** The PIN never grows beyond four characters. */
    predicate Valid()
      reads this
    {
      |formData.pin| <= PinLength
    }

    constructor (auth: AuthProvider)
      ensures this.auth == auth
      ensures State() == LoginState(LoginForm("", "", ""), map[], false, false, false)
      ensures Valid()
    {
      this.auth := auth;
      formData := LoginForm("", "", "");
      errors := map[];
      usePin := false;
      showPassword := false;
      flashError := false;
    }

    method HandleChange(field: FormField, value: string)
      modifies this
      ensures field == Username ==> State() == old(State()).(form := old(formData).(username := value))
      ensures field == Password ==> State() == old(State()).(form := old(formData).(password := value))
      ensures old(Valid()) ==> Valid()
    {
      match field
      case Username => formData := formData.(username := value);
      case Password => formData := formData.(password := value);
    }

    /** handlePinInput for one keypad digit. */
    method HandlePinInput(digit: char)
      modifies this
      ensures formData == old(formData).(pin := PinAfterPress(old(formData.pin), digit))
      ensures State() == old(State()).(form := formData)
      ensures old(Valid()) ==> Valid()
    {
      formData := formData.(pin := if |formData.pin| < PinLength then formData.pin + [digit] else formData.pin);
    }

    method TogglePinMode()
      modifies this
      ensures State() == old(State()).(usePin := !old(usePin))
    {
      usePin := !usePin;
    }

    /** handleSubmit. The previous errors are cleared first. Success hands the token to
        the session; failure sets the form error and, in PIN mode, clears the PIN and
        starts the flash. The password form is left as it was. */
    method HandleSubmit(reply: Option<Response>) returns (request: LoginBody)
      modifies this, auth, auth.storage, auth.router
      ensures request == RequestBody(old(formData), old(usePin))
      ensures Succeeded(reply) ==>
        && State() == old(State()).(errors := map[])
        && auth.storage.token == Some(TokenOf(reply.value.body)) && auth.isAuthenticated
        && auth.router.location == AppPath
        && auth.isAuthInitialized == old(auth.isAuthInitialized)
        && auth.storage.bookmarkedCards == old(auth.storage.bookmarkedCards)
      ensures !Succeeded(reply) ==>
        && errors == map["form" := FailureMessage(reply)]
        && (old(usePin) ==> formData == old(formData).(pin := "") && flashError)
        && (!old(usePin) ==> formData == old(formData) && flashError == old(flashError))
        && usePin == old(usePin) && showPassword == old(showPassword)
        && unchanged(auth, auth.storage, auth.router)
      ensures old(Valid()) ==> Valid()
    {
      errors := map[];
      request := RequestBody(formData, usePin);
      if Succeeded(reply) {
        auth.Login(TokenOf(reply.value.body));
      } else {
        errors := map["form" := FailureMessage(reply)];
        if usePin {
          formData := formData.(pin := "");
          flashError := true;
        }
      }
    }

    /** The effect on `formData.pin`: submit exactly when PIN mode is on and four
        digits have been entered. */
    method AutoSubmitEffect(reply: Option<Response>) returns (request: Option<LoginBody>)
      modifies this, auth, auth.storage, auth.router
      ensures request.Some? <==> old(usePin) && |old(formData.pin)| == PinLength
      ensures request.Some? ==> request.value == LoginBody(old(formData.username), "", old(formData.pin))
      ensures request.Some? && Succeeded(reply) ==>
        && State() == old(State()).(errors := map[])
        && auth.storage.token == Some(TokenOf(reply.value.body)) && auth.isAuthenticated
        && auth.router.location == AppPath
        && auth.isAuthInitialized == old(auth.isAuthInitialized)
        && auth.storage.bookmarkedCards == old(auth.storage.bookmarkedCards)
      ensures request.Some? && !Succeeded(reply) ==>
        && State() == old(State()).(form := old(formData).(pin := ""), errors := map["form" := FailureMessage(reply)],
                                    flashError := true)
        && unchanged(auth, auth.storage, auth.router)
      ensures request.None? ==> State() == old(State()) && unchanged(auth, auth.storage, auth.router)
      ensures old(Valid()) ==> Valid()
    {
      if usePin && |formData.pin| == PinLength {
        var sent := HandleSubmit(reply);
        request := Some(sent);
      } else {
        request := None;
      }
    }

    /** The timer that ends the flash. */
    method ClearFlash()
      modifies this
      ensures State() == old(State()).(flashError := false)
    {
      flashError := false;
    }
  }
}
