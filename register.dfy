/** client/src/components/Register.js: the client-side checks before the registration
    request and the error shown afterwards. The server's reply is an input: a
    response, or None when the request failed without one. */
module RegisterComponent {
  import opened Wrappers
  import opened Server
  import opened Navigation

  const MismatchMsg: string := "Passwords do not match"
  const ClientPinMsg: string := "PIN must be exactly 4 digits"
  const DefaultRegisterError: string := "Registration failed"

  datatype RegisterForm = RegisterForm(username: string, email: string, password: string,
                                       confirmPassword: string, pin: string)

  datatype FormField = Username | Email | Password | ConfirmPassword | Pin

  /** A character outside the Basic Multilingual Plane, which UTF-16 stores as a
      surrogate pair. */
  predicate IsAstral(c: char) {
    c as int >= 0x1_0000
  }

  /** JavaScript's `.length`: the number of UTF-16 code units. */
  function Utf16Length(s: string): (r: nat)
    ensures |s| <= r <= 2 * |s|
  {
    if s == [] then 0 else (if IsAstral(s[0]) then 2 else 1) + Utf16Length(s[1..])
  }

  /** Without astral characters the code-unit count is the character count, and with
      one it is larger. */
  lemma {:induction false} Utf16LengthSpec(s: string)
    ensures Utf16Length(s) == |s| <==> forall i :: 0 <= i < |s| ==> !IsAstral(s[i])
  {
    if s != [] {
      Utf16LengthSpec(s[1..]);
      if forall i :: 0 <= i < |s| ==> !IsAstral(s[i]) {
        assert forall i :: 0 <= i < |s[1..]| ==> !IsAstral(s[1..][i]) by {
          forall i | 0 <= i < |s[1..]| ensures !IsAstral(s[1..][i]) {
            assert s[1..][i] == s[i + 1];
          }
        }
      } else {
        var k :| 0 <= k < |s| && IsAstral(s[k]);
        if k > 0 {
          assert s[1..][k - 1] == s[k];
        }
      }
    }
  }

  /** The first failing client check as (error key, message), or None when the request
      may be sent. The PIN check looks at the length only, in UTF-16 code units. */
  function ClientCheck(form: RegisterForm): (r: Option<(string, string)>)
    ensures form.password != form.confirmPassword ==> r == Some(("confirmPassword", MismatchMsg))
    ensures form.password == form.confirmPassword && Utf16Length(form.pin) != 4 ==> r == Some(("pin", ClientPinMsg))
    ensures r.None? <==> form.password == form.confirmPassword && Utf16Length(form.pin) == 4
  {
    if form.password != form.confirmPassword then Some(("confirmPassword", MismatchMsg))
    else if Utf16Length(form.pin) != 4 then Some(("pin", ClientPinMsg))
    else None
  }

  /** The fields of the form the server reads. */
  function Body(form: RegisterForm): RegisterBody {
    RegisterBody(form.username, form.email, form.password, form.pin)
  }

  /** The two PIN checks count differently: the client counts UTF-16 code units, the
      server (express-validator's isLength) characters. A form the client lets through
      satisfies the server's PIN rule exactly when its PIN has no astral character. */
  lemma ClientCheckImpliesServerPinRule(form: RegisterForm, isEmail: string -> bool)
    requires ClientCheck(form).None?
    ensures PinRuleMsg !in RegistrationErrors(Body(form), isEmail) <==>
              forall i :: 0 <= i < |form.pin| ==> !IsAstral(form.pin[i])
  {
    RegistrationErrorsSpec(Body(form), isEmail);
    Utf16LengthSpec(form.pin);
  }

  /** Two emoji make a PIN of length 4 for the client and of two characters for the
      server: the request is sent and rejected by the PIN rule. */
  lemma EmojiPinPassesClientFailsServer(isEmail: string -> bool)
    ensures var form := RegisterForm("u", "e", "pw1234", "pw1234", "\U{1F600}\U{1F600}");
      && ClientCheck(form).None?
      && PinRuleMsg in RegistrationErrors(Body(form), isEmail)
  {
    var form := RegisterForm("u", "e", "pw1234", "pw1234", "\U{1F600}\U{1F600}");
    assert IsAstral(form.pin[0]) && IsAstral(form.pin[1]);
    assert Utf16Length(form.pin[1..]) == 2;
    RegistrationErrorsSpec(Body(form), isEmail);
  }

  /** `error.response?.data?.errors?.[0]?.msg || "Registration failed"` */
  function FailureMessage(reply: Option<Response>): (r: string)
    ensures r != ""
    ensures r != DefaultRegisterError ==>
      reply.Some? && reply.value.body.Errors? && |reply.value.body.msgs| > 0 && r == reply.value.body.msgs[0]
    ensures reply.Some? && reply.value.body.Errors? && |reply.value.body.msgs| > 0 && reply.value.body.msgs[0] != "" ==>
      r == reply.value.body.msgs[0]
    ensures !(reply.Some? && reply.value.body.Errors? && |reply.value.body.msgs| > 0) ==> r == DefaultRegisterError
  {
    if reply.Some? && reply.value.body.Errors? && |reply.value.body.msgs| > 0 && reply.value.body.msgs[0] != ""
    then reply.value.body.msgs[0]
    else DefaultRegisterError
  }

  /** Against this server: a failed field rule shows the first failing rule's message,
      while the duplicate-email reply, which carries `msg` rather than `errors`, shows
      only "Registration failed". */
  lemma RegisterFailureMessages(users: seq<User>, body: RegisterBody, isEmail: string -> bool,
                                passwordHash: string, pinHash: string, signed: Option<string>)
    ensures var reply := RegisterDecision(users, body, isEmail, passwordHash, pinHash, signed).0;
      RegistrationErrors(body, isEmail) != [] ==>
        FailureMessage(Some(reply)) == RegistrationErrors(body, isEmail)[0]
    ensures var reply := RegisterDecision(users, body, isEmail, passwordHash, pinHash, signed).0;
      RegistrationErrors(body, isEmail) == [] && EmailTaken(users, body.email) ==>
        FailureMessage(Some(reply)) == DefaultRegisterError
  {
  }

  class Register {
    var formData: RegisterForm
    var errors: map<string, string>
    const router: Router

    constructor (router: Router)
      ensures this.router == router
      ensures formData == RegisterForm("", "", "", "", "") && errors == map[]
    {
      this.router := router;
      formData := RegisterForm("", "", "", "", "");
      errors := map[];
    }

    method HandleChange(field: FormField, value: string)
      modifies this
      ensures errors == old(errors)
      ensures formData == match field
        case Username => old(formData).(username := value)
        case Email => old(formData).(email := value)
        case Password => old(formData).(password := value)
        case ConfirmPassword => old(formData).(confirmPassword := value)
        case Pin => old(formData).(pin := value)
    {
      match field
      case Username => formData := formData.(username := value);
      case Email => formData := formData.(email := value);
      case Password => formData := formData.(password := value);
      case ConfirmPassword => formData := formData.(confirmPassword := value);
      case Pin => formData := formData.(pin := value);
    }

    /** handleSubmit. The errors are cleared, then at most one key is set: the first
        failing client check, which sends nothing, or the server's failure. Success goes
        to /login. The form is never changed. */
    method HandleSubmit(reply: Option<Response>) returns (request: Option<RegisterForm>)
      modifies this, router
      ensures formData == old(formData)
      ensures |errors.Keys| <= 1
      ensures request.Some? <==> ClientCheck(formData).None?
      ensures request.Some? ==> request.value == formData
      ensures ClientCheck(formData).Some? ==>
        errors == map[ClientCheck(formData).value.0 := ClientCheck(formData).value.1]
        && router.location == old(router.location)
      ensures request.Some? && Succeeded(reply) ==> errors == map[] && router.location == LoginPath
      ensures request.Some? && !Succeeded(reply) ==>
        errors == map["form" := FailureMessage(reply)] && router.location == old(router.location)
    {
      errors := map[];
      if formData.password != formData.confirmPassword {
        errors := map["confirmPassword" := MismatchMsg];
        return None;
      }
      if Utf16Length(formData.pin) != 4 {
        errors := map["pin" := ClientPinMsg];
        return None;
      }
      request := Some(formData);
      if Succeeded(reply) {
        router.Navigate(LoginPath);
      } else {
        errors := map["form" := FailureMessage(reply)];
      }
    }
  }
}
