/** The decision logic of server/index.js: registration (field rules, duplicate email,
    save, token), login (unknown user, password before PIN, token) and token
    validation. The database is a sequence of user records in insertion order. Bcrypt,
    `isEmail`, JWT signing and JWT verification are inputs: hashed values, predicates
    and an optional signed token (None when signing fails). */
module Server {
  import opened Wrappers

  /** A JSON reply body. */
  datatype Body =
    | Errors(msgs: seq<string>)        // { errors: [{ msg }, ...] } from validationResult
    | Msg(msg: string)                 // { msg }
    | TokenBody(token: string)         // { token }
    | Validity(valid: bool, error: Option<string>)  // { valid, error? }
    | Text(text: string)               // res.send(text)

  datatype Response = Response(status: nat, body: Body)

  /** A client-side reply (None: the request failed without a response) that axios
      resolves, which it does only for a 2xx status. */
  predicate Succeeded(reply: Option<Response>) {
    reply.Some? && 200 <= reply.value.status < 300
  }

  const UsernameRuleMsg: string := "Please provide a valid username"
  const EmailRuleMsg: string := "Please provide a valid email"
  const PasswordRuleMsg: string := "Password must be at least 6 characters long"
  const PinRuleMsg: string := "PIN must be exactly 4 digits"
  const UserExistsMsg: string := "User already exists"
  const InvalidCredentialsMsg: string := "Invalid credentials"
  const SecretRequiredMsg: string := "Password or PIN required"
  const ServerErrorText: string := "Server error"
  const NoTokenMsg: string := "No token provided"

  /** A stored user; `password` and `pin` hold bcrypt hashes. */
  datatype User = User(username: string, email: string, password: string, pin: string)

  /** A request body; a missing field is "". */
  datatype RegisterBody = RegisterBody(username: string, email: string, password: string, pin: string)
  datatype LoginBody = LoginBody(username: string, password: string, pin: string)

  // ---------------------------------------------------------------- registration

  /** validationResult for the four registration rules, in rule order. */
  function RegistrationErrors(body: RegisterBody, isEmail: string -> bool): (r: seq<string>)
    ensures r == [] <==> body.username != "" && isEmail(body.email) && |body.password| >= 6 && |body.pin| == 4
  {
    (if body.username == "" then [UsernameRuleMsg] else [])
    + (if !isEmail(body.email) then [EmailRuleMsg] else [])
    + (if |body.password| < 6 then [PasswordRuleMsg] else [])
    + (if |body.pin| != 4 then [PinRuleMsg] else [])
  }

  /** The position of a rule in the validation chain (username, email, password, PIN);
      any other text ranks after them. */
  function RuleRank(msg: string): nat {
    if msg == UsernameRuleMsg then 0
    else if msg == EmailRuleMsg then 1
    else if msg == PasswordRuleMsg then 2
    else if msg == PinRuleMsg then 3
    else 4
  }

  /** How many of the four registration rules the body fails. */
  function FailingRules(body: RegisterBody, isEmail: string -> bool): nat {
    (if body.username == "" then 1 else 0)
    + (if !isEmail(body.email) then 1 else 0)
    + (if |body.password| < 6 then 1 else 0)
    + (if |body.pin| != 4 then 1 else 0)
  }

  lemma RuleMessagesDistinct()
    ensures RuleRank(UsernameRuleMsg) == 0 && RuleRank(EmailRuleMsg) == 1
    ensures RuleRank(PasswordRuleMsg) == 2 && RuleRank(PinRuleMsg) == 3
  {
    assert UsernameRuleMsg[23] != EmailRuleMsg[23];
    assert UsernameRuleMsg[1] != PasswordRuleMsg[1] && EmailRuleMsg[1] != PasswordRuleMsg[1];
    assert UsernameRuleMsg[1] != PinRuleMsg[1] && EmailRuleMsg[1] != PinRuleMsg[1];
    assert PasswordRuleMsg[1] != PinRuleMsg[1];
  }

  ghost predicate RanksAscending(msgs: seq<string>) {
    forall i, j :: 0 <= i < j < |msgs| ==> RuleRank(msgs[i]) < RuleRank(msgs[j])
  }

  ghost predicate RanksAtMost(msgs: seq<string>, k: nat) {
    forall i :: 0 <= i < |msgs| ==> RuleRank(msgs[i]) <= k
  }

  /** Appending nothing, or a message that ranks after every message so far, keeps
      the ranks ascending and bounded by the new message's rank. */
  lemma AppendRanked(msgs: seq<string>, part: seq<string>, k: nat)
    requires |part| <= 1 && forall i :: 0 <= i < |part| ==> RuleRank(part[i]) == k
    requires RanksAscending(msgs)
    requires forall i :: 0 <= i < |msgs| ==> RuleRank(msgs[i]) < k
    ensures RanksAscending(msgs + part)
    ensures RanksAtMost(msgs + part, k)
  {
  }

  /** Four parts of at most one message each, ranked 0, 1, 2 and 3, concatenate to a
      list in rank order. */
  lemma FourPartsAscending(u: seq<string>, e: seq<string>, p: seq<string>, n: seq<string>)
    requires |u| <= 1 && forall i :: 0 <= i < |u| ==> RuleRank(u[i]) == 0
    requires |e| <= 1 && forall i :: 0 <= i < |e| ==> RuleRank(e[i]) == 1
    requires |p| <= 1 && forall i :: 0 <= i < |p| ==> RuleRank(p[i]) == 2
    requires |n| <= 1 && forall i :: 0 <= i < |n| ==> RuleRank(n[i]) == 3
    ensures RanksAscending(u + e + p + n)
  {
    AppendRanked([], u, 0);
    assert [] + u == u;
    AppendRanked(u, e, 1);
    AppendRanked(u + e, p, 2);
    AppendRanked(u + e + p, n, 3);
  }

  /** The four parts of the error list, one per rule. */
  function RuleParts(body: RegisterBody, isEmail: string -> bool): (r: seq<seq<string>>)
    ensures |r| == 4
  {
    [if body.username == "" then [UsernameRuleMsg] else [],
     if !isEmail(body.email) then [EmailRuleMsg] else [],
     if |body.password| < 6 then [PasswordRuleMsg] else [],
     if |body.pin| != 4 then [PinRuleMsg] else []]
  }

  /** The messages keep the order of their rules. */
  lemma RegistrationErrorsOrder(body: RegisterBody, isEmail: string -> bool)
    ensures RanksAscending(RegistrationErrors(body, isEmail))
  {
    RuleMessagesDistinct();
    var q := RuleParts(body, isEmail);
    assert RegistrationErrors(body, isEmail) == q[0] + q[1] + q[2] + q[3];
    FourPartsAscending(q[0], q[1], q[2], q[3]);
  }

  /** Each rule's message is in the list exactly when that rule fails. */
  lemma RegistrationErrorsMembers(body: RegisterBody, isEmail: string -> bool)
    ensures UsernameRuleMsg in RegistrationErrors(body, isEmail) <==> body.username == ""
    ensures EmailRuleMsg in RegistrationErrors(body, isEmail) <==> !isEmail(body.email)
    ensures PasswordRuleMsg in RegistrationErrors(body, isEmail) <==> |body.password| < 6
    ensures PinRuleMsg in RegistrationErrors(body, isEmail) <==> |body.pin| != 4
  {
    RuleMessagesDistinct();
    var q := RuleParts(body, isEmail);
    assert RegistrationErrors(body, isEmail) == q[0] + q[1] + q[2] + q[3];
    PartMembership(q[0], q[1], q[2], q[3], UsernameRuleMsg, 0);
    PartMembership(q[0], q[1], q[2], q[3], EmailRuleMsg, 1);
    PartMembership(q[0], q[1], q[2], q[3], PasswordRuleMsg, 2);
    PartMembership(q[0], q[1], q[2], q[3], PinRuleMsg, 3);
  }

  /** In four parts whose messages rank 0, 1, 2 and 3, a message of rank k can occur
      only in part k. */
  lemma PartMembership(u: seq<string>, e: seq<string>, p: seq<string>, n: seq<string>, m: string, k: nat)
    requires forall i :: 0 <= i < |u| ==> RuleRank(u[i]) == 0
    requires forall i :: 0 <= i < |e| ==> RuleRank(e[i]) == 1
    requires forall i :: 0 <= i < |p| ==> RuleRank(p[i]) == 2
    requires forall i :: 0 <= i < |n| ==> RuleRank(n[i]) == 3
    requires RuleRank(m) == k
    ensures k == 0 ==> (m in u + e + p + n <==> m in u)
    ensures k == 1 ==> (m in u + e + p + n <==> m in e)
    ensures k == 2 ==> (m in u + e + p + n <==> m in p)
    ensures k == 3 ==> (m in u + e + p + n <==> m in n)
  {
    assert m in u ==> k == 0;
    assert m in e ==> k == 1;
    assert m in p ==> k == 2;
    assert m in n ==> k == 3;
  }

  /** Each rule's message is reported exactly when that rule fails, one message per
      failing rule, and every two messages keep the order of their rules. */
  lemma RegistrationErrorsSpec(body: RegisterBody, isEmail: string -> bool)
    ensures UsernameRuleMsg in RegistrationErrors(body, isEmail) <==> body.username == ""
    ensures EmailRuleMsg in RegistrationErrors(body, isEmail) <==> !isEmail(body.email)
    ensures PasswordRuleMsg in RegistrationErrors(body, isEmail) <==> |body.password| < 6
    ensures PinRuleMsg in RegistrationErrors(body, isEmail) <==> |body.pin| != 4
    ensures |RegistrationErrors(body, isEmail)| == FailingRules(body, isEmail)
    ensures forall i, j :: 0 <= i < j < |RegistrationErrors(body, isEmail)| ==>
              RuleRank(RegistrationErrors(body, isEmail)[i]) < RuleRank(RegistrationErrors(body, isEmail)[j])
  {
    RegistrationErrorsMembers(body, isEmail);
    RegistrationErrorsOrder(body, isEmail);
  }

  predicate EmailTaken(users: seq<User>, email: string) {
    exists i :: 0 <= i < |users| && users[i].email == email
  }

  /** The register handler: its reply and the users afterwards. The new user is saved
      before the token is signed, so a signing failure still leaves it saved. */
  function RegisterDecision(users: seq<User>, body: RegisterBody, isEmail: string -> bool,
                            passwordHash: string, pinHash: string, signed: Option<string>): (r: (Response, seq<User>))
    ensures RegistrationErrors(body, isEmail) != [] ==>
      r == (Response(400, Errors(RegistrationErrors(body, isEmail))), users)
    ensures RegistrationErrors(body, isEmail) == [] && EmailTaken(users, body.email) ==>
      r == (Response(400, Msg(UserExistsMsg)), users)
    ensures r.1 != users ==>
      RegistrationErrors(body, isEmail) == [] && !EmailTaken(users, body.email)
      && r.1 == users + [User(body.username, body.email, passwordHash, pinHash)]
    ensures RegistrationErrors(body, isEmail) == [] && !EmailTaken(users, body.email) ==>
              && r.1 == users + [User(body.username, body.email, passwordHash, pinHash)]
              && r.0 == (if signed.Some? then Response(200, TokenBody(signed.value))
                         else Response(500, Text(ServerErrorText)))
    ensures r.0.status == 200 <==>
      RegistrationErrors(body, isEmail) == [] && !EmailTaken(users, body.email) && signed.Some?
  {
    var errors := RegistrationErrors(body, isEmail);
    if errors != [] then (Response(400, Errors(errors)), users)
    else if EmailTaken(users, body.email) then (Response(400, Msg(UserExistsMsg)), users)
    else
      var saved := users + [User(body.username, body.email, passwordHash, pinHash)];
      match signed
      case None => (Response(500, Text(ServerErrorText)), saved)
      case Some(token) => (Response(200, TokenBody(token)), saved)
  }

  ghost predicate UniqueEmails(users: seq<User>) {
    forall i, j :: 0 <= i < j < |users| ==> users[i].email != users[j].email
  }

  /** Registration never stores a second user with an email already present. */
  lemma RegisterKeepsEmailsUnique(users: seq<User>, body: RegisterBody, isEmail: string -> bool,
                                  passwordHash: string, pinHash: string, signed: Option<string>)
    requires UniqueEmails(users)
    ensures UniqueEmails(RegisterDecision(users, body, isEmail, passwordHash, pinHash, signed).1)
  {
    var after := RegisterDecision(users, body, isEmail, passwordHash, pinHash, signed).1;
    if after != users {
      forall i, j | 0 <= i < j < |after| ensures after[i].email != after[j].email {
        if j == |users| {
          assert after[j].email == body.email;
          assert after[i] == users[i];
        }
      }
    }
  }

  /** Usernames are not checked for uniqueness: a valid registration with a fresh email
      is saved even when its username is taken. */
  lemma RegisterAllowsDuplicateUsername(users: seq<User>, body: RegisterBody, isEmail: string -> bool,
                                        passwordHash: string, pinHash: string, signed: Option<string>, k: nat)
    requires k < |users| && users[k].username == body.username
    requires RegistrationErrors(body, isEmail) == [] && !EmailTaken(users, body.email)
    ensures RegisterDecision(users, body, isEmail, passwordHash, pinHash, signed).1
         == users + [User(body.username, body.email, passwordHash, pinHash)]
  {
  }

  /** The user collection, changed only by a successful registration. */
  class UserCollection {
    var users: seq<User>

    constructor (users: seq<User>)
      ensures this.users == users
    {
      this.users := users;
    }

    /** POST /api/register */
    method Register(body: RegisterBody, isEmail: string -> bool, passwordHash: string, pinHash: string,
                    signed: Option<string>) returns (response: Response)
      modifies this
      ensures (response, users) == RegisterDecision(old(users), body, isEmail, passwordHash, pinHash, signed)
    {
      var errors := RegistrationErrors(body, isEmail);
      if errors != [] {
        return Response(400, Errors(errors));
      }
      if EmailTaken(users, body.email) {
        return Response(400, Msg(UserExistsMsg));
      }
      var user := User(body.username, body.email, passwordHash, pinHash);
      users := users + [user];
      match signed
      case None => response := Response(500, Text(ServerErrorText));
      case Some(token) => response := Response(200, TokenBody(token));
    }
  }

  // ---------------------------------------------------------------- login

  /** The position of the earliest stored user with that name, or |users| for none. */
  function FirstUserIndex(users: seq<User>, username: string): (r: nat)
    ensures r <= |users|
    ensures forall k :: 0 <= k < r ==> users[k].username != username
    ensures r < |users| ==> users[r].username == username
  {
    if users == [] || users[0].username == username then 0
    else 1 + FirstUserIndex(users[1..], username)
  }

  /** `User.findOne({ username })`: the earliest stored user with that name. */
  function FindByUsername(users: seq<User>, username: string): (r: Option<User>)
    ensures r.None? <==> forall i :: 0 <= i < |users| ==> users[i].username != username
    ensures r.Some? ==> r.value.username == username && r.value in users
  {
    var i := FirstUserIndex(users, username);
    if i < |users| then Some(users[i]) else None
  }

  /** The login handler. `hashMatches(secret, hash)` stands for bcrypt.compare. A
      non-empty password is checked and the PIN ignored; the PIN is used only without
      a password. */
  function LoginDecision(users: seq<User>, body: LoginBody, hashMatches: (string, string) -> bool,
                         signed: Option<string>): (r: Response)
    ensures r.status == 200 <==>
      && body.username != ""
      && FindByUsername(users, body.username).Some?
      && (if body.password != "" then hashMatches(body.password, FindByUsername(users, body.username).value.password)
          else body.pin != "" && hashMatches(body.pin, FindByUsername(users, body.username).value.pin))
      && signed.Some?
    ensures r.status == 200 ==> r.body == TokenBody(signed.value)
  {
    if body.username == "" then Response(400, Errors([UsernameRuleMsg]))
    else match FindByUsername(users, body.username)
      case None => Response(400, Msg(InvalidCredentialsMsg))
      case Some(user) =>
        if body.password != "" && !hashMatches(body.password, user.password) then
          Response(400, Msg(InvalidCredentialsMsg))
        else if body.password == "" && body.pin != "" && !hashMatches(body.pin, user.pin) then
          Response(400, Msg(InvalidCredentialsMsg))
        else if body.password == "" && body.pin == "" then
          Response(400, Msg(SecretRequiredMsg))
        else match signed
          case None => Response(500, Text(ServerErrorText))
          case Some(token) => Response(200, TokenBody(token))
  }

  /** An unknown username is rejected before any secret is compared: the reply is the
      same whatever the secrets and the hash comparison. */
  lemma UnknownUserIgnoresSecrets(users: seq<User>, body: LoginBody, h1: (string, string) -> bool,
                                  h2: (string, string) -> bool, password: string, pin: string, signed: Option<string>)
    requires body.username != "" && FindByUsername(users, body.username).None?
    ensures LoginDecision(users, body, h1, signed) == Response(400, Msg(InvalidCredentialsMsg))
    ensures LoginDecision(users, body.(password := password, pin := pin), h2, signed)
         == LoginDecision(users, body, h1, signed)
  {
  }

  /** With a password present the PIN plays no part. */
  lemma PasswordTakesPrecedence(users: seq<User>, body: LoginBody, hashMatches: (string, string) -> bool,
                                pin: string, signed: Option<string>)
    requires body.password != ""
    ensures LoginDecision(users, body.(pin := pin), hashMatches, signed) == LoginDecision(users, body, hashMatches, signed)
  {
  }

  /** A known user with neither secret is asked for one. */
  lemma NoSecretRequired(users: seq<User>, body: LoginBody, hashMatches: (string, string) -> bool, signed: Option<string>)
    requires body.username != "" && FindByUsername(users, body.username).Some?
    requires body.password == "" && body.pin == ""
    ensures LoginDecision(users, body, hashMatches, signed) == Response(400, Msg(SecretRequiredMsg))
  {
  }

  /** A wrong secret gets exactly the reply an unknown user gets. */
  lemma WrongSecretLooksLikeUnknownUser(users: seq<User>, body: LoginBody, hashMatches: (string, string) -> bool,
                                        signed: Option<string>)
    requires body.username != "" && FindByUsername(users, body.username).Some?
    requires var user := FindByUsername(users, body.username).value;
      if body.password != "" then !hashMatches(body.password, user.password)
      else body.pin != "" && !hashMatches(body.pin, user.pin)
    ensures LoginDecision(users, body, hashMatches, signed) == Response(400, Msg(InvalidCredentialsMsg))
  {
  }

  // ---------------------------------------------------------------- validate-token

  /** POST /api/validate-token; `verifies` stands for jwt.verify succeeding. */
  function ValidateTokenDecision(token: string, verifies: string -> bool): (r: Response)
    ensures r.body.Validity?
    ensures r.body.valid <==> token != "" && verifies(token)
    ensures r.status == 400 <==> token == ""
    ensures token != "" ==> r.status == 200 && r.body.error.None?
  {
    if token == "" then Response(400, Validity(false, Some(NoTokenMsg)))
    else if verifies(token) then Response(200, Validity(true, None))
    else Response(200, Validity(false, None))
  }
}
