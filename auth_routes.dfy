/** The backend's own account routes (Backend/routes/authRoutes.js): `/signup` adds a
    user to the store after field checks and a duplicate-email check, `/login` checks
    the credentials and signs a token. Hashing, comparing and signing are inputs. */
module AuthRoutes {
  import opened Outcomes
  import opened JsValues

  datatype User = User(id: int, name: string, email: string, passwordHash: string, role: string)

  /** A response: status code and JSON body. */
  datatype Response = Response(status: int, body: map<string, JsValue>)

  function MessageReply(status: int, message: string): Response {
    Response(status, map["message" := Str(message)])
  }

  /** The signup body; a missing field is the empty string. */
  datatype SignupBody = SignupBody(name: string, email: string, password: string, role: string)

  /** The variation selectors U+FE0E and U+FE0F, which the validator's length test
      does not count. */
  predicate IsPresentationSelector(c: char) {
    c == '\U{FE0E}' || c == '\U{FE0F}'
  }

  /** The length `isLength` measures: every character but the variation selectors.
      Characters are code points, so a character outside the Basic Multilingual Plane
      counts once, as the validator counts a surrogate pair once. */
  function ValidatorLength(s: string): (n: nat)
    ensures n <= |s|
    ensures n == |s| <==> forall i :: 0 <= i < |s| ==> !IsPresentationSelector(s[i])
  {
    if s == [] then 0
    else
      var rest := ValidatorLength(s[1..]);
      assert forall i :: 1 <= i < |s| ==> s[i] == s[1..][i - 1];
      (if IsPresentationSelector(s[0]) then 0 else 1) + rest
  }

  /** The messages of the failing signup checks, in the order they are declared.
      `isEmail` is the validator's address test. */
  function SignupErrors(body: SignupBody, isEmail: string -> bool): (errors: seq<string>)
    ensures errors == [] <==> body.name != "" && isEmail(body.email) && ValidatorLength(body.password) >= 6
    ensures "Password must be at least 6 characters" in errors <==> ValidatorLength(body.password) < 6
  {
    (if body.name == "" then ["Name is required"] else [])
    + (if !isEmail(body.email) then ["Please provide a valid email"] else [])
    + (if ValidatorLength(body.password) < 6 then ["Password must be at least 6 characters"] else [])
  }

  /** Six characters of which one is a variation selector are too short a password. */
  lemma SelectorIsNotCounted(name: string, email: string, role: string, isEmail: string -> bool)
    ensures var password := "abcde" + ['\U{FE0F}'];
      && |password| == 6
      && "Password must be at least 6 characters" in SignupErrors(SignupBody(name, email, password, role), isEmail)
  {
    var password := "abcde" + ['\U{FE0F}'];
    assert ValidatorLength(password[5..]) == 0;
    assert password[4..] == ['e'] + password[5..];
    assert password[3..] == ['d'] + password[4..];
    assert password[2..] == ['c'] + password[3..];
    assert password[1..] == ['b'] + password[2..];
  }

  function ErrorsReply(errors: seq<string>): Response {
    Response(400, map["errors" := Arr(seq(|errors|, k requires 0 <= k < |errors| => Obj(map["msg" := Str(errors[k])])))])
  }

  /** `role || 'employee'`. */
  function EffectiveRole(role: string): (r: string)
    ensures r != ""
    ensures role != "" ==> r == role
  {
    if role != "" then role else "employee"
  }

  /** `User.findOne({ where: { email } })`: the first user with that address. */
  function FindByEmail(users: seq<User>, email: string): (r: Option<User>)
    ensures r.Some? ==> r.value in users && r.value.email == email
    ensures r.None? <==> forall u :: u in users ==> u.email != email
  {
    if users == [] then None
    else if users[0].email == email then Some(users[0])
    else FindByEmail(users[1..], email)
  }

  predicate UniqueEmails(users: seq<User>) {
    forall i, j :: 0 <= i < j < |users| ==> users[i].email != users[j].email
  }

  /** The `users` table. */
  class UserStore {
    var users: seq<User>

    constructor ()
      ensures users == []
    {
      users := [];
    }

    /** `POST /signup`. `hash` stands for bcrypt, `newId` for the id the table assigns,
        `lookupFails` and `createFails` for the two store calls throwing. */
    method Signup(body: SignupBody, isEmail: string -> bool, hash: string -> string, newId: int,
                  lookupFails: bool, createFails: bool) returns (resp: Response)
      modifies this
      ensures SignupErrors(body, isEmail) != [] ==> resp == ErrorsReply(SignupErrors(body, isEmail)) && users == old(users)
      ensures SignupErrors(body, isEmail) == [] && lookupFails ==> resp == MessageReply(500, "Server error") && users == old(users)
      ensures SignupErrors(body, isEmail) == [] && !lookupFails && FindByEmail(old(users), body.email).Some? ==>
        resp == MessageReply(400, "User already exists") && users == old(users)
      ensures SignupErrors(body, isEmail) == [] && !lookupFails && FindByEmail(old(users), body.email).None? ==>
        if createFails then resp == MessageReply(500, "Server error") && users == old(users)
        else && resp == MessageReply(201, "User registered successfully")
             && users == old(users) + [User(newId, body.name, body.email, hash(body.password), EffectiveRole(body.role))]
      ensures UniqueEmails(old(users)) ==> UniqueEmails(users)
    {
      var errors := SignupErrors(body, isEmail);
      if errors != [] {
        return ErrorsReply(errors);
      }
      if lookupFails {
        return MessageReply(500, "Server error");
      }
      var existing := FindByEmail(users, body.email);
      if existing.Some? {
        return MessageReply(400, "User already exists");
      }
      var hashedPassword := hash(body.password);
      if createFails {
        return MessageReply(500, "Server error");
      }
      users := users + [User(newId, body.name, body.email, hashedPassword, EffectiveRole(body.role))];
      resp := MessageReply(201, "User registered successfully");
    }
  }

  /** The login body; `password` is `None` when the field is absent. */
  datatype LoginBody = LoginBody(email: string, password: Option<string>)

  /** What a token is signed over. */
  datatype Claims = Claims(id: int, role: string)

  function LoginErrors(body: LoginBody, isEmail: string -> bool): (errors: seq<string>)
    ensures errors == [] <==> isEmail(body.email) && body.password.Some?
  {
    (if !isEmail(body.email) then ["Valid email is required"] else [])
    + (if body.password.None? then ["Password is required"] else [])
  }

  /** `POST /login` over the store. `matches(password, hash)` stands for bcrypt's
      compare, `sign(claims, expiresIn)` for the token signer. */
  function Login(users: seq<User>, body: LoginBody, isEmail: string -> bool, matches: (string, string) -> bool,
                 sign: (Claims, string) -> string, lookupFails: bool): (r: Response)
    ensures r.status == 200 || r.status == 400 || r.status == 500
    ensures r.status == 500 <==> LoginErrors(body, isEmail) == [] && lookupFails
    ensures r.status == 200 <==>
      && LoginErrors(body, isEmail) == [] && !lookupFails
      && FindByEmail(users, body.email).Some?
      && matches(body.password.value, FindByEmail(users, body.email).value.passwordHash)
    ensures LoginErrors(body, isEmail) != [] ==> r.body.Keys == {"errors"}
  {
    var errors := LoginErrors(body, isEmail);
    if errors != [] then ErrorsReply(errors)
    else if lookupFails then MessageReply(500, "Server error")
    else
      match FindByEmail(users, body.email)
      case None => MessageReply(400, "Invalid Credentials")
      case Some(user) =>
        if !matches(body.password.value, user.passwordHash) then MessageReply(400, "Invalid Credentials")
        else Response(200, map["token" := Str(sign(Claims(user.id, user.role), "1h")),
                               "user" := Obj(map["id" := Num(user.id), "name" := Str(user.name), "role" := Str(user.role)])])
  }

  /** An unknown address and a wrong password get the very same answer. */
  lemma LoginDoesNotRevealAccounts(users: seq<User>, email: string, password: string, isEmail: string -> bool,
                                   matches: (string, string) -> bool, sign: (Claims, string) -> string)
    requires isEmail(email)
    requires FindByEmail(users, email).None? || !matches(password, FindByEmail(users, email).value.passwordHash)
    ensures Login(users, LoginBody(email, Some(password)), isEmail, matches, sign, false) == MessageReply(400, "Invalid Credentials")
  {
  }

  /** A successful login signs the user's id and role for one hour and returns the user
      without any password field; it succeeds only for a stored user whose hash matches. */
  lemma LoginSuccess(users: seq<User>, body: LoginBody, isEmail: string -> bool, matches: (string, string) -> bool,
                     sign: (Claims, string) -> string, lookupFails: bool)
    ensures var r := Login(users, body, isEmail, matches, sign, lookupFails);
            r.status == 200 ==>
              exists u :: u in users && u.email == body.email && body.password.Some? && matches(body.password.value, u.passwordHash)
                && r.body["token"] == Str(sign(Claims(u.id, u.role), "1h"))
                && r.body["user"] == Obj(map["id" := Num(u.id), "name" := Str(u.name), "role" := Str(u.role)])
    ensures var r := Login(users, body, isEmail, matches, sign, lookupFails);
            r.status == 200 ==> r.body["user"].Obj? && r.body["user"].fields.Keys == {"id", "name", "role"}
  {
    var r := Login(users, body, isEmail, matches, sign, lookupFails);
    if r.status == 200 {
      var u := FindByEmail(users, body.email).value;
      assert u in users;
    }
  }

  /** After a successful signup the new user can log in with the password given, as long
      as the hash matches its own password and the addresses stayed unique. */
  lemma SignedUpUserCanLogIn(users: seq<User>, body: SignupBody, hash: string -> string, newId: int,
                             isEmail: string -> bool, matches: (string, string) -> bool, sign: (Claims, string) -> string)
    requires FindByEmail(users, body.email).None?
    requires matches(body.password, hash(body.password))
    requires isEmail(body.email)
    ensures var stored := users + [User(newId, body.name, body.email, hash(body.password), EffectiveRole(body.role))];
            Login(stored, LoginBody(body.email, Some(body.password)), isEmail, matches, sign, false).status == 200
  {
    var u := User(newId, body.name, body.email, hash(body.password), EffectiveRole(body.role));
    FindAppended(users, u);
  }

  lemma {:induction false} FindAppended(users: seq<User>, u: User)
    requires FindByEmail(users, u.email).None?
    ensures FindByEmail(users + [u], u.email) == Some(u)
  {
    if users != [] {
      assert (users + [u])[1..] == users[1..] + [u];
      FindAppended(users[1..], u);
    }
  }
}
