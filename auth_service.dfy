/** Registration, password login and the request guards that resolve the current user
    (app/services/auth_service.py). */
module AuthService {
  import opened Errors
  import opened PyText
  import opened Models
  import opened Database
  import opened JwtService

  const RegisteredMessage := "User registered successfully. Pending activation."
  const EmailRegistered := HttpExc(400, "The email is already registered.")
  const RegistrationFailed := HttpExc(500, "Registration failed")
  const InvalidCredentials := HttpExc(401, "Invalid credentials.")
  const UseGoogleLogin := HttpExc(400, "This account uses Google sign-in. Please use the Google login option.")
  const AuthenticationFailed := HttpExc(500, "Authentication failed")
  const AccountNotActivated := HttpExc(403, "Account not activated. Please contact administrator.")
  const InvalidTokenPayload := HttpExc(401, "Invalid token payload")
  const InvalidToken := HttpExc(401, "Invalid token")
  const InactiveUser := HttpExc(400, "Inactive user")
  const NotEnoughPermissions := HttpExc(403, "Not enough permissions")

  /** The dictionary a successful login returns. */
  datatype TokenReply = TokenReply(accessToken: string, tokenType: string)

  /** The password length both request bodies accept (`min_length=6, max_length=128`). */
  predicate ValidPassword(password: string)
  {
    6 <= |password| <= 128
  }

  /** `db.query(User).filter(User.email == email).first()` finds a row. */
  predicate EmailTaken(t: Tables, email: string)
  {
    exists id :: id in t.users && t.users[id].email == email
  }

  /** The row that query returns; the unique index on `email` makes it the only one. */
  ghost function UserWithEmail(t: Tables, email: string): (u: User)
    requires EmailTaken(t, email)
    ensures u in t.users.Values && u.email == email
  {
    var id :| id in t.users && t.users[id].email == email; t.users[id]
  }

  /** The claims a session token carries; `uuidText` is `str` on a UUID key. */
  function SessionClaims(u: User, uuidText: Id -> string, authMethod: string): Claims
  {
    map["email" := CStr(u.email), "id" := CStr(uuidText(u.id)), "is_active" := CBool(u.isActive),
        "is_admin" := CBool(u.isAdmin), "auth_method" := CStr(authMethod)]
  }

  /** `register_user` as a transition. `hashPw` is `bcrypt.hashpw` with the salt this call draws. The lookup
      error propagates; a hashing or commit error is reported as 500 and rolls back. */
  function RegisterStep(t: Tables, email: string, password: string, hashPw: string -> Result<string>,
                        lookupFault: bool, commitFault: bool): Step<string>
    requires ValidPassword(password)
  {
    if lookupFault then Step(t, Err(DbErr(DbUnavailable)))
    else if EmailTaken(t, email) then Step(t, Err(EmailRegistered))
    else
      var hashed := hashPw(password);
      if hashed.Err? || commitFault then Step(t, Err(RegistrationFailed))
      else
        var u := NewUser(t.nextId, email, hashed.value, t.clock);
        Step(t.(users := t.users[u.id := u], clock := t.clock + 1, nextId := t.nextId + 1), Ok(RegisteredMessage))
  }

  /** `login_user`. `checkPw` is `bcrypt.checkpw` and may raise. The wrong-password 401 is raised inside a `try`
      whose catch-all turns it, like a raising check, into 500. */
  ghost function LoginOutcome(t: Tables, email: string, password: string, checkPw: (string, string) -> Result<bool>,
                              now: int, encode: Claims -> Result<string>, uuidText: Id -> string, lookupFault: bool)
    : Result<TokenReply>
    requires ValidPassword(password)
  {
    if lookupFault then Err(DbErr(DbUnavailable))
    else if !EmailTaken(t, email) then Err(InvalidCredentials)
    else
      var u := UserWithEmail(t, email);
      if u.hashedPassword == "" then Err(UseGoogleLogin)
      else
        var checked := checkPw(password, u.hashedPassword);
        if checked.Err? || !checked.value then Err(AuthenticationFailed)
        else if !u.isActive then Err(AccountNotActivated)
        else
          var token := CreateAccessToken(SessionClaims(u, uuidText, "password"), now, None, encode);
          if token.Err? then Err(AuthenticationFailed) else Ok(TokenReply(token.value, "bearer"))
  }

  /** `get_token_from_header`: a malformed header is 401 with the extraction message. */
  function GetTokenFromHeader(authorization: string): Result<string>
  {
    var token := ExtractTokenFromHeader(authorization);
    if token.Err? then Err(HttpExc(401, ExcText(token.exc))) else token
  }

  /** Python truthiness of a claim; a missing claim is `None`. */
  predicate Truthy(c: Option<Claim>)
  {
    match c
    case None => false
    case Some(CStr(s)) => s != ""
    case Some(CBool(b)) => b
    case Some(CNum(n)) => n != 0
    case Some(CNull) => false
  }

  function Get(payload: Claims, key: string): Option<Claim>
  {
    if key in payload then Some(payload[key]) else None
  }

  /** `get_current_user_payload`: a decoding ValueError becomes 401 with its message; a payload without a
      truthy "id" is 401 as well. */
  function GetCurrentUserPayload(token: string, decode: string -> Decoded): Result<Claims>
  {
    var payload := DecodeToken(token, decode);
    if payload.Err? then (if payload.exc.ValueErr? then Err(HttpExc(401, payload.exc.msg)) else payload)
    else if !Truthy(Get(payload.value, "id")) then Err(InvalidTokenPayload)
    else payload
  }

  /** The key the `User.id == payload.get("id")` filter compares with: only a claim of UUID text names a row. */
  function PayloadKey(payload: Claims, parseUuid: string -> Option<Id>): Option<Id>
  {
    if "id" in payload && payload["id"].CStr? then parseUuid(payload["id"].s) else None
  }

  /** `get_current_user`: every failure inside its `try`, the 401 for an unknown user and the 403 for an
      inactive one included, is reported as 401 "Invalid token". */
  function GetCurrentUser(t: Tables, payload: Claims, parseUuid: string -> Option<Id>, fault: bool): Result<User>
  {
    var key := PayloadKey(payload, parseUuid);
    if fault || key.None? || key.value !in t.users || !t.users[key.value].isActive then Err(InvalidToken)
    else Ok(t.users[key.value])
  }

  function GetCurrentActiveUser(u: User): Result<User>
  {
    if !u.isActive then Err(InactiveUser) else Ok(u)
  }

  function GetCurrentAdminUser(u: User): Result<User>
  {
    if !u.isAdmin then Err(NotEnoughPermissions) else Ok(u)
  }

  /** The dependency chain `get_current_user` declares: header, then payload, then user. */
  function CurrentUser(t: Tables, authorization: string, decode: string -> Decoded,
                       parseUuid: string -> Option<Id>, fault: bool): Result<User>
  {
    var token := GetTokenFromHeader(authorization);
    if token.Err? then Err(token.exc)
    else
      var payload := GetCurrentUserPayload(token.value, decode);
      if payload.Err? then Err(payload.exc) else GetCurrentUser(t, payload.value, parseUuid, fault)
  }

  method RegisterUser(db: Db, email: string, password: string, hashPw: string -> Result<string>,
                      lookupFault: bool, commitFault: bool) returns (r: Result<string>)
    requires db.Valid() && ValidPassword(password)
    modifies db
    ensures db.Valid()
    ensures Step(db.Snapshot(), r) == RegisterStep(old(db.Snapshot()), email, password, hashPw, lookupFault, commitFault)
  {
    if lookupFault {
      return Err(DbErr(DbUnavailable));
    }
    if exists id :: id in db.users && db.users[id].email == email {
      return Err(EmailRegistered);
    }
    var hashed := hashPw(password);
    if hashed.Err? {
      return Err(RegistrationFailed);
    }
    if commitFault {
      return Err(RegistrationFailed);
    }
    ghost var s := RegisterStep(db.Snapshot(), email, password, hashPw, lookupFault, commitFault);
    RegisterWellFormed(db.Snapshot(), email, password, hashPw);
    var newUser := NewUser(db.nextId, email, hashed.value, db.clock);
    r := Ok(RegisteredMessage);
    assert r == s.result;
    db.users, db.clock, db.nextId := db.users[newUser.id := newUser], db.clock + 1, db.nextId + 1;
    assert db.Snapshot() == s.tables;
  }

  /** `login_user` on the session: a read-only chain of guards. */
  method LoginUser(db: Db, email: string, password: string, checkPw: (string, string) -> Result<bool>,
                   now: int, encode: Claims -> Result<string>, uuidText: Id -> string, lookupFault: bool)
    returns (r: Result<TokenReply>)
    requires db.Valid() && ValidPassword(password)
    ensures r == LoginOutcome(db.Snapshot(), email, password, checkPw, now, encode, uuidText, lookupFault)
  {
    if lookupFault {
      return Err(DbErr(DbUnavailable));
    }
    if !exists id :: id in db.users && db.users[id].email == email {
      return Err(InvalidCredentials);
    }
    var id :| id in db.users && db.users[id].email == email;
    var user := db.users[id];
    EmailIdentifies(db.Snapshot(), email, id);
    if user.hashedPassword == "" {
      return Err(UseGoogleLogin);
    }
    var checked := checkPw(password, user.hashedPassword);
    if checked.Err? || !checked.value {
      return Err(AuthenticationFailed);
    }
    if !user.isActive {
      return Err(AccountNotActivated);
    }
    var token := CreateAccessToken(SessionClaims(user, uuidText, "password"), now, None, encode);
    if token.Err? {
      return Err(AuthenticationFailed);
    }
    r := Ok(TokenReply(token.value, "bearer"));
  }

  // ---------------------------------------------------------------- lemmas

  /** In a well-formed store an email names at most one user, so the lookup returns that one. */
  lemma EmailIdentifies(t: Tables, email: string, id: Id)
    requires WellFormed(t) && id in t.users && t.users[id].email == email
    ensures EmailTaken(t, email) && UserWithEmail(t, email) == t.users[id]
  {
  }

  /** A taken email is refused with 400 and nothing is stored. */
  lemma RegisterDuplicate(t: Tables, email: string, password: string, hashPw: string -> Result<string>, commitFault: bool)
    requires ValidPassword(password) && EmailTaken(t, email)
    ensures RegisterStep(t, email, password, hashPw, false, commitFault) ==
            Step(t, Err(HttpExc(400, "The email is already registered.")))
  {
  }

  /** A successful registration adds exactly one user: a fresh key, the given email, the hash of the given
      password, inactive, not an administrator, no credits. A failed hash or commit stores nothing. */
  lemma RegisterSpec(t: Tables, email: string, password: string, hashPw: string -> Result<string>, commitFault: bool)
    requires WellFormed(t) && ValidPassword(password) && !EmailTaken(t, email)
    ensures var s := RegisterStep(t, email, password, hashPw, false, commitFault);
            && (hashPw(password).Err? || commitFault ==> s == Step(t, Err(HttpExc(500, "Registration failed"))))
            && (hashPw(password).Ok? && !commitFault ==>
                  && s.result == Ok("User registered successfully. Pending activation.")
                  && t.nextId !in t.users
                  && s.tables.users.Keys == t.users.Keys + {t.nextId}
                  && (forall id :: id in t.users ==> s.tables.users[id] == t.users[id])
                  && var u := s.tables.users[t.nextId];
                     u.email == email && u.hashedPassword == hashPw(password).value &&
                     !u.isActive && !u.isAdmin && u.credits == 0)
            && s.tables.conversations == t.conversations && s.tables.messages == t.messages
  {
  }

  /** Registration keeps the store well formed; in particular emails stay unique. */
  lemma RegisterWellFormed(t: Tables, email: string, password: string, hashPw: string -> Result<string>)
    requires WellFormed(t) && ValidPassword(password)
    ensures forall lookupFault, commitFault ::
              WellFormed(RegisterStep(t, email, password, hashPw, lookupFault, commitFault).tables)
  {
    if !EmailTaken(t, email) && hashPw(password).Ok? {
      var u := NewUser(t.nextId, email, hashPw(password).value, t.clock);
      var n := t.(users := t.users[u.id := u], clock := t.clock + 1, nextId := t.nextId + 1);
      assert RegisterStep(t, email, password, hashPw, false, false).tables == n;
      forall a, b | a in n.users && b in n.users && n.users[a].email == n.users[b].email ensures a == b {
        if a != b && (a == u.id || b == u.id) {
          assert false;
        }
      }
    }
  }

  /** Login with an unknown email is 401. */
  lemma LoginUnknownEmail(t: Tables, email: string, password: string, checkPw: (string, string) -> Result<bool>,
                          now: int, encode: Claims -> Result<string>, uuidText: Id -> string)
    requires ValidPassword(password) && !EmailTaken(t, email)
    ensures LoginOutcome(t, email, password, checkPw, now, encode, uuidText, false) ==
            Err(HttpExc(401, "Invalid credentials."))
  {
  }

  /** The guards of `login_user` for the user `id`, in order: a Google account (no hash) is 400 before any
      check runs; a wrong or failing check is 500; an inactive account with a correct password is 403; then a
      bearer token for the five session claims with auth_method "password". */
  lemma LoginSpec(t: Tables, id: Id, password: string, checkPw: (string, string) -> Result<bool>,
                  now: int, encode: Claims -> Result<string>, uuidText: Id -> string)
    requires WellFormed(t) && id in t.users && ValidPassword(password)
    ensures var u := t.users[id];
            var r := LoginOutcome(t, u.email, password, checkPw, now, encode, uuidText, false);
            var checked := checkPw(password, u.hashedPassword);
            var claims := SessionClaims(u, uuidText, "password")["exp" := CNum(now + 3600)];
            && (u.hashedPassword == "" ==> r == Err(HttpExc(400, "This account uses Google sign-in. Please use the Google login option.")))
            && (u.hashedPassword != "" && checked != Ok(true) ==> r == Err(HttpExc(500, "Authentication failed")))
            && (u.hashedPassword != "" && checked == Ok(true) && !u.isActive ==>
                  r == Err(HttpExc(403, "Account not activated. Please contact administrator.")))
            && (r.Ok? <==> u.hashedPassword != "" && checked == Ok(true) && u.isActive && encode(claims).Ok?)
            && (r.Ok? ==> r.value == TokenReply(encode(claims).value, "bearer"))
  {
    EmailIdentifies(t, t.users[id].email, id);
  }

  /** The Google-account answer does not depend on the password check at all. */
  lemma GoogleAccountNeverChecked(t: Tables, id: Id, password: string, check1: (string, string) -> Result<bool>,
                                  check2: (string, string) -> Result<bool>, now: int, encode: Claims -> Result<string>,
                                  uuidText: Id -> string)
    requires WellFormed(t) && id in t.users && t.users[id].hashedPassword == "" && ValidPassword(password)
    ensures LoginOutcome(t, t.users[id].email, password, check1, now, encode, uuidText, false) ==
            LoginOutcome(t, t.users[id].email, password, check2, now, encode, uuidText, false)
  {
    EmailIdentifies(t, t.users[id].email, id);
  }

  /** A freshly registered account, whose password checks against its stored hash, cannot log in yet: 403. */
  lemma RegisteredUserAwaitsActivation(t: Tables, email: string, password: string, hashPw: string -> Result<string>,
                                       checkPw: (string, string) -> Result<bool>, now: int,
                                       encode: Claims -> Result<string>, uuidText: Id -> string)
    requires WellFormed(t) && ValidPassword(password) && !EmailTaken(t, email)
    requires hashPw(password).Ok? && hashPw(password).value != ""
    requires checkPw(password, hashPw(password).value) == Ok(true)
    ensures var s := RegisterStep(t, email, password, hashPw, false, false);
            LoginOutcome(s.tables, email, password, checkPw, now, encode, uuidText, false) ==
            Err(HttpExc(403, "Account not activated. Please contact administrator."))
  {
    var s := RegisterStep(t, email, password, hashPw, false, false);
    RegisterWellFormed(t, email, password, hashPw);
    EmailIdentifies(s.tables, email, t.nextId);
  }

  /** A payload passes exactly when the token decodes and carries a truthy "id"; a JWTError is 401 with the
      decoding message; a payload without "id" is 401 "Invalid token payload". */
  lemma PayloadSpec(token: string, decode: string -> Decoded)
    ensures var r := GetCurrentUserPayload(token, decode);
            && (r.Ok? <==> decode(token).Payload? && Truthy(Get(decode(token).claims, "id")))
            && (r.Ok? ==> r.value == decode(token).claims)
            && (decode(token).JwtError? ==> r == Err(HttpExc(401, "Invalid token: " + decode(token).msg)))
            && (decode(token).Payload? && "id" !in decode(token).claims ==> r == Err(HttpExc(401, "Invalid token payload")))
  {
  }

  /** `get_current_user` yields the stored, active user the payload's "id" names, and otherwise always 401
      "Invalid token", never 403 or 404. */
  lemma CurrentUserSpec(t: Tables, payload: Claims, parseUuid: string -> Option<Id>, fault: bool)
    requires WellFormed(t)
    ensures var r := GetCurrentUser(t, payload, parseUuid, fault);
            var key := PayloadKey(payload, parseUuid);
            && (r.Ok? <==> !fault && key.Some? && key.value in t.users && t.users[key.value].isActive)
            && (r.Ok? ==> r.value == t.users[key.value] && r.value.id == key.value && r.value.isActive)
            && (r.Err? ==> r.exc == HttpExc(401, "Invalid token"))
  {
  }

  /** `get_current_active_user` can never raise its 400 after `get_current_user` succeeded. */
  lemma ActiveCheckRedundant(t: Tables, payload: Claims, parseUuid: string -> Option<Id>, fault: bool)
    ensures var r := GetCurrentUser(t, payload, parseUuid, fault);
            r.Ok? ==> GetCurrentActiveUser(r.value) == Ok(r.value)
  {
  }

  /** Only administrators pass the admin guard; everyone else gets 403. */
  lemma AdminSpec(u: User)
    ensures GetCurrentAdminUser(u).Ok? <==> u.isAdmin
    ensures GetCurrentAdminUser(u).Ok? ==> GetCurrentAdminUser(u).value == u
    ensures !u.isAdmin ==> GetCurrentAdminUser(u) == Err(HttpExc(403, "Not enough permissions"))
  {
  }

  /** A request resolves to a user only with a "Bearer " header whose token decodes to a payload naming a
      stored, active user; a header failure is 401 with the extraction message. */
  lemma CurrentUserChain(t: Tables, authorization: string, decode: string -> Decoded,
                         parseUuid: string -> Option<Id>, fault: bool)
    requires WellFormed(t)
    ensures var r := CurrentUser(t, authorization, decode, parseUuid, fault);
            && (!StartsWith(authorization, "Bearer ") ==> r == Err(HttpExc(401, "Invalid authorization header format")))
            && (r.Ok? ==>
                  var token := ExtractTokenFromHeader(authorization);
                  && token.Ok?
                  && decode(token.value).Payload?
                  && PayloadKey(decode(token.value).claims, parseUuid) == Some(r.value.id)
                  && r.value.id in t.users && t.users[r.value.id] == r.value && r.value.isActive)
  {
    ExtractTokenSpec(authorization);
  }
}
