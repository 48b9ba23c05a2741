/** Signing in with Google: find or create the account, activate it, and issue a session token
    (app/services/oauth_service.py). */
module OAuthService {
  import opened Errors
  import opened PyText
  import opened Models
  import opened Database
  import opened JwtService
  import opened AuthService

  const OAuthCredits := 10
  const EmailNotProvided := HttpExc(400, "Email not provided by Google")

  /** The "user" part of the callback's reply. */
  datatype OAuthUser = OAuthUser(id: string, email: string, isActive: bool, authMethod: string)

  /** The dictionary the callback returns. */
  datatype OAuthReply = OAuthReply(accessToken: string, tokenType: string, user: OAuthUser)

  /** The callback's catch-all: every exception leaves as 400 with its text appended. */
  function OAuthFailed(e: Exc): Exc
  {
    HttpExc(400, "OAuth authentication failed: " + ExcText(e))
  }

  /** The account a Google sign-in creates: no password hash, active, ten credits. */
  function GoogleUser(id: Id, email: string, createdAt: Timestamp): User
  {
    User(id, email, "", true, false, createdAt, OAuthCredits)
  }

  /** The row for `email` after the find-or-create part, and the new tables. A failed commit stores nothing. */
  ghost function FindOrCreate(t: Tables, email: string, commitFault: bool): Step<User>
  {
    if !EmailTaken(t, email) then
      if commitFault then Step(t, Err(DbErr(DbUnavailable)))
      else
        var u := GoogleUser(t.nextId, email, t.clock);
        Step(t.(users := t.users[u.id := u], clock := t.clock + 1, nextId := t.nextId + 1), Ok(u))
    else
      var u := UserWithEmail(t, email);
      if u.isActive then Step(t, Ok(u))
      else if commitFault then Step(t, Err(DbErr(DbUnavailable)))
      else
        var activated := u.(isActive := true);
        Step(t.(users := t.users[u.id := activated]), Ok(activated))
  }

  /** `google_login_callback`. `userInfo` is what the provider exchange yields: the "email" entry of the user
      info, or the exception the token exchange or ID-token parsing raised. A row created or activated before
      the token fails stays committed. */
  ghost function GoogleLoginStep(t: Tables, userInfo: Result<Option<string>>, now: int,
                                 encode: Claims -> Result<string>, uuidText: Id -> string,
                                 lookupFault: bool, commitFault: bool): Step<OAuthReply>
  {
    if userInfo.Err? then Step(t, Err(OAuthFailed(userInfo.exc)))
    else if userInfo.value.None? || userInfo.value.value == "" then Step(t, Err(OAuthFailed(EmailNotProvided)))
    else if lookupFault then Step(t, Err(OAuthFailed(DbErr(DbUnavailable))))
    else
      var found := FindOrCreate(t, userInfo.value.value, commitFault);
      if found.result.Err? then Step(found.tables, Err(OAuthFailed(found.result.exc)))
      else
        var u := found.result.value;
        var token := CreateAccessToken(SessionClaims(u, uuidText, "oauth"), now, None, encode);
        if token.Err? then Step(found.tables, Err(OAuthFailed(token.exc)))
        else Step(found.tables, Ok(OAuthReply(token.value, "bearer", OAuthUser(uuidText(u.id), u.email, u.isActive, "oauth"))))
  }

  method GoogleLoginCallback(db: Db, userInfo: Result<Option<string>>, now: int, encode: Claims -> Result<string>,
                             uuidText: Id -> string, lookupFault: bool, commitFault: bool)
    returns (r: Result<OAuthReply>)
    requires db.Valid()
    modifies db
    ensures db.Valid()
    ensures Step(db.Snapshot(), r) ==
            GoogleLoginStep(old(db.Snapshot()), userInfo, now, encode, uuidText, lookupFault, commitFault)
  {
    if userInfo.Err? {
      return Err(OAuthFailed(userInfo.exc));
    }
    var email := userInfo.value;
    if email.None? || email.value == "" {
      return Err(OAuthFailed(EmailNotProvided));
    }
    if lookupFault {
      return Err(OAuthFailed(DbErr(DbUnavailable)));
    }
    ghost var t := db.Snapshot();
    var user: User;
    if !exists id :: id in db.users && db.users[id].email == email.value {
      if commitFault {
        return Err(OAuthFailed(DbErr(DbUnavailable)));
      }
      user := GoogleUser(db.nextId, email.value, db.clock);
      FindOrCreateWellFormed(t, email.value);
      db.users := db.users[user.id := user];
      db.clock, db.nextId := db.clock + 1, db.nextId + 1;
    } else {
      var id :| id in db.users && db.users[id].email == email.value;
      EmailIdentifies(t, email.value, id);
      user := db.users[id];
      if !user.isActive {
        if commitFault {
          return Err(OAuthFailed(DbErr(DbUnavailable)));
        }
        FindOrCreateWellFormed(t, email.value);
        user := user.(isActive := true);
        db.users := db.users[id := user];
      }
    }
    assert Step(db.Snapshot(), Ok(user)) == FindOrCreate(t, email.value, commitFault);
    var token := CreateAccessToken(SessionClaims(user, uuidText, "oauth"), now, None, encode);
    if token.Err? {
      return Err(OAuthFailed(token.exc));
    }
    r := Ok(OAuthReply(token.value, "bearer", OAuthUser(uuidText(user.id), user.email, user.isActive, "oauth")));
  }

  // ---------------------------------------------------------------- lemmas

  /** Without an email the callback's own 400 is caught and re-raised as 400 with its text, and nothing is stored. */
  lemma MissingEmail(t: Tables, email: Option<string>, now: int, encode: Claims -> Result<string>,
                     uuidText: Id -> string, lookupFault: bool, commitFault: bool)
    requires email == None || email == Some("")
    ensures GoogleLoginStep(t, Ok(email), now, encode, uuidText, lookupFault, commitFault) ==
            Step(t, Err(HttpExc(400, "OAuth authentication failed: 400: Email not provided by Google")))
  {
    assert GoogleLoginStep(t, Ok(email), now, encode, uuidText, lookupFault, commitFault) ==
           Step(t, Err(OAuthFailed(EmailNotProvided)));
    EmailNotProvidedText();
    FailedPrefixText();
  }

  /** The text of the callback's own 400. */
  lemma EmailNotProvidedText()
    ensures ExcText(EmailNotProvided) == "400: Email not provided by Google"
  {
    FourHundredText();
    assert ExcText(EmailNotProvided) == "400" + ": " + "Email not provided by Google";
    StatusPrefixText();
  }

  lemma FourHundredText()
    ensures NatToString(400) == "400"
  {
    assert NatToString(4) == "4";
    assert NatToString(40) == NatToString(4) + ['0'];
    assert NatToString(400) == NatToString(40) + ['0'];
  }

  // The two literal concatenations below are kept apart from the lemmas above: solving them in one context
  // with the callback's unfolding exceeds the resource bound.

  lemma StatusPrefixText()
    ensures "400" + ": " + "Email not provided by Google" == "400: Email not provided by Google"
  {
  }

  lemma FailedPrefixText()
    ensures "OAuth authentication failed: " + "400: Email not provided by Google" ==
            "OAuth authentication failed: 400: Email not provided by Google"
  {
  }

  /** An unknown email creates one account with an empty hash, active, not an administrator, with ten credits. */
  lemma NewGoogleAccount(t: Tables, email: string)
    requires WellFormed(t) && email != "" && !EmailTaken(t, email)
    ensures var s := FindOrCreate(t, email, false);
            && s.result == Ok(User(t.nextId, email, "", true, false, t.clock, 10))
            && t.nextId !in t.users
            && s.tables.users == t.users[t.nextId := s.result.value]
            && s.tables.conversations == t.conversations && s.tables.messages == t.messages
  {
  }

  /** A known inactive account is activated and nothing else about it changes; a known active account is
      left exactly as it was and nothing is written. */
  lemma ExistingGoogleAccount(t: Tables, id: Id, commitFault: bool)
    requires WellFormed(t) && id in t.users
    ensures var u := t.users[id];
            var s := FindOrCreate(t, u.email, commitFault);
            && (u.isActive ==> s == Step(t, Ok(u)))
            && (!u.isActive && !commitFault ==>
                  && s.result == Ok(u.(isActive := true))
                  && s.tables == t.(users := t.users[id := u.(isActive := true)]))
            && (!u.isActive && commitFault ==> s.tables == t)
  {
    EmailIdentifies(t, t.users[id].email, id);
  }

  /** A successful sign-in reports an active account with the provider's email and auth_method "oauth", and
      the token is the encoding of the session claims for the stored row, with auth_method "oauth". */
  lemma GoogleLoginReply(t: Tables, userInfo: Result<Option<string>>, now: int, encode: Claims -> Result<string>,
                         uuidText: Id -> string, lookupFault: bool, commitFault: bool)
    requires WellFormed(t)
    ensures var s := GoogleLoginStep(t, userInfo, now, encode, uuidText, lookupFault, commitFault);
            s.result.Ok? ==>
              && userInfo.Ok? && userInfo.value.Some?
              && var email := userInfo.value.value;
                 var u := FindOrCreate(t, email, commitFault).result.value;
                 && u.id in s.tables.users && s.tables.users[u.id] == u
                 && u.email == email && u.isActive
                 && s.result.value.user == OAuthUser(uuidText(u.id), email, true, "oauth")
                 && s.result.value.tokenType == "bearer"
                 && encode(SessionClaims(u, uuidText, "oauth")["exp" := CNum(now + 3600)]) == Ok(s.result.value.accessToken)
  {
    var s := GoogleLoginStep(t, userInfo, now, encode, uuidText, lookupFault, commitFault);
    if s.result.Ok? {
      var email := userInfo.value.value;
      if EmailTaken(t, email) {
        var u := UserWithEmail(t, email);
        EmailIdentifies(t, email, u.id);
      }
    }
  }

  /** Find-or-create keeps the store well formed: a created account gets a fresh key and an unused email. */
  lemma FindOrCreateWellFormed(t: Tables, email: string)
    requires WellFormed(t)
    ensures forall commitFault :: WellFormed(FindOrCreate(t, email, commitFault).tables)
  {
    if !EmailTaken(t, email) {
      var u := GoogleUser(t.nextId, email, t.clock);
      var n := t.(users := t.users[u.id := u], clock := t.clock + 1, nextId := t.nextId + 1);
      assert FindOrCreate(t, email, false).tables == n;
      forall a, b | a in n.users && b in n.users && n.users[a].email == n.users[b].email ensures a == b {
        if a != b && (a == u.id || b == u.id) {
          assert false;
        }
      }
    } else {
      var u := UserWithEmail(t, email);
      if !u.isActive {
        assert FindOrCreate(t, email, false).tables == t.(users := t.users[u.id := u.(isActive := true)]);
        UpdateUserWellFormed(t, u.id, u.(isActive := true));
      }
    }
  }

  /** The callback keeps the store well formed. */
  lemma GoogleLoginWellFormed(t: Tables, userInfo: Result<Option<string>>, now: int, encode: Claims -> Result<string>,
                              uuidText: Id -> string, lookupFault: bool, commitFault: bool)
    requires WellFormed(t)
    ensures WellFormed(GoogleLoginStep(t, userInfo, now, encode, uuidText, lookupFault, commitFault).tables)
  {
    FindOrCreateWellFormed(t, if userInfo.Ok? && userInfo.value.Some? then userInfo.value.value else "");
  }

  /** An account Google sign-in created has no password hash, so password login answers with the 400 that
      points to Google sign-in, whatever password is tried. */
  lemma GoogleAccountRefusesPassword(t: Tables, email: string, password: string,
                                     checkPw: (string, string) -> Result<bool>, now: int,
                                     encode: Claims -> Result<string>, uuidText: Id -> string)
    requires WellFormed(t) && email != "" && !EmailTaken(t, email) && ValidPassword(password)
    ensures var s := FindOrCreate(t, email, false);
            LoginOutcome(s.tables, email, password, checkPw, now, encode, uuidText, false) ==
            Err(HttpExc(400, "This account uses Google sign-in. Please use the Google login option."))
  {
    var s := FindOrCreate(t, email, false);
    FindOrCreateWellFormed(t, email);
    EmailIdentifies(s.tables, email, t.nextId);
  }
}
