/** Changing a stored password after checking the current one (app/utils/password_utils.py). */
module PasswordUtils {
  import opened Errors
  import opened Models
  import opened Database

  const PasswordChanged := "Password changed successfully"
  const UserNotFound := HttpExc(404, "User not found")
  const InvalidCurrentPassword := HttpExc(400, "Invalid current password")

  /** `verify_password`, with `checkPw` standing for `bcrypt.checkpw`, which raises on a malformed hash. */
  function VerifyPassword(plain: string, hashed: string, checkPw: (string, string) -> Result<bool>): Result<bool>
  {
    checkPw(plain, hashed)
  }

  /** `change_password` as a transition. Nothing in it is caught: a lookup, check, hashing or commit error
      propagates and the stored row keeps its old hash. */
  function ChangePasswordStep(t: Tables, userId: Id, oldPassword: string, newPassword: string,
                              checkPw: (string, string) -> Result<bool>, hashPw: string -> Result<string>,
                              lookupFault: bool, commitFault: bool): Step<string>
  {
    if lookupFault then Step(t, Err(DbErr(DbUnavailable)))
    else if userId !in t.users then Step(t, Err(UserNotFound))
    else
      var u := t.users[userId];
      var verified := VerifyPassword(oldPassword, u.hashedPassword, checkPw);
      if verified.Err? then Step(t, Err(verified.exc))
      else if !verified.value then Step(t, Err(InvalidCurrentPassword))
      else
        var hashed := hashPw(newPassword);
        if hashed.Err? then Step(t, Err(hashed.exc))
        else if commitFault then Step(t, Err(DbErr(DbUnavailable)))
        else Step(t.(users := t.users[userId := u.(hashedPassword := hashed.value)]), Ok(PasswordChanged))
  }

  method ChangePassword(db: Db, userId: Id, oldPassword: string, newPassword: string,
                        checkPw: (string, string) -> Result<bool>, hashPw: string -> Result<string>,
                        lookupFault: bool, commitFault: bool) returns (r: Result<string>)
    requires db.Valid()
    modifies db
    ensures db.Valid()
    ensures Step(db.Snapshot(), r) ==
            ChangePasswordStep(old(db.Snapshot()), userId, oldPassword, newPassword, checkPw, hashPw, lookupFault, commitFault)
  {
    if lookupFault {
      return Err(DbErr(DbUnavailable));
    }
    if userId !in db.users {
      return Err(UserNotFound);
    }
    var user := db.users[userId];
    var verified := VerifyPassword(oldPassword, user.hashedPassword, checkPw);
    if verified.Err? {
      return Err(verified.exc);
    }
    if !verified.value {
      return Err(InvalidCurrentPassword);
    }
    var hashed := hashPw(newPassword);
    if hashed.Err? {
      return Err(hashed.exc);
    }
    if commitFault {
      return Err(DbErr(DbUnavailable));
    }
    ghost var s := ChangePasswordStep(db.Snapshot(), userId, oldPassword, newPassword, checkPw, hashPw, lookupFault, commitFault);
    ChangePasswordWellFormed(db.Snapshot(), userId, oldPassword, newPassword, checkPw, hashPw);
    user := user.(hashedPassword := hashed.value);
    r := Ok(PasswordChanged);
    assert r == s.result;
    db.users := db.users[userId := user];
    assert db.Snapshot() == s.tables;
  }

  // ---------------------------------------------------------------- lemmas

  /** An unknown user is 404, and a current password that does not check is 400; neither writes anything.
      On success the stored hash is the new password's hash, the message says so, and no other column of the
      user, no other user and no other table changes. */
  lemma ChangePasswordSpec(t: Tables, userId: Id, oldPassword: string, newPassword: string,
                           checkPw: (string, string) -> Result<bool>, hashPw: string -> Result<string>)
    ensures var s := ChangePasswordStep(t, userId, oldPassword, newPassword, checkPw, hashPw, false, false);
            && (userId !in t.users ==> s == Step(t, Err(HttpExc(404, "User not found"))))
            && (userId in t.users && checkPw(oldPassword, t.users[userId].hashedPassword) == Ok(false) ==>
                  s == Step(t, Err(HttpExc(400, "Invalid current password"))))
            && (s.result.Ok? <==>
                  userId in t.users && checkPw(oldPassword, t.users[userId].hashedPassword) == Ok(true) &&
                  hashPw(newPassword).Ok?)
            && (s.result.Ok? ==>
                  && s.result.value == "Password changed successfully"
                  && s.tables.users[userId].hashedPassword == hashPw(newPassword).value
                  && s.tables.users[userId] == t.users[userId].(hashedPassword := hashPw(newPassword).value))
            && (s.result.Err? ==> s.tables == t)
            && s.tables.users.Keys == t.users.Keys
            && (forall id :: id in t.users && id != userId ==> s.tables.users[id] == t.users[id])
            && s.tables.conversations == t.conversations && s.tables.messages == t.messages
  {
  }

  /** A password change keeps the store well formed. */
  lemma ChangePasswordWellFormed(t: Tables, userId: Id, oldPassword: string, newPassword: string,
                                 checkPw: (string, string) -> Result<bool>, hashPw: string -> Result<string>)
    requires WellFormed(t)
    ensures forall lookupFault, commitFault ::
              WellFormed(ChangePasswordStep(t, userId, oldPassword, newPassword, checkPw, hashPw, lookupFault, commitFault).tables)
  {
    if userId in t.users && checkPw(oldPassword, t.users[userId].hashedPassword) == Ok(true) && hashPw(newPassword).Ok? {
      var u := t.users[userId].(hashedPassword := hashPw(newPassword).value);
      assert ChangePasswordStep(t, userId, oldPassword, newPassword, checkPw, hashPw, false, false).tables ==
             t.(users := t.users[userId := u]);
      UpdateUserWellFormed(t, userId, u);
    }
  }
}
