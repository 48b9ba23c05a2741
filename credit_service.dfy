/** Deducting from and adding to a user's credit balance (app/services/credit_service.py). */
module CreditService {
  import opened Errors
  import opened PyText
  import opened Models
  import opened Database

  /** The dictionary `add_credits` returns. */
  datatype CreditsReply = CreditsReply(credits: int, message: string)

  /** The balance a top-up request may set is at least 0 (the request schema's `ge=0`). */
  predicate ValidTopUp(amount: int)
  {
    amount >= 0
  }

  /** `deduct_credits` as a transition: 404 for an unknown user, `False` without effect when the balance is
      short, otherwise the balance drops by `amount`. A new balance the column cannot hold (a negative
      `amount`) makes the commit fail. Errors are re-raised unchanged. */
  function DeductStep(t: Tables, userId: Id, amount: int, fault: bool): Step<bool>
  {
    if fault then Step(t, Err(DbErr(DbUnavailable)))
    else if userId !in t.users then Step(t, Err(HttpExc(404, "User not found")))
    else if t.users[userId].credits < amount then Step(t, Ok(false))
    else if !FitsCreditsColumn(t.users[userId].credits - amount) then Step(t, Err(DbErr(IntegerOutOfRange)))
    else
      var u := t.users[userId];
      Step(t.(users := t.users[userId := u.(credits := u.credits - amount)]), Ok(true))
  }

  /** `add_credits` as a transition: 404 for an unknown user, otherwise the balance grows by `amount`. A new
      balance the column cannot hold makes the commit fail, and the error is re-raised. */
  function AddCreditsStep(t: Tables, userId: Id, amount: int, fault: bool): Step<CreditsReply>
  {
    if fault then Step(t, Err(DbErr(DbUnavailable)))
    else if userId !in t.users then Step(t, Err(HttpExc(404, "User not found")))
    else if !FitsCreditsColumn(t.users[userId].credits + amount) then Step(t, Err(DbErr(IntegerOutOfRange)))
    else
      var u := t.users[userId].(credits := t.users[userId].credits + amount);
      Step(t.(users := t.users[userId := u]), Ok(CreditsReply(u.credits, "Added " + IntToString(amount) + " credits")))
  }

  method DeductCredits(db: Db, userId: Id, amount: int, fault: bool) returns (r: Result<bool>)
    requires db.Valid()
    modifies db
    ensures db.Valid()
    ensures Step(db.Snapshot(), r) == DeductStep(old(db.Snapshot()), userId, amount, fault)
  {
    if fault {
      return Err(DbErr(DbUnavailable));
    }
    if userId !in db.users {
      return Err(HttpExc(404, "User not found"));
    }
    var user := db.users[userId];
    if user.credits < amount {
      return Ok(false);
    }
    if !FitsCreditsColumn(user.credits - amount) {
      return Err(DbErr(IntegerOutOfRange));
    }
    ghost var s := DeductStep(db.Snapshot(), userId, amount, fault);
    DeductWellFormed(db.Snapshot(), userId, amount, fault);
    user := user.(credits := user.credits - amount);
    r := Ok(true);
    assert r == s.result;
    db.users := db.users[userId := user];
    assert db.Snapshot() == s.tables;
  }

  method AddCredits(db: Db, userId: Id, amount: int, fault: bool) returns (r: Result<CreditsReply>)
    requires db.Valid()
    modifies db
    ensures db.Valid()
    ensures Step(db.Snapshot(), r) == AddCreditsStep(old(db.Snapshot()), userId, amount, fault)
  {
    if fault {
      return Err(DbErr(DbUnavailable));
    }
    if userId !in db.users {
      return Err(HttpExc(404, "User not found"));
    }
    var user := db.users[userId];
    if !FitsCreditsColumn(user.credits + amount) {
      return Err(DbErr(IntegerOutOfRange));
    }
    ghost var s := AddCreditsStep(db.Snapshot(), userId, amount, fault);
    AddCreditsWellFormed(db.Snapshot(), userId, amount, fault);
    user := user.(credits := user.credits + amount);
    r := Ok(CreditsReply(user.credits, "Added " + IntToString(amount) + " credits"));
    assert r == s.result;
    db.users := db.users[userId := user];
    assert db.Snapshot() == s.tables;
  }

  // ---------------------------------------------------------------- lemmas

  /** The outcomes of `deduct_credits`; only the addressed user's balance ever changes, by exactly
      `amount`, and a balance equal to `amount` ends at 0. A positive amount never overflows the column. */
  lemma DeductSpec(t: Tables, userId: Id, amount: int)
    ensures var s := DeductStep(t, userId, amount, false);
            && (userId !in t.users ==> s == Step(t, Err(HttpExc(404, "User not found"))))
            && (userId in t.users && t.users[userId].credits < amount ==> s == Step(t, Ok(false)))
            && (userId in t.users && t.users[userId].credits >= amount &&
                !FitsCreditsColumn(t.users[userId].credits - amount) ==>
                  s == Step(t, Err(DbErr("integer out of range"))))
            && (userId in t.users && FitsCreditsColumn(t.users[userId].credits) && amount >= 0 ==>
                  FitsCreditsColumn(t.users[userId].credits - amount) || t.users[userId].credits < amount)
            && (userId in t.users && t.users[userId].credits >= amount &&
                FitsCreditsColumn(t.users[userId].credits - amount) ==>
                  && s.result == Ok(true)
                  && userId in s.tables.users
                  && s.tables.users[userId].credits == t.users[userId].credits - amount
                  && s.tables.users[userId] == t.users[userId].(credits := s.tables.users[userId].credits)
                  && (t.users[userId].credits == amount ==> s.tables.users[userId].credits == 0))
            && s.tables.users.Keys == t.users.Keys
            && (forall u :: u in t.users && u != userId ==> s.tables.users[u] == t.users[u])
            && s.tables.conversations == t.conversations && s.tables.messages == t.messages
  {
  }

  /** No balance becomes negative through `deduct_credits`, whatever the amount. */
  lemma DeductNeverNegative(t: Tables, userId: Id, amount: int, fault: bool)
    requires forall u :: u in t.users ==> t.users[u].credits >= 0
    ensures var s := DeductStep(t, userId, amount, fault);
            forall u :: u in s.tables.users ==> s.tables.users[u].credits >= 0
  {
  }

  /** `add_credits` adds exactly `amount` to the addressed user, reports the new total, and touches nothing else;
      a total past the 32-bit column is the commit's error and changes nothing. */
  lemma AddCreditsSpec(t: Tables, userId: Id, amount: int)
    ensures var s := AddCreditsStep(t, userId, amount, false);
            && (userId !in t.users ==> s == Step(t, Err(HttpExc(404, "User not found"))))
            && (userId in t.users && !FitsCreditsColumn(t.users[userId].credits + amount) ==>
                  s == Step(t, Err(DbErr("integer out of range"))))
            && (s.result.Ok? ==> FitsCreditsColumn(s.result.value.credits))
            && (userId in t.users && FitsCreditsColumn(t.users[userId].credits + amount) ==>
                  && s.result.Ok?
                  && s.result.value.credits == t.users[userId].credits + amount
                  && s.tables.users[userId].credits == s.result.value.credits
                  && s.tables.users[userId] == t.users[userId].(credits := s.result.value.credits))
            && s.tables.users.Keys == t.users.Keys
            && (forall u :: u in t.users && u != userId ==> s.tables.users[u] == t.users[u])
            && s.tables.conversations == t.conversations && s.tables.messages == t.messages
  {
  }

  /** A valid top-up never lowers a balance. */
  lemma TopUpNeverLowers(t: Tables, userId: Id, amount: int, fault: bool)
    requires ValidTopUp(amount)
    ensures var s := AddCreditsStep(t, userId, amount, fault);
            forall u :: u in t.users ==> u in s.tables.users && s.tables.users[u].credits >= t.users[u].credits
  {
  }

  /** Adding `amount` to a non-negative stored balance and then deducting the same amount succeeds and restores
      the store, unless the addition overflowed and stored nothing. (From a negative balance the deduction would
      find the balance short.) */
  lemma AddThenDeduct(t: Tables, userId: Id, amount: int)
    requires userId in t.users && t.users[userId].credits >= 0 && FitsCreditsColumn(t.users[userId].credits)
    ensures var added := AddCreditsStep(t, userId, amount, false);
            added.result.Ok? ==> DeductStep(added.tables, userId, amount, false) == Step(t, Ok(true))
  {
    if !FitsCreditsColumn(t.users[userId].credits + amount) {
      return;
    }
    var u := t.users[userId];
    var a := u.(credits := u.credits + amount);
    var added := AddCreditsStep(t, userId, amount, false).tables;
    assert added == t.(users := t.users[userId := a]);
    assert a.(credits := a.credits - amount) == u;
    assert added.users[userId := u] == t.users;
    assert added.(users := t.users) == t;
  }

  /** Deducting keeps the store well formed. */
  lemma DeductWellFormed(t: Tables, userId: Id, amount: int, fault: bool)
    requires WellFormed(t)
    ensures WellFormed(DeductStep(t, userId, amount, fault).tables)
  {
    if !fault && userId in t.users && t.users[userId].credits >= amount && FitsCreditsColumn(t.users[userId].credits - amount) {
      var u := t.users[userId];
      assert DeductStep(t, userId, amount, fault).tables == t.(users := t.users[userId := u.(credits := u.credits - amount)]);
      UpdateUserWellFormed(t, userId, u.(credits := u.credits - amount));
    }
  }

  /** Adding credits keeps the store well formed. */
  lemma AddCreditsWellFormed(t: Tables, userId: Id, amount: int, fault: bool)
    requires WellFormed(t)
    ensures WellFormed(AddCreditsStep(t, userId, amount, fault).tables)
  {
    if !fault && userId in t.users && FitsCreditsColumn(t.users[userId].credits + amount) {
      var u := t.users[userId];
      assert AddCreditsStep(t, userId, amount, fault).tables == t.(users := t.users[userId := u.(credits := u.credits + amount)]);
      UpdateUserWellFormed(t, userId, u.(credits := u.credits + amount));
    }
  }

  /** Every balance the `credits` column holds. */
  ghost predicate CreditsInColumn(t: Tables)
  {
    forall u :: u in t.users ==> FitsCreditsColumn(t.users[u].credits)
  }

  /** Neither credit operation ever stores a balance the 32-bit column cannot hold, whatever the amount. */
  lemma CreditsStayInColumn(t: Tables, userId: Id, amount: int, fault: bool)
    requires CreditsInColumn(t)
    ensures CreditsInColumn(DeductStep(t, userId, amount, fault).tables)
    ensures CreditsInColumn(AddCreditsStep(t, userId, amount, fault).tables)
  {
  }
}
