/** `UserRepository` (src/repositories/user.repository.ts): unique lookups on
    the user table, `create`, the `credits: { increment }` update and the
    single-column `stripeCustomerId` update. Each write is a pure function
    of the table (what Prisma would make of it) and a method that applies it
    to the database. */
module UserRepository {
  import opened Wrappers
  import opened JsRuntime
  import opened Query
  import opened Prisma

  /** `findUnique({ where: { id } })`. */
  function FindById(users: seq<User>, id: string): (r: Option<User>)
    ensures r.Some? ==> r.value in users && r.value.id == id
    ensures r.None? <==> forall k :: 0 <= k < |users| ==> users[k].id != id
  {
    FindFirst(users, (u: User) => u.id == id)
  }

  /** `findUnique({ where: { email } })`. */
  function FindByEmail(users: seq<User>, email: string): (r: Option<User>)
    ensures r.Some? ==> r.value in users && r.value.email == email
    ensures r.None? <==> forall k :: 0 <= k < |users| ==> users[k].email != email
  {
    FindFirst(users, (u: User) => u.email == email)
  }

  /** With unique ids, the lookup finds the one row holding the id. */
  lemma FindByIdOnly(users: seq<User>, k: nat)
    requires UniqueBy(users, (u: User) => u.id) && k < |users|
    ensures FindById(users, users[k].id) == Some(users[k])
  {
    FindFirstOnly(users, (u: User) => u.id == users[k].id, k);
  }

  /** The table after `create(user)`: the row is appended unless its id or
      email is taken. */
  function AfterCreate(users: seq<User>, user: User): (r: Result<seq<User>, DbError>)
    ensures r.Success? <==> FindById(users, user.id).None? && FindByEmail(users, user.email).None?
    ensures r.Failure? ==> r.error == UniqueViolation
    ensures r.Success? ==> r.value == users + [user]
  {
    if FindById(users, user.id).Some? || FindByEmail(users, user.email).Some? then Failure(UniqueViolation)
    else Success(users + [user])
  }

  /** A created user can be found by its id and the columns stay unique. */
  lemma CreateThenFind(users: seq<User>, user: User)
    requires UniqueBy(users, (u: User) => u.id) && UniqueBy(users, (u: User) => u.email)
    requires AfterCreate(users, user).Success?
    ensures UniqueBy(AfterCreate(users, user).value, (u: User) => u.id)
    ensures UniqueBy(AfterCreate(users, user).value, (u: User) => u.email)
    ensures FindById(AfterCreate(users, user).value, user.id) == Some(user)
  {
    var after := users + [user];
    InsertKeepsUnique(users, (u: User) => u.id, user);
    InsertKeepsUnique(users, (u: User) => u.email, user);
    FindByIdOnly(after, |users|);
  }

  /** The table after `updateCredits(userId, delta)`: Prisma refuses a NaN
      increment and an update of a missing id; otherwise only the matching
      row's credits move, by `delta` whatever its sign. */
  function AfterUpdateCredits(users: seq<User>, userId: string, delta: Num): (r: Result<seq<User>, DbError>)
    ensures delta.NaN? ==> r == Failure(InvalidValue)
    ensures delta.Int? && FindById(users, userId).None? ==> r == Failure(RecordNotFound)
    ensures r.Success? <==> delta.Int? && FindById(users, userId).Some?
    ensures r.Success? ==> |r.value| == |users| && forall k :: 0 <= k < |users| ==>
      && r.value[k].id == users[k].id
      && r.value[k].email == users[k].email
      && r.value[k].stripeCustomerId == users[k].stripeCustomerId
      && r.value[k].credits == users[k].credits + (if users[k].id == userId then delta.value else 0)
  {
    if delta.NaN? then Failure(InvalidValue)
    else if FindById(users, userId).None? then Failure(RecordNotFound)
    else Success(UpdateWhere(users, (u: User) => u.id == userId, (u: User) => u.(credits := u.credits + delta.value)))
  }

  /** The table after `updateStripeCustomerId(userId, id)`: only that column
      of the matching row changes. */
  function AfterUpdateStripeCustomerId(users: seq<User>, userId: string, customerId: string): (r: Result<seq<User>, DbError>)
    ensures r.Success? <==> FindById(users, userId).Some?
    ensures r.Failure? ==> r.error == RecordNotFound
    ensures r.Success? ==> |r.value| == |users| && forall k :: 0 <= k < |users| ==>
      && r.value[k].id == users[k].id
      && r.value[k].email == users[k].email
      && r.value[k].credits == users[k].credits
      && r.value[k].stripeCustomerId == (if users[k].id == userId then Some(customerId) else users[k].stripeCustomerId)
  {
    if FindById(users, userId).None? then Failure(RecordNotFound)
    else Success(UpdateWhere(users, (u: User) => u.id == userId, (u: User) => u.(stripeCustomerId := Some(customerId))))
  }

  /** An increment keeps the id column unique. */
  lemma UpdateCreditsKeepsIds(users: seq<User>, userId: string, delta: int)
    requires UniqueBy(users, (u: User) => u.id)
    requires FindById(users, userId).Some?
    ensures UniqueBy(AfterUpdateCredits(users, userId, Int(delta)).value, (u: User) => u.id)
  {
    var after := AfterUpdateCredits(users, userId, Int(delta)).value;
    forall i, j | 0 <= i < j < |after| ensures after[i].id != after[j].id {
      assert after[i].id == users[i].id && after[j].id == users[j].id;
    }
  }

  /** In a table with unique ids, an increment is seen by the next lookup. */
  lemma UpdateCreditsSeen(users: seq<User>, userId: string, delta: int)
    requires UniqueBy(users, (u: User) => u.id)
    requires FindById(users, userId).Some?
    ensures AfterUpdateCredits(users, userId, Int(delta)).Success?
    ensures FindById(AfterUpdateCredits(users, userId, Int(delta)).value, userId).Some?
    ensures FindById(AfterUpdateCredits(users, userId, Int(delta)).value, userId).value.credits
      == FindById(users, userId).value.credits + delta
  {
    var after := AfterUpdateCredits(users, userId, Int(delta)).value;
    UpdateCreditsKeepsIds(users, userId, delta);
    var k :| 0 <= k < |users| && users[k] == FindById(users, userId).value;
    FindByIdOnly(users, k);
    FindByIdOnly(after, k);
  }

  /** An increment leaves every other user's row as it was. */
  lemma UpdateCreditsOthers(users: seq<User>, userId: string, delta: int, other: string)
    requires UniqueBy(users, (u: User) => u.id)
    requires FindById(users, userId).Some? && other != userId
    ensures FindById(AfterUpdateCredits(users, userId, Int(delta)).value, other) == FindById(users, other)
  {
    var after := AfterUpdateCredits(users, userId, Int(delta)).value;
    UpdateCreditsKeepsIds(users, userId, delta);
    match FindById(users, other)
    case None =>
      assert forall i :: 0 <= i < |after| ==> after[i].id == users[i].id;
    case Some(o) =>
      var m :| 0 <= m < |users| && users[m] == o;
      FindByIdOnly(users, m);
      FindByIdOnly(after, m);
      assert after[m] == users[m];
  }

  /** `updateCredits`: applies the increment and returns the updated row. */
  method UpdateCredits(db: Database, userId: string, delta: Num) returns (r: Result<User, DbError>)
    modifies db
    ensures var t := AfterUpdateCredits(old(db.users), userId, delta);
      t.Success? ==>
        db.State() == old(db.State()).(users := t.value) && r.Success? && FindById(db.users, userId) == Some(r.value)
    ensures var t := AfterUpdateCredits(old(db.users), userId, delta);
      t.Failure? ==>
        db.State() == old(db.State()) && r == Failure(t.error)
  {
    var t := AfterUpdateCredits(db.users, userId, delta);
    if t.Failure? {
      return Failure(t.error);
    }
    db.users := t.value;
    ghost var k :| 0 <= k < |old(db.users)| && old(db.users)[k].id == userId;
    assert db.users[k].id == userId;
    r := Success(FindById(db.users, userId).value);
  }

  /** `updateStripeCustomerId`: sets the column and returns the updated row. */
  method UpdateStripeCustomerId(db: Database, userId: string, customerId: string) returns (r: Result<User, DbError>)
    modifies db
    ensures var t := AfterUpdateStripeCustomerId(old(db.users), userId, customerId);
      t.Success? ==>
        db.State() == old(db.State()).(users := t.value) && r.Success? && FindById(db.users, userId) == Some(r.value)
    ensures var t := AfterUpdateStripeCustomerId(old(db.users), userId, customerId);
      t.Failure? ==>
        db.State() == old(db.State()) && r == Failure(t.error)
  {
    var t := AfterUpdateStripeCustomerId(db.users, userId, customerId);
    if t.Failure? {
      return Failure(t.error);
    }
    db.users := t.value;
    ghost var k :| 0 <= k < |old(db.users)| && old(db.users)[k].id == userId;
    assert db.users[k].id == userId;
    r := Success(FindById(db.users, userId).value);
  }

  /** `create`: inserts the row and returns it. */
  method Create(db: Database, user: User) returns (r: Result<User, DbError>)
    modifies db
    ensures var t := AfterCreate(old(db.users), user);
      && (t.Success? ==> db.State() == old(db.State()).(users := t.value) && r == Success(user))
      && (t.Failure? ==> db.State() == old(db.State()) && r == Failure(t.error))
  {
    var t := AfterCreate(db.users, user);
    if t.Failure? {
      return Failure(t.error);
    }
    db.users := t.value;
    r := Success(user);
  }
}
