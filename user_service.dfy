/** `UserService` (src/services/user.service.ts): the getters delegate to the
    repository; `addCredits` and `getUserCredits` answer 404 for an unknown
    user. A Prisma failure surfaces as a foreign (non-ApiError) exception. */
module UserService {
  import opened Wrappers
  import opened JsRuntime
  import opened Query
  import opened Prisma
  import opened ApiErrors
  import UserRepository

  /** `getUserById`. */
  function GetUserById(users: seq<User>, userId: string): (r: Option<User>)
    ensures r.Some? ==> r.value in users && r.value.id == userId
    ensures r.None? <==> forall k :: 0 <= k < |users| ==> users[k].id != userId
  {
    UserRepository.FindById(users, userId)
  }

  /** `getUserByEmail`. */
  function GetUserByEmail(users: seq<User>, email: string): (r: Option<User>)
    ensures r.Some? ==> r.value in users && r.value.email == email
    ensures r.None? <==> forall k :: 0 <= k < |users| ==> users[k].email != email
  {
    UserRepository.FindByEmail(users, email)
  }

  const UserNotFound: Thrown := Throw(404, "User not found")

  /** The table after `addCredits(userId, delta)`: 404 for an unknown user,
      otherwise the repository increment (which fails only on NaN). The
      delta's sign is not checked. */
  function AfterAddCredits(users: seq<User>, userId: string, delta: Num): (r: Result<seq<User>, Thrown>)
    ensures UserRepository.FindById(users, userId).None? ==> r == Failure(UserNotFound)
    ensures UserRepository.FindById(users, userId).Some? && delta.NaN? ==> r == Failure(Foreign(PrismaError))
    ensures r.Success? <==> UserRepository.FindById(users, userId).Some? && delta.Int?
    ensures r.Success? ==> Success(r.value) == UserRepository.AfterUpdateCredits(users, userId, delta)
  {
    if UserRepository.FindById(users, userId).None? then Failure(UserNotFound)
    else match UserRepository.AfterUpdateCredits(users, userId, delta)
      case Failure(_) => Failure(Foreign(PrismaError))
      case Success(t) => Success(t)
  }

  /** Two successful `addCredits` calls with the same delta add it twice:
      nothing in the service remembers an earlier call. */
  lemma AddCreditsTwice(users: seq<User>, userId: string, delta: int)
    requires UniqueBy(users, (u: User) => u.id)
    requires UserRepository.FindById(users, userId).Some?
    ensures AfterAddCredits(users, userId, Int(delta)).Success?
    ensures var once := AfterAddCredits(users, userId, Int(delta)).value;
      && AfterAddCredits(once, userId, Int(delta)).Success?
      && UserRepository.FindById(AfterAddCredits(once, userId, Int(delta)).value, userId).Some?
      && UserRepository.FindById(AfterAddCredits(once, userId, Int(delta)).value, userId).value.credits
         == UserRepository.FindById(users, userId).value.credits + 2 * delta
  {
    var once := AfterAddCredits(users, userId, Int(delta)).value;
    UserRepository.UpdateCreditsSeen(users, userId, delta);
    UserRepository.UpdateCreditsKeepsIds(users, userId, delta);
    UserRepository.UpdateCreditsSeen(once, userId, delta);
  }

  /** `addCredits`: checks the user exists, then increments. */
  method AddCredits(db: Database, userId: string, delta: Num) returns (r: Result<User, Thrown>)
    modifies db
    ensures var t := AfterAddCredits(old(db.users), userId, delta);
      t.Success? ==>
        db.State() == old(db.State()).(users := t.value) && r.Success?
        && UserRepository.FindById(db.users, userId) == Some(r.value)
    ensures var t := AfterAddCredits(old(db.users), userId, delta);
      t.Failure? ==>
        db.State() == old(db.State()) && r == Failure(t.error)
  {
    var user := UserRepository.FindById(db.users, userId);
    if user.None? {
      return Failure(UserNotFound);
    }
    var u := UserRepository.UpdateCredits(db, userId, delta);
    if u.Failure? {
      return Failure(Foreign(PrismaError));
    }
    r := Success(u.value);
  }

  /** `getUserCredits`: 404 for an unknown user, otherwise the stored balance. */
  function GetUserCredits(users: seq<User>, userId: string): (r: Result<int, Thrown>)
    ensures r.Failure? <==> UserRepository.FindById(users, userId).None?
    ensures r.Failure? ==> r.error == UserNotFound
    ensures r.Success? ==> exists k :: 0 <= k < |users| && users[k].id == userId && users[k].credits == r.value
  {
    match UserRepository.FindById(users, userId)
    case None => Failure(UserNotFound)
    case Some(u) => Success(u.credits)
  }

  /** `updateStripeCustomerId`: the repository update; a missing user is a
      Prisma error, not a 404. */
  method UpdateStripeCustomerId(db: Database, userId: string, customerId: string) returns (r: Result<User, Thrown>)
    modifies db
    ensures var t := UserRepository.AfterUpdateStripeCustomerId(old(db.users), userId, customerId);
      t.Success? ==>
        db.State() == old(db.State()).(users := t.value) && r.Success? && r.value.stripeCustomerId == Some(customerId)
    ensures var t := UserRepository.AfterUpdateStripeCustomerId(old(db.users), userId, customerId);
      t.Failure? ==>
        db.State() == old(db.State()) && r == Failure(Foreign(PrismaError))
  {
    var u := UserRepository.UpdateStripeCustomerId(db, userId, customerId);
    if u.Failure? {
      return Failure(Foreign(PrismaError));
    }
    ghost var k :| 0 <= k < |db.users| && db.users[k] == u.value;
    r := Success(u.value);
  }
}
