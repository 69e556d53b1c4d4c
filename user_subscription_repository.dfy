/** `UserSubscriptionRepository` (src/repositories/user-subscription.ts): the
    local subscription table, keyed by the Stripe subscription id. */
module UserSubscriptionRepository {
  import opened Wrappers
  import opened Query
  import opened Prisma
  import UserRepository
  import PlanRepository

  /** The `UserSubscriptionCreateInput` the webhook builds: user and plan are
      `connect`ed by id; times are milliseconds. */
  datatype NewSubscription = NewSubscription(
    userId: string,
    planId: string,
    stripeSubscriptionId: string,
    status: SubscriptionStatus,
    startDate: int,
    endDate: int)

  function RowOf(data: NewSubscription, gen: Fresh): (s: UserSubscription)
    ensures s.id == gen.id && s.stripeSubscriptionId == data.stripeSubscriptionId && s.status == data.status
  {
    UserSubscription(gen.id, data.userId, data.planId, data.stripeSubscriptionId, data.status,
                     data.startDate, data.endDate, gen.now)
  }

  /** `findUnique({ where: { stripeSubscriptionId } })`. */
  function FindByStripeSubscriptionId(subs: seq<UserSubscription>, stripeId: string): (r: Option<UserSubscription>)
    ensures r.Some? ==> r.value in subs && r.value.stripeSubscriptionId == stripeId
    ensures r.None? <==> forall k :: 0 <= k < |subs| ==> subs[k].stripeSubscriptionId != stripeId
  {
    FindFirst(subs, (s: UserSubscription) => s.stripeSubscriptionId == stripeId)
  }

  /** `findUnique({ where: { id } })`, the lookup `update` makes. */
  function FindById(subs: seq<UserSubscription>, id: string): (r: Option<UserSubscription>)
    ensures r.Some? ==> r.value in subs && r.value.id == id
    ensures r.None? <==> forall k :: 0 <= k < |subs| ==> subs[k].id != id
  {
    FindFirst(subs, (s: UserSubscription) => s.id == id)
  }

  /** The statuses `findActiveByUserAndPlan` accepts: ACTIVE and TRIALING,
      not PAST_DUE. */
  predicate CountsAsActive(status: SubscriptionStatus) {
    status == SubscriptionStatus.ACTIVE || status == SubscriptionStatus.TRIALING
  }

  /** `findActiveByUserAndPlan`: the first row of that user and plan whose
      status is ACTIVE or TRIALING. */
  function FindActiveByUserAndPlan(subs: seq<UserSubscription>, userId: string, planId: string): (r: Option<UserSubscription>)
    ensures r.Some? ==>
      && r.value in subs && r.value.userId == userId && r.value.planId == planId
      && r.value.status in {SubscriptionStatus.ACTIVE, SubscriptionStatus.TRIALING}
    ensures r.None? <==> forall k :: 0 <= k < |subs| ==>
      !(subs[k].userId == userId && subs[k].planId == planId && CountsAsActive(subs[k].status))
    ensures r.Some? ==> exists i :: 0 <= i < |subs| && subs[i] == r.value
                                    && forall j :: 0 <= j < i ==>
                                         !(subs[j].userId == userId && subs[j].planId == planId && CountsAsActive(subs[j].status))
  {
    FindFirst(subs, (s: UserSubscription) => s.userId == userId && s.planId == planId && CountsAsActive(s.status))
  }

  /** PAST_DUE rows are invisible to `findActiveByUserAndPlan`: the lookup
      answers as it would on the table without them, and finds nothing when
      every row of that user and plan is PAST_DUE. */
  lemma PastDueNotActive(subs: seq<UserSubscription>, userId: string, planId: string)
    ensures FindActiveByUserAndPlan(subs, userId, planId)
      == FindActiveByUserAndPlan(Where(subs, (s: UserSubscription) => s.status != SubscriptionStatus.PAST_DUE),
                                 userId, planId)
    ensures (forall k :: 0 <= k < |subs| && subs[k].userId == userId && subs[k].planId == planId ==>
               subs[k].status == SubscriptionStatus.PAST_DUE)
      ==> FindActiveByUserAndPlan(subs, userId, planId).None?
  {
    FindFirstIgnoresFiltered(subs,
      (s: UserSubscription) => s.userId == userId && s.planId == planId && CountsAsActive(s.status),
      (s: UserSubscription) => s.status != SubscriptionStatus.PAST_DUE);
  }

  /** `findByUserId`: the user's subscriptions, newest first. */
  function FindByUserId(subs: seq<UserSubscription>, userId: string): (r: seq<UserSubscription>)
    ensures forall k :: 0 <= k < |r| ==> r[k] in subs && r[k].userId == userId
    ensures forall k :: 0 <= k < |subs| && subs[k].userId == userId ==> subs[k] in r
    ensures forall x :: multiset(r)[x] == if x.userId == userId then multiset(subs)[x] else 0
    ensures SortedDesc(r, (s: UserSubscription) => s.createdAt)
  {
    NewestFirst(subs, (s: UserSubscription) => s.userId == userId, (s: UserSubscription) => s.createdAt)
  }

  /** The subscription table after `create(data)`: refused for a missing
      user or plan and for a Stripe subscription id (or row id) already
      present; otherwise the row is appended. No active-subscription check
      is made. */
  function AfterCreate(t: Tables, data: NewSubscription, gen: Fresh): (r: Result<seq<UserSubscription>, DbError>)
    ensures r.Success? <==>
      && UserRepository.FindById(t.users, data.userId).Some?
      && PlanRepository.FindById(t.plans, data.planId).Some?
      && FindByStripeSubscriptionId(t.subscriptions, data.stripeSubscriptionId).None?
      && FindById(t.subscriptions, gen.id).None?
    ensures FindByStripeSubscriptionId(t.subscriptions, data.stripeSubscriptionId).Some? ==> r.Failure?
    ensures r.Success? ==> r.value == t.subscriptions + [RowOf(data, gen)]
  {
    if UserRepository.FindById(t.users, data.userId).None? || PlanRepository.FindById(t.plans, data.planId).None? then
      Failure(MissingRelation)
    else if FindByStripeSubscriptionId(t.subscriptions, data.stripeSubscriptionId).Some?
         || FindById(t.subscriptions, gen.id).Some? then
      Failure(UniqueViolation)
    else Success(t.subscriptions + [RowOf(data, gen)])
  }

  /** A created subscription keeps both keys unique and is what the lookup
      by its Stripe id then returns. */
  lemma CreateThenFind(t: Tables, data: NewSubscription, gen: Fresh)
    requires UniqueBy(t.subscriptions, (s: UserSubscription) => s.id)
    requires UniqueBy(t.subscriptions, (s: UserSubscription) => s.stripeSubscriptionId)
    requires AfterCreate(t, data, gen).Success?
    ensures UniqueBy(AfterCreate(t, data, gen).value, (s: UserSubscription) => s.id)
    ensures UniqueBy(AfterCreate(t, data, gen).value, (s: UserSubscription) => s.stripeSubscriptionId)
    ensures FindByStripeSubscriptionId(AfterCreate(t, data, gen).value, data.stripeSubscriptionId)
      == Some(RowOf(data, gen))
  {
    var row := RowOf(data, gen);
    InsertKeepsUnique(t.subscriptions, (s: UserSubscription) => s.id, row);
    InsertKeepsUnique(t.subscriptions, (s: UserSubscription) => s.stripeSubscriptionId, row);
    FindFirstOnly(t.subscriptions + [row], (s: UserSubscription) => s.stripeSubscriptionId == row.stripeSubscriptionId,
                  |t.subscriptions|);
  }

  /** The table after `updateStatus(id, status)`: only the status of the row
      with that id changes; a missing id is refused. */
  function AfterUpdateStatus(subs: seq<UserSubscription>, id: string, status: SubscriptionStatus)
    : (r: Result<seq<UserSubscription>, DbError>)
    ensures r.Success? <==> FindById(subs, id).Some?
    ensures r.Failure? ==> r.error == RecordNotFound
    ensures r.Success? ==> |r.value| == |subs| && forall k :: 0 <= k < |subs| ==>
      r.value[k] == if subs[k].id == id then subs[k].(status := status) else subs[k]
  {
    if FindById(subs, id).None? then Failure(RecordNotFound)
    else Success(UpdateWhere(subs, (s: UserSubscription) => s.id == id, (s: UserSubscription) => s.(status := status)))
  }

  /** A status update keeps both keys unique, and the lookup by Stripe id
      then returns the row with the new status. */
  lemma UpdateStatusSeen(subs: seq<UserSubscription>, k: nat, status: SubscriptionStatus)
    requires UniqueBy(subs, (s: UserSubscription) => s.id)
    requires UniqueBy(subs, (s: UserSubscription) => s.stripeSubscriptionId)
    requires k < |subs|
    ensures AfterUpdateStatus(subs, subs[k].id, status).Success?
    ensures UniqueBy(AfterUpdateStatus(subs, subs[k].id, status).value, (s: UserSubscription) => s.id)
    ensures UniqueBy(AfterUpdateStatus(subs, subs[k].id, status).value, (s: UserSubscription) => s.stripeSubscriptionId)
    ensures FindByStripeSubscriptionId(AfterUpdateStatus(subs, subs[k].id, status).value, subs[k].stripeSubscriptionId)
      == Some(subs[k].(status := status))
  {
    assert subs[k] in subs;
    var after := AfterUpdateStatus(subs, subs[k].id, status).value;
    forall i, j | 0 <= i < j < |after|
      ensures after[i].id != after[j].id && after[i].stripeSubscriptionId != after[j].stripeSubscriptionId
    {
      assert after[i].id == subs[i].id && after[j].id == subs[j].id;
      assert after[i].stripeSubscriptionId == subs[i].stripeSubscriptionId;
      assert after[j].stripeSubscriptionId == subs[j].stripeSubscriptionId;
    }
    FindFirstOnly(after, (s: UserSubscription) => s.stripeSubscriptionId == subs[k].stripeSubscriptionId, k);
  }

  /** `create`: inserts the row and returns it. */
  method Create(db: Database, data: NewSubscription, gen: Fresh) returns (r: Result<UserSubscription, DbError>)
    modifies db
    ensures var t := AfterCreate(old(db.State()), data, gen);
      t.Success? ==>
        db.State() == old(db.State()).(subscriptions := t.value) && r == Success(RowOf(data, gen))
    ensures var t := AfterCreate(old(db.State()), data, gen);
      t.Failure? ==>
        db.State() == old(db.State()) && r == Failure(t.error)
  {
    var t := AfterCreate(db.State(), data, gen);
    if t.Failure? {
      return Failure(t.error);
    }
    db.subscriptions := t.value;
    r := Success(RowOf(data, gen));
  }

  /** `updateStatus`: sets the status and returns the updated row. */
  method UpdateStatus(db: Database, id: string, status: SubscriptionStatus) returns (r: Result<UserSubscription, DbError>)
    modifies db
    ensures var t := AfterUpdateStatus(old(db.subscriptions), id, status);
      t.Success? ==>
        db.State() == old(db.State()).(subscriptions := t.value)
        && r == Success(FindById(old(db.subscriptions), id).value.(status := status))
    ensures var t := AfterUpdateStatus(old(db.subscriptions), id, status);
      t.Failure? ==>
        db.State() == old(db.State()) && r == Failure(t.error)
  {
    var before := FindById(db.subscriptions, id);
    var t := AfterUpdateStatus(db.subscriptions, id, status);
    if t.Failure? {
      return Failure(t.error);
    }
    db.subscriptions := t.value;
    r := Success(before.value.(status := status));
  }
}
