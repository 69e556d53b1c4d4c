/** `PlanRepository` (src/repositories/plan.repository.ts): the plan table. */
module PlanRepository {
  import opened Wrappers
  import opened Query
  import opened Prisma

  /** `findUnique({ where: { id } })`. */
  function FindById(plans: seq<Plan>, id: string): (r: Option<Plan>)
    ensures r.Some? ==> r.value in plans && r.value.id == id
    ensures r.None? <==> forall k :: 0 <= k < |plans| ==> plans[k].id != id
  {
    FindFirst(plans, (p: Plan) => p.id == id)
  }

  /** With unique ids, the lookup finds the one row holding the id. */
  lemma FindByIdOnly(plans: seq<Plan>, k: nat)
    requires UniqueBy(plans, (p: Plan) => p.id) && k < |plans|
    ensures FindById(plans, plans[k].id) == Some(plans[k])
  {
    FindFirstOnly(plans, (p: Plan) => p.id == plans[k].id, k);
  }

  /** `findAll(activeOnly)`: the active plans (every plan when `activeOnly`
      is false), newest first. The route's default is `activeOnly = true`. */
  function FindAll(plans: seq<Plan>, activeOnly: bool): (r: seq<Plan>)
    ensures forall k :: 0 <= k < |r| ==> r[k] in plans && (activeOnly ==> r[k].active)
    ensures forall k :: 0 <= k < |plans| && (plans[k].active || !activeOnly) ==> plans[k] in r
    ensures forall x :: multiset(r)[x] == if x.active || !activeOnly then multiset(plans)[x] else 0
    ensures SortedDesc(r, (p: Plan) => p.createdAt)
  {
    NewestFirst(plans, (p: Plan) => p.active || !activeOnly, (p: Plan) => p.createdAt)
  }

  /** The `PlanCreateInput` the product service builds; `active` is left to
      its default (true) and the id is given, not generated. */
  datatype NewPlan = NewPlan(
    id: string,
    name: string,
    description: Option<string>,
    price: int,
    currency: string,
    image: Option<string>,
    priceId: Option<string>)

  function RowOf(data: NewPlan, now: int): (p: Plan)
    ensures p.id == data.id && p.price == data.price && p.priceId == data.priceId && p.active
  {
    Plan(data.id, data.name, data.description, data.price, data.currency, data.image, data.priceId, true, now)
  }

  /** The plan table after `create(data)`: appended unless the id is taken. */
  function AfterCreate(plans: seq<Plan>, data: NewPlan, now: int): (r: Result<seq<Plan>, DbError>)
    ensures r.Success? <==> FindById(plans, data.id).None?
    ensures r.Failure? ==> r.error == UniqueViolation
    ensures r.Success? ==> r.value == plans + [RowOf(data, now)]
  {
    if FindById(plans, data.id).Some? then Failure(UniqueViolation) else Success(plans + [RowOf(data, now)])
  }

  /** A created plan keeps ids unique and is what `findById` then returns. */
  lemma CreateThenFind(plans: seq<Plan>, data: NewPlan, now: int)
    requires UniqueBy(plans, (p: Plan) => p.id)
    requires AfterCreate(plans, data, now).Success?
    ensures UniqueBy(AfterCreate(plans, data, now).value, (p: Plan) => p.id)
    ensures FindById(AfterCreate(plans, data, now).value, data.id) == Some(RowOf(data, now))
  {
    InsertKeepsUnique(plans, (p: Plan) => p.id, RowOf(data, now));
    FindByIdOnly(plans + [RowOf(data, now)], |plans|);
  }

  /** The plan table after `updatePriceId(planId, priceId)`: only `priceId`
      of the matching row changes; a missing id is refused. */
  function AfterUpdatePriceId(plans: seq<Plan>, planId: string, priceId: string): (r: Result<seq<Plan>, DbError>)
    ensures r.Success? <==> FindById(plans, planId).Some?
    ensures r.Failure? ==> r.error == RecordNotFound
    ensures r.Success? ==> |r.value| == |plans| && forall k :: 0 <= k < |plans| ==>
      r.value[k] == if plans[k].id == planId then plans[k].(priceId := Some(priceId)) else plans[k]
  {
    if FindById(plans, planId).None? then Failure(RecordNotFound)
    else Success(UpdateWhere(plans, (p: Plan) => p.id == planId, (p: Plan) => p.(priceId := Some(priceId))))
  }

  /** After `updatePriceId`, the lookup sees the new price id and every
      other column of the plan as it was. */
  lemma UpdatePriceIdSeen(plans: seq<Plan>, planId: string, priceId: string)
    requires UniqueBy(plans, (p: Plan) => p.id)
    requires FindById(plans, planId).Some?
    ensures UniqueBy(AfterUpdatePriceId(plans, planId, priceId).value, (p: Plan) => p.id)
    ensures FindById(AfterUpdatePriceId(plans, planId, priceId).value, planId)
      == Some(FindById(plans, planId).value.(priceId := Some(priceId)))
  {
    var after := AfterUpdatePriceId(plans, planId, priceId).value;
    forall i, j | 0 <= i < j < |after| ensures after[i].id != after[j].id {
      assert after[i].id == plans[i].id && after[j].id == plans[j].id;
    }
    var k :| 0 <= k < |plans| && plans[k] == FindById(plans, planId).value;
    FindByIdOnly(plans, k);
    FindByIdOnly(after, k);
  }

  /** `create`: inserts the plan and returns it. */
  method Create(db: Database, data: NewPlan, now: int) returns (r: Result<Plan, DbError>)
    modifies db
    ensures var t := AfterCreate(old(db.plans), data, now);
      t.Success? ==>
        db.State() == old(db.State()).(plans := t.value) && r == Success(RowOf(data, now))
    ensures var t := AfterCreate(old(db.plans), data, now);
      t.Failure? ==>
        db.State() == old(db.State()) && r == Failure(t.error)
  {
    var t := AfterCreate(db.plans, data, now);
    if t.Failure? {
      return Failure(t.error);
    }
    db.plans := t.value;
    r := Success(RowOf(data, now));
  }

  /** `updatePriceId`: sets the column and returns the updated plan. */
  method UpdatePriceId(db: Database, planId: string, priceId: string) returns (r: Result<Plan, DbError>)
    modifies db
    ensures var t := AfterUpdatePriceId(old(db.plans), planId, priceId);
      t.Success? ==>
        db.State() == old(db.State()).(plans := t.value)
        && r == Success(FindById(old(db.plans), planId).value.(priceId := Some(priceId)))
    ensures var t := AfterUpdatePriceId(old(db.plans), planId, priceId);
      t.Failure? ==>
        db.State() == old(db.State()) && r == Failure(t.error)
  {
    var before := FindById(db.plans, planId);
    var t := AfterUpdatePriceId(db.plans, planId, priceId);
    if t.Failure? {
      return Failure(t.error);
    }
    db.plans := t.value;
    r := Success(before.value.(priceId := Some(priceId)));
  }
}
