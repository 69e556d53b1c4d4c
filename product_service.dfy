/** `ProductService` (src/services/product.service.ts): plans read from the
    database, and plans created in Stripe (product, then monthly price) and
    then in the database. Stripe's calls are taken to succeed; the ids Stripe
    generates are parameters. */
module ProductService {
  import opened Wrappers
  import opened JsRuntime
  import opened Query
  import opened Prisma
  import opened ApiErrors
  import Stripe
  import PlanRepository
  import Prices = StripePriceRepository

  /** `getAllPlans`: the active plans, newest first. */
  function GetAllPlans(plans: seq<Plan>): (r: seq<Plan>)
    ensures forall k :: 0 <= k < |r| ==> r[k] in plans && r[k].active
    ensures forall k :: 0 <= k < |plans| && plans[k].active ==> plans[k] in r
    ensures forall x :: multiset(r)[x] == if x.active then multiset(plans)[x] else 0
    ensures SortedDesc(r, (p: Plan) => p.createdAt)
  {
    PlanRepository.FindAll(plans, true)
  }

  /** `getPlanById`. */
  function GetPlanById(plans: seq<Plan>, planId: string): (r: Option<Plan>)
    ensures r.Some? ==> r.value in plans && r.value.id == planId
    ensures r.None? <==> forall k :: 0 <= k < |plans| ==> plans[k].id != planId
  {
    PlanRepository.FindById(plans, planId)
  }

  /** The `planData` argument; `price` is in whole currency units. */
  datatype PlanInput = PlanInput(
    id: string,
    name: string,
    description: Option<string>,
    price: int,
    currency: Option<string>,
    image: Option<string>)

  /** The ids Stripe gives the product and the price one plan creates. */
  datatype StripeIds = StripeIds(productId: string, priceId: string)

  const CreatePlanFailed := NewApiError(500, "Failed to create plan", None, None)

  /** `planData.currency || "eur"`. */
  function CurrencyOrEur(currency: Option<string>): (c: string)
    ensures currency.Some? && Truthy(currency.value) ==> c == currency.value
    ensures !(currency.Some? && Truthy(currency.value)) ==> c == "eur"
  {
    if currency.Some? && Truthy(currency.value) then currency.value else "eur"
  }

  /** `planData.image ? [planData.image] : undefined`. */
  function Images(image: Option<string>): seq<string> {
    if image.Some? && Truthy(image.value) then [image.value] else []
  }

  /** `!plan.priceId` is false: the plan has a non-empty price id. */
  predicate HasPriceId(p: Plan) {
    p.priceId.Some? && Truthy(p.priceId.value)
  }

  /** `createPlan`, storing the plan under `planId`. The Stripe product and
      its monthly price (the amount times 100) are created first and stay
      created when the database refuses the plan, which is then a 500. */
  function CreatePlanWithId(t: Tables, st: Stripe.Snapshot, d: PlanInput, ids: StripeIds, now: int, planId: string)
    : (r: (Result<Plan, ApiError>, Tables, Stripe.Snapshot))
    ensures r.2 == st.(products := [Stripe.Product(ids.productId, d.name, d.description, Images(d.image))] + st.products,
                       prices := [Prices.NewPrice(ids.productId, d.price, Some(CurrencyOrEur(d.currency)),
                                                  Some(Stripe.Month), ids.priceId)] + st.prices)
    ensures r.0.Success? <==> PlanRepository.FindById(t.plans, planId).None?
    ensures r.0.Failure? ==> r.0.error == CreatePlanFailed && r.1 == t
    ensures r.0.Success? ==>
      && r.1 == t.(plans := t.plans + [r.0.value])
      && r.0.value.id == planId && r.0.value.priceId == Some(ids.priceId)
      && r.2.prices[0].unitAmount == Some(r.0.value.price)
  {
    var st1 := st.(products := [Stripe.Product(ids.productId, d.name, d.description, Images(d.image))] + st.products);
    var price := Prices.NewPrice(ids.productId, d.price, Some(CurrencyOrEur(d.currency)), Some(Stripe.Month), ids.priceId);
    var st2 := st1.(prices := [price] + st1.prices);
    var data := PlanRepository.NewPlan(planId, d.name, d.description, d.price * 100, CurrencyOrEur(d.currency),
                                       d.image, Some(price.id));
    match PlanRepository.AfterCreate(t.plans, data, now)
    case Failure(_) => (Failure(CreatePlanFailed), t, st2)
    case Success(plans) => (Success(PlanRepository.RowOf(data, now)), t.(plans := plans), st2)
  }

  /** `createPlan(planData)` as written: the plan's id is the new Stripe
      product's id. */
  function CreatePlanOutcome(t: Tables, st: Stripe.Snapshot, d: PlanInput, ids: StripeIds, now: int)
    : (r: (Result<Plan, ApiError>, Tables, Stripe.Snapshot))
    ensures r.0.Success? ==> r.0.value.id == ids.productId && r.0.value.price == d.price * 100
    ensures r.0.Success? <==> PlanRepository.FindById(t.plans, ids.productId).None?
  {
    CreatePlanWithId(t, st, d, ids, now, ids.productId)
  }

  /** Giving an existing plan a monthly Stripe price created from `amount`
      (which the price repository multiplies by 100), then `updatePriceId`. */
  function Reprice(t: Tables, st: Stripe.Snapshot, plan: Plan, amount: int, priceId: string)
    : (r: (Plan, Tables, Stripe.Snapshot))
    ensures r.0 == plan.(priceId := Some(priceId))
    ensures r.2 == st.(prices := [Prices.NewPrice(plan.id, amount, Some(plan.currency), Some(Stripe.Month), priceId)] + st.prices)
    ensures r.2.prices[0].unitAmount == Some(amount * 100)
  {
    var price := Prices.NewPrice(plan.id, amount, Some(plan.currency), Some(Stripe.Month), priceId);
    var st1 := st.(prices := [price] + st.prices);
    match PlanRepository.AfterUpdatePriceId(t.plans, plan.id, price.id)
    case Failure(_) => (plan.(priceId := Some(priceId)), t, st1)
    case Success(plans) => (plan.(priceId := Some(priceId)), t.(plans := plans), st1)
  }

  /** One iteration of `ensurePlansExist` as written: a missing plan is
      created (under the Stripe product id), a plan without a price id is
      priced from its stored price, any other plan is returned as it is. */
  function EnsureStep(t: Tables, st: Stripe.Snapshot, d: PlanInput, ids: StripeIds, now: int)
    : (r: (Result<Plan, ApiError>, Tables, Stripe.Snapshot))
    ensures PlanRepository.FindById(t.plans, d.id).Some? ==> r.0.Success?
    ensures r.0.Success? ==> r.0.value.id == d.id || r.0.value.id == ids.productId
    ensures r.0.Failure? ==> r.0.error == CreatePlanFailed
    ensures var found := PlanRepository.FindById(t.plans, d.id);
      found.Some? && HasPriceId(found.value) ==>
        r == (Success(found.value), t, st)
  {
    match PlanRepository.FindById(t.plans, d.id)
    case None => CreatePlanOutcome(t, st, d, ids, now)
    case Some(plan) =>
      if !HasPriceId(plan) then
        var (p, t1, st1) := Reprice(t, st, plan, plan.price, ids.priceId);
        (Success(p), t1, st1)
      else (Success(plan), t, st)
  }

  /** `ensurePlansExist` as written, over the first `|plans|` inputs; the
      `k`-th iteration gets the Stripe ids `gen(k)`. A failed `createPlan`
      ends the loop. */
  function Ensure(t: Tables, st: Stripe.Snapshot, plans: seq<PlanInput>, gen: nat -> StripeIds, now: int)
    : (r: (Result<seq<Plan>, ApiError>, Tables, Stripe.Snapshot))
    ensures r.0.Success? ==> |r.0.value| == |plans|
    ensures r.0.Success? ==> forall k :: 0 <= k < |plans| ==>
      r.0.value[k].id == plans[k].id || r.0.value[k].id == gen(k).productId
    ensures r.0.Failure? ==> r.0.error == CreatePlanFailed
    decreases |plans|
  {
    if plans == [] then (Success([]), t, st)
    else
      var n := |plans| - 1;
      var prev := Ensure(t, st, plans[..n], gen, now);
      if prev.0.Failure? then prev
      else
        var step := EnsureStep(prev.1, prev.2, plans[n], gen(n), now);
        assert forall k :: 0 <= k < n ==> plans[..n][k] == plans[k];
        (if step.0.Failure? then Failure(step.0.error) else Success(prev.0.value + [step.0.value]), step.1, step.2)
  }

  /** As written, a plan without a price id gets a Stripe price of 100
      times its stored price, which is already in cents. */
  lemma RepricedHundredfold(t: Tables, st: Stripe.Snapshot, d: PlanInput, ids: StripeIds, now: int)
    requires PlanRepository.FindById(t.plans, d.id).Some? && !HasPriceId(PlanRepository.FindById(t.plans, d.id).value)
    ensures EnsureStep(t, st, d, ids, now).2.prices[0].unitAmount
      == Some(PlanRepository.FindById(t.plans, d.id).value.price * 100)
  {
  }

  /** The seed plan `basic` as the input of `ensurePlansExist`. */
  const BasicPlan := PlanInput("basic", "Basic", None, 35, None, None)

  /** The loop over a single input is its one iteration. */
  lemma EnsureSingleton(t: Tables, st: Stripe.Snapshot, d: PlanInput, gen: nat -> StripeIds, now: int)
    ensures var step := EnsureStep(t, st, d, gen(0), now);
      Ensure(t, st, [d], gen, now)
        == (if step.0.Failure? then Failure(step.0.error) else Success([step.0.value]), step.1, step.2)
  {
    assert [d][..0] == [];
    assert Ensure(t, st, [], gen, now) == (Success([]), t, st);
    var step := EnsureStep(t, st, d, gen(0), now);
    if step.0.Success? {
      assert [] + [step.0.value] == [step.0.value];
    }
  }

  /** As written, a run over one missing plan stores it under the new Stripe
      product id, not under the id it was asked for. */
  lemma EnsureStoresUnderProductId(t: Tables, st: Stripe.Snapshot, d: PlanInput, gen: nat -> StripeIds, now: int)
    requires PlanRepository.FindById(t.plans, d.id).None?
    requires PlanRepository.FindById(t.plans, gen(0).productId).None?
    ensures var (r, t1, _) := Ensure(t, st, [d], gen, now);
      && r.Success? && |r.value| == 1 && r.value[0].id == gen(0).productId
      && t1.plans == t.plans + [r.value[0]]
  {
    EnsureSingleton(t, st, d, gen, now);
  }

  /** As written, `ensurePlansExist` is not idempotent: when "basic" is
      missing, the plan is created under the Stripe product id, so the next
      call looks up "basic" again, finds nothing and creates a second plan. */
  lemma EnsureTwiceDuplicates(t: Tables, st: Stripe.Snapshot, gen1: nat -> StripeIds, gen2: nat -> StripeIds,
                              now: int)
    requires PlanRepository.FindById(t.plans, BasicPlan.id).None?
    requires PlanRepository.FindById(t.plans, gen1(0).productId).None?
    requires PlanRepository.FindById(t.plans, gen2(0).productId).None?
    requires gen1(0).productId != BasicPlan.id && gen2(0).productId != BasicPlan.id
    requires gen1(0).productId != gen2(0).productId
    ensures var (r1, t1, st1) := Ensure(t, st, [BasicPlan], gen1, now);
      var (r2, t2, st2) := Ensure(t1, st1, [BasicPlan], gen2, now);
      && r1.Success? && r2.Success?
      && t2.plans == t.plans + [r1.value[0], r2.value[0]]
      && r1.value[0].id == gen1(0).productId && r2.value[0].id == gen2(0).productId
  {
    EnsureStoresUnderProductId(t, st, BasicPlan, gen1, now);
    var (r1, t1, st1) := Ensure(t, st, [BasicPlan], gen1, now);
    assert forall k :: 0 <= k < |t1.plans| ==> t1.plans[k].id != BasicPlan.id && t1.plans[k].id != gen2(0).productId by {
      forall k | 0 <= k < |t1.plans| ensures t1.plans[k].id != BasicPlan.id && t1.plans[k].id != gen2(0).productId {
        if k < |t.plans| {
          assert t1.plans[k] == t.plans[k];
        }
      }
    }
    EnsureStoresUnderProductId(t1, st1, BasicPlan, gen2, now);
  }

  /** One iteration with both defects corrected: a missing plan is stored
      under the given id, and a plan without a price id is priced from its
      stored cents divided by 100, so Stripe charges what the plan says. */
  function EnsureStepCorrected(t: Tables, st: Stripe.Snapshot, d: PlanInput, ids: StripeIds, now: int)
    : (r: (Result<Plan, ApiError>, Tables, Stripe.Snapshot))
    ensures PlanRepository.FindById(t.plans, d.id).Some? ==> r.0.Success?
    ensures r.0.Success? && r.0.value.id == d.id
    ensures var found := PlanRepository.FindById(t.plans, d.id);
      found.Some? && HasPriceId(found.value) ==>
        r == (Success(found.value), t, st)
    ensures var found := PlanRepository.FindById(t.plans, d.id);
      found.Some? && !HasPriceId(found.value) && found.value.price % 100 == 0 ==>
        |r.2.prices| > 0 && r.2.prices[0].unitAmount == Some(found.value.price)
  {
    match PlanRepository.FindById(t.plans, d.id)
    case None => CreatePlanWithId(t, st, d, ids, now, d.id)
    case Some(plan) =>
      if !HasPriceId(plan) then
        var (p, t1, st1) := Reprice(t, st, plan, plan.price / 100, ids.priceId);
        (Success(p), t1, st1)
      else (Success(plan), t, st)
  }

  /** `ensurePlansExist` with the corrected iteration, which cannot fail:
      a plan is created only under an id the table does not hold. */
  function EnsureCorrected(t: Tables, st: Stripe.Snapshot, plans: seq<PlanInput>, gen: nat -> StripeIds, now: int)
    : (r: (Result<seq<Plan>, ApiError>, Tables, Stripe.Snapshot))
    ensures r.0.Success? && |r.0.value| == |plans|
    ensures forall k :: 0 <= k < |plans| ==> r.0.value[k].id == plans[k].id
    decreases |plans|
  {
    if plans == [] then (Success([]), t, st)
    else
      var n := |plans| - 1;
      var prev := EnsureCorrected(t, st, plans[..n], gen, now);
      var step := EnsureStepCorrected(prev.1, prev.2, plans[n], gen(n), now);
      (Success(prev.0.value + [step.0.value]), step.1, step.2)
  }

  /** The plan with that id exists and has a price id. */
  predicate Ready(t: Tables, id: string) {
    PlanRepository.FindById(t.plans, id).Some? && HasPriceId(PlanRepository.FindById(t.plans, id).value)
  }

  /** A plan appended under a new id is ready when its price id is non-empty,
      and every plan ready before stays ready. */
  lemma CreatedReady(t: Tables, st: Stripe.Snapshot, d: PlanInput, ids: StripeIds, now: int, id: string)
    requires Truthy(ids.priceId) && PlanRepository.FindById(t.plans, d.id).None?
    ensures var t2 := CreatePlanWithId(t, st, d, ids, now, d.id).1;
      Ready(t2, d.id) && (Ready(t, id) ==> Ready(t2, id))
  {
    var t2 := CreatePlanWithId(t, st, d, ids, now, d.id).1;
    FindFirstAt(t2.plans, (p: Plan) => p.id == d.id, |t.plans|);
    if Ready(t, id) {
      var i :| 0 <= i < |t.plans| && t.plans[i] == PlanRepository.FindById(t.plans, id).value
                                  && forall j :: 0 <= j < i ==> t.plans[j].id != id;
      FindFirstAt(t2.plans, (p: Plan) => p.id == id, i);
    }
  }

  /** Giving a stored plan a non-empty price id makes it ready, and every
      plan ready before stays ready. */
  lemma RepricedReady(t: Tables, st: Stripe.Snapshot, plan: Plan, amount: int, priceId: string, id: string)
    requires Truthy(priceId) && PlanRepository.FindById(t.plans, plan.id) == Some(plan)
    ensures var t2 := Reprice(t, st, plan, amount, priceId).1;
      Ready(t2, plan.id) && (Ready(t, id) ==> Ready(t2, id))
  {
    var after := PlanRepository.AfterUpdatePriceId(t.plans, plan.id, priceId).value;
    assert Reprice(t, st, plan, amount, priceId).1.plans == after;
    UpdatedPriceFound(t.plans, plan, priceId);
    if Ready(t, id) {
      UpdatedPriceKeepsReady(t.plans, plan.id, priceId, id);
    }
  }

  /** After `updatePriceId`, the lookup finds the plan with its new price id. */
  lemma UpdatedPriceFound(plans: seq<Plan>, plan: Plan, priceId: string)
    requires PlanRepository.FindById(plans, plan.id) == Some(plan)
    ensures PlanRepository.FindById(PlanRepository.AfterUpdatePriceId(plans, plan.id, priceId).value, plan.id)
      == Some(plan.(priceId := Some(priceId)))
  {
    var after := PlanRepository.AfterUpdatePriceId(plans, plan.id, priceId).value;
    var i :| 0 <= i < |plans| && plans[i] == plan && forall j :: 0 <= j < i ==> plans[j].id != plan.id;
    assert after[i] == plan.(priceId := Some(priceId));
    FindFirstAt(after, (p: Plan) => p.id == plan.id, i);
  }

  /** `updatePriceId` takes no plan's price id away. */
  lemma UpdatedPriceKeepsReady(plans: seq<Plan>, planId: string, priceId: string, id: string)
    requires PlanRepository.FindById(plans, planId).Some? && Truthy(priceId)
    requires PlanRepository.FindById(plans, id).Some? && HasPriceId(PlanRepository.FindById(plans, id).value)
    ensures var after := PlanRepository.AfterUpdatePriceId(plans, planId, priceId).value;
      PlanRepository.FindById(after, id).Some? && HasPriceId(PlanRepository.FindById(after, id).value)
  {
    var after := PlanRepository.AfterUpdatePriceId(plans, planId, priceId).value;
    var i := FirstIndex(plans, (p: Plan) => p.id == id);
    assert plans[i] == PlanRepository.FindById(plans, id).value;
    assert forall j :: 0 <= j < i ==> after[j].id == plans[j].id;
    assert after[i].id == id && HasPriceId(after[i]);
    FindFirstAt(after, (p: Plan) => p.id == id, i);
  }

  /** A corrected iteration leaves every ready plan ready and makes its own
      plan ready. */
  lemma StepCorrectedReady(t: Tables, st: Stripe.Snapshot, d: PlanInput, ids: StripeIds, now: int, id: string)
    requires Truthy(ids.priceId)
    ensures Ready(EnsureStepCorrected(t, st, d, ids, now).1, d.id)
    ensures Ready(t, id) ==> Ready(EnsureStepCorrected(t, st, d, ids, now).1, id)
  {
    var found := PlanRepository.FindById(t.plans, d.id);
    if found.None? {
      CreatedReady(t, st, d, ids, now, id);
    } else if !HasPriceId(found.value) {
      RepricedReady(t, st, found.value, found.value.price / 100, ids.priceId, id);
    }
  }

  /** With Stripe handing out non-empty price ids, a successful corrected
      run leaves every input plan ready. */
  lemma {:induction false} EnsureCorrectedReady(t: Tables, st: Stripe.Snapshot, plans: seq<PlanInput>,
                                                gen: nat -> StripeIds, now: int)
    requires forall k :: 0 <= k < |plans| ==> Truthy(gen(k).priceId)
    ensures forall k :: 0 <= k < |plans| ==> Ready(EnsureCorrected(t, st, plans, gen, now).1, plans[k].id)
    decreases |plans|
  {
    if plans != [] {
      var n := |plans| - 1;
      var prev := EnsureCorrected(t, st, plans[..n], gen, now);
      EnsureCorrectedReady(t, st, plans[..n], gen, now);
      forall k | 0 <= k < |plans|
        ensures Ready(EnsureCorrected(t, st, plans, gen, now).1, plans[k].id)
      {
        StepCorrectedReady(prev.1, prev.2, plans[n], gen(n), now, plans[k].id);
        if k < n {
          assert plans[..n][k] == plans[k];
        }
      }
    }
  }

  /** When every input plan is ready, a corrected run changes nothing. */
  lemma {:induction false} EnsureCorrectedIdle(t: Tables, st: Stripe.Snapshot, plans: seq<PlanInput>,
                                               gen: nat -> StripeIds, now: int)
    requires forall k :: 0 <= k < |plans| ==> Ready(t, plans[k].id)
    ensures var (r, t2, st2) := EnsureCorrected(t, st, plans, gen, now);
      r.Success? && t2 == t && st2 == st
    decreases |plans|
  {
    if plans != [] {
      var n := |plans| - 1;
      forall k | 0 <= k < n ensures Ready(t, plans[..n][k].id) {
        assert plans[..n][k] == plans[k];
      }
      EnsureCorrectedIdle(t, st, plans[..n], gen, now);
    }
  }

  /** Corrected, `ensurePlansExist` is idempotent: a second run, whatever ids
      Stripe would give, creates nothing in Stripe or in the database. */
  lemma EnsureCorrectedTwice(t: Tables, st: Stripe.Snapshot, plans: seq<PlanInput>,
                             gen1: nat -> StripeIds, gen2: nat -> StripeIds, now: int)
    requires forall k :: 0 <= k < |plans| ==> Truthy(gen1(k).priceId)
    ensures var (_, t1, st1) := EnsureCorrected(t, st, plans, gen1, now);
      var (r2, t2, st2) := EnsureCorrected(t1, st1, plans, gen2, now);
      r2.Success? && t2 == t1 && st2 == st1
  {
    var (_, t1, st1) := EnsureCorrected(t, st, plans, gen1, now);
    EnsureCorrectedReady(t, st, plans, gen1, now);
    EnsureCorrectedIdle(t1, st1, plans, gen2, now);
  }

  /** `stripeProductRepo.create`: the new product is listed first. */
  method CreateProduct(acct: Stripe.Account, d: PlanInput, productId: string) returns (p: Stripe.Product)
    modifies acct
    ensures p == Stripe.Product(productId, d.name, d.description, Images(d.image))
    ensures acct.State() == old(acct.State()).(products := [p] + old(acct.products))
  {
    p := Stripe.Product(productId, d.name, d.description, Images(d.image));
    acct.products := [p] + acct.products;
  }

  /** The body of `createPlan`, storing the plan under `planId`. */
  method CreatePlanAs(db: Database, acct: Stripe.Account, d: PlanInput, ids: StripeIds, now: int, planId: string)
    returns (r: Result<Plan, ApiError>)
    modifies db, acct
    ensures (r, db.State(), acct.State()) == CreatePlanWithId(old(db.State()), old(acct.State()), d, ids, now, planId)
  {
    var product := CreateProduct(acct, d, ids.productId);
    var price := Prices.Create(acct, product.id, d.price, Some(CurrencyOrEur(d.currency)), Some(Stripe.Month), ids.priceId);
    var data := PlanRepository.NewPlan(planId, d.name, d.description, d.price * 100, CurrencyOrEur(d.currency),
                                       d.image, Some(price.id));
    var created := PlanRepository.Create(db, data, now);
    if created.Failure? {
      return Failure(CreatePlanFailed);
    }
    r := Success(created.value);
  }

  /** `createPlan(planData)`: the plan is stored under the Stripe product id. */
  method CreatePlan(db: Database, acct: Stripe.Account, d: PlanInput, ids: StripeIds, now: int)
    returns (r: Result<Plan, ApiError>)
    modifies db, acct
    ensures (r, db.State(), acct.State()) == CreatePlanOutcome(old(db.State()), old(acct.State()), d, ids, now)
  {
    r := CreatePlanAs(db, acct, d, ids, now, ids.productId);
  }

  /** One iteration of the `ensurePlansExist` loop; `corrected` selects the
      corrected iteration. */
  method EnsureOne(db: Database, acct: Stripe.Account, d: PlanInput, ids: StripeIds, now: int, corrected: bool)
    returns (r: Result<Plan, ApiError>)
    modifies db, acct
    ensures !corrected ==> (r, db.State(), acct.State()) == EnsureStep(old(db.State()), old(acct.State()), d, ids, now)
    ensures corrected ==>
      (r, db.State(), acct.State()) == EnsureStepCorrected(old(db.State()), old(acct.State()), d, ids, now)
  {
    var found := PlanRepository.FindById(db.plans, d.id);
    if found.None? {
      r := CreatePlanAs(db, acct, d, ids, now, if corrected then d.id else ids.productId);
    } else if !HasPriceId(found.value) {
      var plan := found.value;
      var amount := if corrected then plan.price / 100 else plan.price;
      var price := Prices.Create(acct, plan.id, amount, Some(plan.currency), Some(Stripe.Month), ids.priceId);
      var updated := PlanRepository.UpdatePriceId(db, plan.id, price.id);
      r := Success(updated.value);
    } else {
      r := Success(found.value);
    }
  }

  /** `Ensure` over one more input: the next iteration runs on the state
      the previous ones left. */
  lemma EnsureSnoc(t: Tables, st: Stripe.Snapshot, plans: seq<PlanInput>, gen: nat -> StripeIds, now: int,
                   i: nat, results: seq<Plan>)
    requires i < |plans|
    requires Ensure(t, st, plans[..i], gen, now).0 == Success(results)
    ensures var prev := Ensure(t, st, plans[..i], gen, now);
      var step := EnsureStep(prev.1, prev.2, plans[i], gen(i), now);
      Ensure(t, st, plans[..i + 1], gen, now)
        == (if step.0.Failure? then Failure(step.0.error) else Success(results + [step.0.value]), step.1, step.2)
  {
    assert plans[..i + 1][..i] == plans[..i];
  }

  /** A failed iteration ends the loop: the inputs after it are not looked
      at and the outcome is the one of the failure. */
  lemma {:induction false} EnsureFailed(t: Tables, st: Stripe.Snapshot, plans: seq<PlanInput>, gen: nat -> StripeIds,
                                        now: int, j: nat)
    requires j <= |plans|
    requires Ensure(t, st, plans[..j], gen, now).0.Failure?
    ensures Ensure(t, st, plans, gen, now) == Ensure(t, st, plans[..j], gen, now)
    decreases |plans|
  {
    if j < |plans| {
      var n := |plans| - 1;
      assert plans[..n][..j] == plans[..j];
      EnsureFailed(t, st, plans[..n], gen, now, j);
      EnsureFailedLast(t, st, plans, gen, now);
    } else {
      assert plans[..j] == plans;
    }
  }

  /** One unfolding of `Ensure`: a failure before the last input is the outcome. */
  lemma EnsureFailedLast(t: Tables, st: Stripe.Snapshot, plans: seq<PlanInput>, gen: nat -> StripeIds, now: int)
    requires plans != [] && Ensure(t, st, plans[..|plans| - 1], gen, now).0.Failure?
    ensures Ensure(t, st, plans, gen, now) == Ensure(t, st, plans[..|plans| - 1], gen, now)
  {
  }

  /** `ensurePlansExist(plans)`: one plan per input, in input order; the
      first failure ends the loop. */
  method EnsurePlansExist(db: Database, acct: Stripe.Account, plans: seq<PlanInput>, gen: nat -> StripeIds, now: int)
    returns (r: Result<seq<Plan>, ApiError>)
    modifies db, acct
    ensures (r, db.State(), acct.State()) == Ensure(old(db.State()), old(acct.State()), plans, gen, now)
  {
    ghost var t0, st0 := db.State(), acct.State();
    var results: seq<Plan> := [];
    var i := 0;
    while i < |plans|
      invariant 0 <= i <= |plans|
      invariant (Success(results), db.State(), acct.State()) == Ensure(t0, st0, plans[..i], gen, now)
    {
      EnsureSnoc(t0, st0, plans, gen, now, i, results);
      var step := EnsureOne(db, acct, plans[i], gen(i), now, false);
      if step.Failure? {
        EnsureFailed(t0, st0, plans, gen, now, i + 1);
        return Failure(step.error);
      }
      results := results + [step.value];
      i := i + 1;
    }
    assert plans[..i] == plans;
    r := Success(results);
  }

  /** `ensurePlansExist` with the corrected iteration. */
  method EnsurePlansExistCorrected(db: Database, acct: Stripe.Account, plans: seq<PlanInput>, gen: nat -> StripeIds,
                                   now: int)
    returns (r: Result<seq<Plan>, ApiError>)
    modifies db, acct
    ensures (r, db.State(), acct.State()) == EnsureCorrected(old(db.State()), old(acct.State()), plans, gen, now)
  {
    ghost var t0, st0 := db.State(), acct.State();
    var results: seq<Plan> := [];
    var i := 0;
    while i < |plans|
      invariant 0 <= i <= |plans|
      invariant (Success(results), db.State(), acct.State()) == EnsureCorrected(t0, st0, plans[..i], gen, now)
    {
      var step := EnsureOne(db, acct, plans[i], gen(i), now, true);
      assert plans[..i + 1][..i] == plans[..i];
      results := results + [step.value];
      i := i + 1;
    }
    assert plans[..i] == plans;
    r := Success(results);
  }
}
