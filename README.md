# Billing core of payment-service-stripe, in Dafny

This project models the billing core of `loueysioua/payment-service-stripe`, a
Next.js storefront that sells credits and subscriptions through Stripe and
keeps its own records with Prisma. The model covers:

- the error classes and `handleApiError`;
- the zod schemas for checkout, webhook events and the invoice list;
- the Prisma repositories for users, plans, credit purchases, user
  subscriptions and invoices;
- the Stripe repositories for customers, prices, subscriptions and invoices;
- the user, product, invoice, checkout and webhook services;
- the invoice generator;
- the three core routes: `POST /api/checkout-sessions`, `GET /api/invoices`
  and `POST /api/webhooks/stripe`.

How it is modelled:

- **Prisma.** The Prisma store is the class `Prisma.Database`, with one
  sequence field per table. `Prisma.Tables` is a value snapshot of it.
- **Repository writes.** Each write is a pure function from the old table
  to the new one, or to the error Prisma would raise. A method applies it
  to the database and its `ensures` is the function.
- **Stripe.** The Stripe account is the class `Stripe.Account`. It holds
  customers, prices, products, subscriptions, checkout sessions, invoices
  and a log of invoice-related calls, with `Stripe.Snapshot` as its value.
- **Services and routes.** Each service operation and each route is a pure
  outcome function over those snapshots. A method performing the same steps
  against the objects is proved equal to it.
- **Outside inputs.** Identifiers the database or Stripe would generate,
  clocks, Stripe's answer to a session create, and its verdict on a webhook
  signature are parameters.
- **JavaScript built-ins.** The module `JsRuntime` models the ones the code
  relies on: truthiness of strings, `parseInt`, `String(n)`,
  `toUpperCase` (on ASCII letters only), `padStart` and `slice`.

Where the code and the obvious design intent disagree, the model follows the
code. In each case a lemma states what the code does:

- **Credits are added on every delivery.** A `checkout.session.completed`
  credit purchase adds its credits again each time it is delivered. Only
  the purchase and invoice rows are protected, by their unique columns
  (`StripeWebhookService.CreditPurchaseRedelivered`).
- **Redelivered invoice payments add no second row.** A redelivered
  `invoice.payment_succeeded` does not insert a second invoice. The unique
  `stripeInvoiceId` makes the second insert fail, and the handler swallows
  that failure (`StripeWebhookService.InvoicePaymentRedelivered`).
- **A bad webhook signature is a 500, not a 400.** `constructEvent` turns
  the failure into a `StripeError`, whose status is 500
  (`StripeWebhookService.ConstructEvent`, `StripeWebhookRoute.BadSignatureFailsClosed`).
- **Checkout mode strings disagree.** The schema admits "credit-purchase"
  and "subscription", but the route tests "credit-mode". Each comparison is
  modelled exactly as its own file writes it.

## Model

| member | source | states |
|---|---|---|
| ApiErrors.NewApiError | src/lib/errors/api-errors.ts:1-11 | an ApiError carries the given status, message, code and details and the ApiError class tag |
| ApiErrors.NewStripeError | src/lib/errors/api-errors.ts:13-18 | a StripeError always has status 500 and its message is "Stripe Error: " followed by the given message |
| ApiErrors.NewValidationError | src/lib/errors/api-errors.ts:20-25 | a ValidationError always has status 400 and code VALIDATION_ERROR |
| ApiErrors.Throw | src/lib/errors/api-errors.ts:1-11 | `throw new ApiError(status, message)` throws an ApiError with that status and message, no code |
| ErrorHandler.SuccessResponse | src/lib/utils/api-response.ts:8-17 | a success envelope with status 200 carrying the data |
| ErrorHandler.ErrorResponse | src/lib/utils/api-response.ts:19-36 | an error envelope with the given status and message and no code or details |
| ErrorHandler.RedirectResponse | src/lib/utils/api-response.ts:38-40 | a redirect uses status 303 to the given URL |
| ErrorHandler.HandleApiError | src/lib/errors/error-handler.ts:4-31 | the answer is never a success; an ApiError keeps its status, message, code and details; anything else is 500 "Internal server error" with code INTERNAL_ERROR |
| ErrorHandler.SubclassResponses | src/lib/errors/error-handler.ts:7-19 | a StripeError is answered with 500 and the prefixed message, a ValidationError with 400 VALIDATION_ERROR |
| ErrorHandler.InternalErrorOnlyFromForeign | src/lib/errors/error-handler.ts:4-31 | when no ApiError uses the code INTERNAL_ERROR, that code appears exactly for non-ApiError exceptions |
| CheckoutValidation.ParseCheckoutSession | src/lib/validations/checkout.validation.ts:3-7 | a form is accepted iff productId is a string of length at least 1, paymentMode is exactly "credit-purchase" or "subscription", and quantity is absent or a number at least 1; the output carries the same values |
| CheckoutValidation.ParseWebhookEvent | src/lib/validations/checkout.validation.ts:9-14 | an event is accepted iff `type` is a string and `data.object` is a record; the output carries the type and the object's fields |
| InvoiceValidation.ParseListQuery | src/lib/validations/invoice.validation.ts:3-20 | a query is accepted iff page is absent or a number at least 1, limit absent or within 1..100, status absent or one of the eight names, and neither date is null; defaults are page 1 and limit 10; every accepted query is valid |
| UserRepository.FindById | src/repositories/user.repository.ts:16-20 | the user with that id, or none iff no row has it |
| UserRepository.FindByEmail | src/repositories/user.repository.ts:22-26 | the user with that email, or none iff no row has it |
| UserRepository.FindByIdOnly | src/repositories/user.repository.ts:16-20 | with unique ids the lookup returns exactly the row holding the id |
| UserRepository.AfterCreate | src/repositories/user.repository.ts:28-32 | `create` appends exactly the given user, and fails with a unique violation iff its id or email is taken |
| UserRepository.CreateThenFind | src/repositories/user.repository.ts:16-32 | after a create, ids and emails stay unique and the new user is found by its id |
| UserRepository.AfterUpdateCredits | src/repositories/user.repository.ts:34-43 | the increment succeeds iff the delta is a number and the user exists; then only that user's credits change, by the delta whatever its sign, and every other column and row is unchanged |
| UserRepository.AfterUpdateStripeCustomerId | src/repositories/user.repository.ts:45-55 | only `stripeCustomerId` of the matching row changes; a missing id is RecordNotFound |
| UserRepository.UpdateCreditsKeepsIds | src/repositories/user.repository.ts:34-43 | an increment keeps the id column unique |
| UserRepository.UpdateCreditsSeen | src/repositories/user.repository.ts:34-43 | the next lookup sees the credits raised by exactly the delta |
| UserRepository.UpdateCreditsOthers | src/repositories/user.repository.ts:34-43 | every other user is found unchanged after an increment |
| UserRepository.UpdateCredits | src/repositories/user.repository.ts:34-43 | the database becomes `AfterUpdateCredits` of the old users, or stays unchanged with Prisma's error, and the returned row is the updated one |
| UserRepository.UpdateStripeCustomerId | src/repositories/user.repository.ts:45-55 | the database becomes `AfterUpdateStripeCustomerId` of the old users, or is unchanged on failure |
| UserRepository.Create | src/repositories/user.repository.ts:28-32 | the database becomes `AfterCreate` of the old users and the created user is returned, or it is unchanged on failure |
| UserService.GetUserById | src/services/user.service.ts:18-20 | the user with that id, or none iff none has it |
| UserService.GetUserByEmail | src/services/user.service.ts:22-24 | the user with that email, or none iff none has it |
| UserService.AfterAddCredits | src/services/user.service.ts:40-47 | an unknown user is 404 "User not found"; a NaN delta is a Prisma error; otherwise the table is the repository increment, with no check on the delta's sign |
| UserService.AddCreditsTwice | src/services/user.service.ts:40-47 | two calls with the same delta add it twice: nothing remembers an earlier call |
| UserService.AddCredits | src/services/user.service.ts:40-47 | the database becomes `AfterAddCredits` of the old users and the updated user is returned, or it is unchanged with the error |
| UserService.GetUserCredits | src/services/user.service.ts:49-55 | fails with 404 iff the user is unknown; otherwise returns that user's stored credits |
| UserService.UpdateStripeCustomerId | src/services/user.service.ts:57-62 | the repository update; a missing user surfaces as a Prisma error, not a 404 |
| CreditPurchaseRepository.FindByStripePaymentIntentId | src/repositories/credit-purchase.repository.ts:24-34 | the purchase with that payment intent, or none iff no row has it |
| CreditPurchaseRepository.AfterCreate | src/repositories/credit-purchase.repository.ts:16-22 | `create` appends exactly the built row iff the numbers are not NaN, the payment intent is set and not yet recorded, and the user and plan exist |
| CreditPurchaseRepository.CreateThenFind | src/repositories/credit-purchase.repository.ts:16-34 | after a create both unique columns stay unique and the row is found by its payment intent |
| CreditPurchaseRepository.FindByUserId | src/repositories/credit-purchase.repository.ts:36-44 | exactly the user's purchases, each as often as it is stored and no other row, newest `createdAt` first |
| CreditPurchaseRepository.Create | src/repositories/credit-purchase.repository.ts:16-22 | the database becomes `AfterCreate` of the old tables, or is unchanged on failure |
| UserSubscriptionRepository.RowOf | src/repositories/user-subscription.ts:16-22 | the inserted row has the generated id and the given Stripe id and status |
| UserSubscriptionRepository.FindByStripeSubscriptionId | src/repositories/user-subscription.ts:24-34 | the row with that Stripe subscription id, or none iff no row has it |
| UserSubscriptionRepository.FindById | src/repositories/user-subscription.ts:58-61 | the row with that id, or none iff none has it (the lookup `update` makes) |
| UserSubscriptionRepository.FindActiveByUserAndPlan | src/repositories/user-subscription.ts:36-52 | the first row in table order of that user and plan whose status is ACTIVE or TRIALING, or none iff there is none |
| UserSubscriptionRepository.PastDueNotActive | src/repositories/user-subscription.ts:44-46 | in any table, PAST_DUE rows are invisible to the active lookup: it answers as on the table without them, and finds nothing when all of the user's rows for the plan are PAST_DUE |
| UserSubscriptionRepository.FindByUserId | src/repositories/user-subscription.ts:64-72 | exactly the user's subscriptions, each as often as it is stored and no other row, newest first |
| UserSubscriptionRepository.AfterCreate | src/repositories/user-subscription.ts:16-22 | the row is appended iff user and plan exist and the Stripe subscription id is new; no active-subscription check is made |
| UserSubscriptionRepository.CreateThenFind | src/repositories/user-subscription.ts:16-34 | after a create both keys stay unique and the row is found by its Stripe id |
| UserSubscriptionRepository.AfterUpdateStatus | src/repositories/user-subscription.ts:54-62 | only the status of the row with that id changes; a missing id is RecordNotFound |
| UserSubscriptionRepository.UpdateStatusSeen | src/repositories/user-subscription.ts:24-62 | a status update keeps both keys unique and the lookup by Stripe id sees the new status |
| UserSubscriptionRepository.Create | src/repositories/user-subscription.ts:16-22 | the database becomes `AfterCreate` of the old tables, or is unchanged on failure |
| UserSubscriptionRepository.UpdateStatus | src/repositories/user-subscription.ts:54-62 | the database becomes `AfterUpdateStatus` of the old rows, or is unchanged on failure |
| PlanRepository.FindById | src/repositories/plan.repository.ts:16-20 | the plan with that id, or none iff none has it |
| PlanRepository.FindByIdOnly | src/repositories/plan.repository.ts:16-20 | with unique ids the lookup returns exactly the row holding the id |
| PlanRepository.FindAll | src/repositories/plan.repository.ts:22-27 | exactly the active plans (all plans when `activeOnly` is false), each as often as it is stored and no other row, newest first |
| PlanRepository.RowOf | src/repositories/plan.repository.ts:29-33 | the created plan carries the given id, price and price id and is active |
| PlanRepository.AfterCreate | src/repositories/plan.repository.ts:29-33 | the plan is appended iff its id is new |
| PlanRepository.CreateThenFind | src/repositories/plan.repository.ts:16-33 | after a create ids stay unique and the plan is found by its id |
| PlanRepository.AfterUpdatePriceId | src/repositories/plan.repository.ts:35-40 | only `priceId` of the matching plan changes; a missing id is RecordNotFound |
| PlanRepository.UpdatePriceIdSeen | src/repositories/plan.repository.ts:35-40 | after the update ids stay unique and the lookup sees the new price id |
| PlanRepository.Create | src/repositories/plan.repository.ts:29-33 | the database becomes `AfterCreate` of the old plans, or is unchanged on failure |
| PlanRepository.UpdatePriceId | src/repositories/plan.repository.ts:35-40 | the database becomes `AfterUpdatePriceId` of the old plans, or is unchanged on failure |
| StripeCustomerRepository.FindByEmail | src/repositories/stripe/customer.repository.ts:7-13 | the first listed (newest) customer with that email, or none iff no customer has it |
| StripeCustomerRepository.Create | src/repositories/stripe/customer.repository.ts:15-20 | exactly one customer with that email and `metadata.userId` is added, first in the list |
| StripeCustomerRepository.GetOrCreateOutcome | src/repositories/stripe/customer.repository.ts:22-28 | an existing customer is returned with the list unchanged; otherwise a new customer with that email and user id is created |
| StripeCustomerRepository.GetOrCreateCount | src/repositories/stripe/customer.repository.ts:22-28 | the list grows by exactly one iff no customer had the email, and by none otherwise |
| StripeCustomerRepository.GetOrCreateTwice | src/repositories/stripe/customer.repository.ts:22-28 | a second `getOrCreate` for the same email returns the same customer and creates nothing |
| StripeCustomerRepository.GetOrCreate | src/repositories/stripe/customer.repository.ts:22-28 | the customer and the account's customer list are `GetOrCreateOutcome` of the old list; nothing else changes |
| StripePriceRepository.FindByProductId | src/repositories/stripe/price.repository.ts:7-15 | the first listed (newest) active price of that product, or none iff the product has no active price |
| StripePriceRepository.NewPrice | src/repositories/stripe/price.repository.ts:17-29 | the unit amount is the given amount times 100, the currency defaults to "eur", and `recurring` is set only when given |
| StripePriceRepository.Create | src/repositories/stripe/price.repository.ts:17-29 | the new price is added first and is then what `findByProductId` returns for the product |
| StripeSubscriptionRepository.ListForCustomer | src/repositories/stripe/subscription.repository.ts:11-15 | the customer's subscriptions of any status, in list order, cut after the first 100: all of them when there are at most 100 |
| StripeSubscriptionRepository.FindActiveByCustomerAndProduct | src/repositories/stripe/subscription.repository.ts:7-28 | the first listed subscription whose status is active, trialing or past_due and which has an item for the product, every earlier one failing that test; none iff no listed subscription is both |
| StripeSubscriptionRepository.HasActiveSubscription | src/repositories/stripe/subscription.repository.ts:30-39 | true iff the find returns a subscription |
| StripeSubscriptionRepository.OnlyFirstHundred | src/repositories/stripe/subscription.repository.ts:11-15 | an active matching subscription behind 100 newer ones of the customer is not seen |
| StripeInvoiceRepository.FindById | src/repositories/stripe/invoice.repository.ts:97-112 | the Stripe invoice with that id, or none iff Stripe has none (`resource_missing`) |
| StripeCheckoutService.EffectiveQuantity | src/services/stripe/stripe-checkout.service.ts:63-64 | a credit purchase uses `quantity \|\| 1`, so an absent or zero quantity becomes 1; any other mode uses 1 |
| StripeCheckoutService.SessionMetadata | src/services/stripe/stripe-checkout.service.ts:109-136 | the metadata has exactly the seven keys, with the user, customer and product ids as given and `type` "credit_purchase" or "subscription_purchase" by mode |
| StripeCheckoutService.MetadataRoundTrip | src/services/stripe/stripe-checkout.service.ts:115-135 | for a credit purchase, `parseInt` reads back from the strings exactly quantity times unit amount, the quantity and the unit price |
| StripeCheckoutService.BuildSessionMetadata | src/services/stripe/stripe-checkout.service.ts:109-136 | folding the entries into a record, stringifying each, gives `SessionMetadata` |
| StripeCheckoutService.RecordOfEntries | src/services/stripe/stripe-checkout.service.ts:132-135 | the `reduce` over the seven entries in key order yields the session metadata |
| StripeCheckoutService.SessionRequest | src/services/stripe/stripe-checkout.service.ts:71-89 | the request has one line item for the price with the quantity, mode "payment" iff credit-purchase and otherwise "subscription", and the session metadata |
| StripeCheckoutService.CheckoutOutcome | src/services/stripe/stripe-checkout.service.ts:29-107 | no active price gives 404 and no change; otherwise the customer is got or created first and stays created; success iff no blocking subscription, a valid quantity and a session with a URL, and then the session is the account's newest and the result carries its id and URL; failures are 400, 404, 409 or 500 |
| StripeCheckoutService.CheckoutErrors | src/services/stripe/stripe-checkout.service.ts:45-105 | with a priced product and the customer got or created: a blocking subscription is 409 SUBSCRIPTION_EXISTS, a credit quantity below 1 is 400 "Invalid quantity", a Stripe refusal is a StripeError with Stripe's message, and a session without a URL is the 500 for a missing URL; in each case the customer stays created and no session is added, except for the session without a URL, which Stripe did create |
| StripeCheckoutService.SecondSubscriptionRefused | src/services/stripe/stripe-checkout.service.ts:46-59 | a customer with an active, trialing or past-due subscription to the product is refused with 409 SUBSCRIPTION_EXISTS and nothing is created |
| StripeCheckoutService.MissingQuantityIsOne | src/services/stripe/stripe-checkout.service.ts:63-78 | a credit purchase without quantity makes a session with one line item of quantity 1 |
| StripeCheckoutService.CreateCheckoutSession | src/services/stripe/stripe-checkout.service.ts:29-107 | the result and the new Stripe account are `CheckoutOutcome` of the old account |
| StripeCheckoutService.SessionStep | src/services/stripe/stripe-checkout.service.ts:45-98 | once price and customer are known only the session list can change; success iff no active subscription blocks a subscription request, the quantity is valid and Stripe creates a session with a URL; whenever the checks pass and Stripe creates a session it is the newest, for the effective quantity, even when its URL is missing and the answer is the 500; on success the result names it; a refusal adds no session; failures are 400, 409 or 500, and each names its cause: a blocking subscription is 409 SUBSCRIPTION_EXISTS, a credit quantity below 1 is 400 "Invalid quantity", a Stripe refusal is a StripeError with Stripe's message, a session without a URL is the missing-URL 500 |
| StripeCheckoutService.OpenSession | src/services/stripe/stripe-checkout.service.ts:45-98 | the result and the new Stripe account are `SessionStep` of the old account |
| StripeWebhookService.ConstructEvent | src/services/stripe/stripe-webhook.service.ts:32-46 | a verified event is returned as is; a verification failure becomes a StripeError "Webhook signature verification failed: …" with status 500 |
| StripeWebhookService.MapStripeSubscriptionStatus | src/services/stripe/stripe-webhook.service.ts:233-250 | active, past_due, canceled, unpaid and trialing map to their own status, each iff the string is that name; every other string, "inactive" included, maps to INACTIVE |
| StripeWebhookService.ActiveStatusesDiffer | src/services/stripe/stripe-webhook.service.ts:233-250 | every locally active status comes from a Stripe status that blocks checkout, but "past_due" blocks checkout while its local status is not active |
| StripeWebhookService.Lookup | src/services/stripe/stripe-webhook.service.ts:96-97 | the metadata value of the key, present iff the key is |
| StripeWebhookService.ParseField | src/services/stripe/stripe-webhook.service.ts:98-111 | `parseInt` of the metadata value; a missing value is NaN |
| StripeWebhookService.Times | src/services/stripe/stripe-webhook.service.ts:111 | the product of two parsed numbers, NaN iff either is NaN |
| StripeWebhookService.PurchaseData | src/services/stripe/stripe-webhook.service.ts:107-113 | the purchase links the user and plan, keeps the payment intent, has quantity `parseInt(quantity)` and total `parseInt(unitPrice) * parseInt(quantity)` |
| StripeWebhookService.SessionInvoiceData | src/services/stripe/stripe-webhook.service.ts:117-126 | the invoice links the purchase by payment intent, is PAID, and carries the session's invoice id and `amount_total` |
| StripeWebhookService.InvoiceStep | src/services/stripe/stripe-webhook.service.ts:117-126 | only the invoice table can change, and by at most one appended row |
| StripeWebhookService.PurchaseStep | src/services/stripe/stripe-webhook.service.ts:105-114 | no purchase is written when the product is not a plan; otherwise the purchase table is the repository create |
| StripeWebhookService.RecordStep | src/services/stripe/stripe-webhook.service.ts:104-131 | users, plans and subscriptions are unchanged; at most one purchase, keyed by the session's payment intent, and at most one invoice are appended |
| StripeWebhookService.CreditPurchaseEffect | src/services/stripe/stripe-webhook.service.ts:93-132 | credits change only when the user id and a numeric creditsBought are present; at most one purchase (with the session's payment intent) and one invoice are appended; plans and subscriptions are unchanged; failures are swallowed and keep earlier writes |
| StripeWebhookService.CreditPurchaseDelivered | src/services/stripe/stripe-webhook.service.ts:96-114 | a first complete delivery raises the user's credits by creditsBought and records one purchase totalling unit price times quantity |
| StripeWebhookService.CreditPurchaseRedelivered | src/services/stripe/stripe-webhook.service.ts:96-131 | a second delivery of the same session adds the credits again (twice in all) but records no further purchase or invoice |
| StripeWebhookService.CreditsWithoutRecords | src/services/stripe/stripe-webhook.service.ts:102-126 | when the product is not a plan the credits are still added, and neither a purchase nor an invoice is recorded |
| StripeWebhookService.PurchaseRecorded | src/services/stripe/stripe-webhook.service.ts:104-114 | with a known plan and user, numeric quantity and unit price and a new payment intent, the record step appends exactly the one purchase row |
| StripeWebhookService.NothingRecorded | src/services/stripe/stripe-webhook.service.ts:104-126 | when the product is not a plan and no purchase carries the payment intent, the record step writes nothing: the invoice connect is refused |
| StripeWebhookService.CheckoutMetadataRead | src/services/stripe/stripe-webhook.service.ts:96-111 | the metadata the checkout writes is read back with the same credits, quantity, unit price, user and product |
| StripeWebhookService.SubscriptionData | src/services/stripe/stripe-webhook.service.ts:145-152 | the subscription row has the mapped status, start `start_date*1000` and end `items[0].current_period_end*1000` |
| StripeWebhookService.Retrieve | src/services/stripe/stripe-webhook.service.ts:140-143 | the Stripe subscription with that id, none iff Stripe has none |
| StripeWebhookService.SubscriptionPurchaseEffect | src/services/stripe/stripe-webhook.service.ts:134-158 | fails with a TypeError iff the metadata is null (read outside the `try`); otherwise only the subscription table changes, by at most one appended row |
| StripeWebhookService.SubscriptionPurchaseRedelivered | src/services/stripe/stripe-webhook.service.ts:140-157 | a session whose subscription is already recorded changes nothing |
| StripeWebhookService.SubscriptionStatusEffect | src/services/stripe/stripe-webhook.service.ts:168-214 | only the subscription table changes and keeps its length; an unknown Stripe id changes nothing |
| StripeWebhookService.SubscriptionStatusSeen | src/services/stripe/stripe-webhook.service.ts:171-182 | a recorded subscription gets exactly the new status, in place, and the lookup by Stripe id sees it |
| StripeWebhookService.StaleUpdateRevives | src/services/stripe/stripe-webhook.service.ts:168-214 | an "updated: active" event arriving after the deletion makes the subscription ACTIVE again |
| StripeWebhookService.PaidInvoiceData | src/services/stripe/stripe-webhook.service.ts:220-225 | the invoice is unlinked, PAID, for `amount_paid`, with the invoice's PDF URL |
| StripeWebhookService.InvoicePaymentEffect | src/services/stripe/stripe-webhook.service.ts:216-231 | only the invoice table changes; an already recorded Stripe invoice changes nothing; otherwise the paid invoice row is appended |
| StripeWebhookService.InvoicePaymentRedelivered | src/services/stripe/stripe-webhook.service.ts:216-231 | a second delivery of the same paid invoice leaves the tables as the first left them |
| StripeWebhookService.SessionCompletedEffect | src/services/stripe/stripe-webhook.service.ts:80-91 | a payment session whose metadata type is credit_purchase takes the credit path (`CreditPurchaseEffect`), any other payment session changes nothing; a subscription session takes the subscription path (`SubscriptionPurchaseEffect`); a session in any other mode changes nothing; a failure can only come from a subscription session with null metadata |
| StripeWebhookService.EventEffect | src/services/stripe/stripe-webhook.service.ts:48-78 | each of the four handled types goes to its own handler: a completed session to `SessionCompletedEffect`, an updated subscription to `SubscriptionStatusEffect` with the mapped status, a deleted one to `SubscriptionStatusEffect` with CANCELED, a paid invoice to `InvoicePaymentEffect`; any other type changes nothing; the only failure is the TypeError from a completed session |
| StripeWebhookService.HandleCreditPurchase | src/services/stripe/stripe-webhook.service.ts:93-132 | the database becomes `CreditPurchaseEffect` of the old tables |
| StripeWebhookService.RecordPurchase | src/services/stripe/stripe-webhook.service.ts:104-126 | the database becomes `RecordStep` of the old tables |
| StripeWebhookService.HandleSubscriptionPurchase | src/services/stripe/stripe-webhook.service.ts:134-158 | the database becomes `SubscriptionPurchaseEffect` of the old tables, or is unchanged with its error |
| StripeWebhookService.HandleSubscriptionStatus | src/services/stripe/stripe-webhook.service.ts:168-214 | the database becomes `SubscriptionStatusEffect` of the old tables |
| StripeWebhookService.HandleInvoicePaymentSucceeded | src/services/stripe/stripe-webhook.service.ts:216-231 | the database becomes `InvoicePaymentEffect` of the old tables |
| StripeWebhookService.HandleEvent | src/services/stripe/stripe-webhook.service.ts:48-78 | the database becomes `EventEffect` of the old tables, or is unchanged with its error |
| StripeWebhookRoute.PostOutcome | src/app/api/webhooks/stripe/route.ts:7-26 | as written, every request is answered by the handler with the TypeError thrown by `request.body()`, and the tables are unchanged |
| StripeWebhookRoute.AsWrittenNeverReceives | src/app/api/webhooks/stripe/route.ts:9 | as written, every request, signed or not, gets 500 INTERNAL_ERROR and no event is applied |
| StripeWebhookRoute.ReceivedIffApplied | src/app/api/webhooks/stripe/route.ts:11-22 | reading the raw body, `{received: true}` is returned iff the header is present, the signature verifies and the handler finishes; then the tables are the event's effect, and otherwise they are unchanged |
| StripeWebhookRoute.MissingSignatureRefused | src/app/api/webhooks/stripe/route.ts:11-15 | a missing or empty `stripe-signature` header is a 400 "Missing stripe signature"; nothing is verified or applied |
| StripeWebhookRoute.BadSignatureFailsClosed | src/app/api/webhooks/stripe/route.ts:18-25 | a failed verification never dispatches, and it is answered 500 with the StripeError's prefixed message, not 400 |
| StripeWebhookRoute.UnknownEventAcknowledged | src/app/api/webhooks/stripe/route.ts:20-22 | a verified event of an unhandled type is acknowledged with `{received: true}` and changes nothing |
| StripeWebhookRoute.Post | src/app/api/webhooks/stripe/route.ts:7-26 | the response and the database are `PostOutcome` of the old tables |
| CheckoutSessionsRoute.RawData | src/app/api/checkout-sessions/route.ts:19-27 | product id and mode are passed on as read; the quantity is `parseInt` of the field iff the field is a non-empty string, and undefined otherwise |
| CheckoutSessionsRoute.QuantityFieldRead | src/app/api/checkout-sessions/route.ts:24-26 | a quantity field holding the decimal digits of n reaches the schema as the number n |
| CheckoutSessionsRoute.CreditModeCheck | src/app/api/checkout-sessions/route.ts:33-38 | as written, the check fires iff the mode is "credit-mode" and the quantity is absent or 0, with a 400 ValidationError |
| CheckoutSessionsRoute.CreditModeCheckCorrected | src/app/api/checkout-sessions/route.ts:33-38 | as intended, the check fires iff the mode is "credit-purchase" and the quantity is absent or 0 |
| CheckoutSessionsRoute.CreditModeCheckNeverFires | src/app/api/checkout-sessions/route.ts:30-38 | no form the schema accepts is ever stopped by the check as written |
| CheckoutSessionsRoute.ParamsOf | src/app/api/checkout-sessions/route.ts:41-46 | the service receives the validated fields unchanged plus the fixed demo user id and email |
| CheckoutSessionsRoute.PostOutcome | src/app/api/checkout-sessions/route.ts:14-52 | a form the schema rejects is a ZodError answered by the handler and leaves Stripe untouched; a redirect always uses status 303 |
| CheckoutSessionsRoute.RedirectIffSession | src/app/api/checkout-sessions/route.ts:40-51 | a redirect happens iff the form validates, is not stopped by the credit-mode check and the service succeeds, both directions; it goes to Stripe's URL and the session is the account's newest |
| CheckoutSessionsRoute.CreditCheckAnswers | src/app/api/checkout-sessions/route.ts:33-38 | a validated form the credit-mode check stops is answered with that check's 400 envelope, and the account is untouched |
| CheckoutSessionsRoute.ServiceErrorSurfaces | src/app/api/checkout-sessions/route.ts:40-51 | a service failure is answered with the service error's own status, message, code and details, and the account is the one the service left, a customer it created included |
| CheckoutSessionsRoute.PostErrorStatuses | src/app/api/checkout-sessions/route.ts:40-51 | every answer other than the redirect is an error envelope with status 400, 404, 409 or 500 |
| CheckoutSessionsRoute.PostKeepsCatalogue | src/app/api/checkout-sessions/route.ts:40-51 | whatever the answer, prices, products, subscriptions and invoice calls are those of the old account |
| CheckoutSessionsRoute.InvalidFormIsInternalError | src/app/api/checkout-sessions/route.ts:30 | an empty product id or the mode "credit-mode" is answered 500 INTERNAL_ERROR with Stripe unchanged |
| CheckoutSessionsRoute.CreditWithoutQuantityPasses | src/app/api/checkout-sessions/route.ts:33-48 | as written, a credit purchase without quantity goes to the service and, on success, redirects to a session with one line item of quantity 1 |
| CheckoutSessionsRoute.CreditWithoutQuantityRefused | src/app/api/checkout-sessions/route.ts:33-38 | with the corrected check the same form is answered 400 VALIDATION_ERROR and Stripe is unchanged |
| CheckoutSessionsRoute.Post | src/app/api/checkout-sessions/route.ts:14-52 | the response and the Stripe account are `PostOutcome` of the old account |
| InvoiceRepository.StatusOfName | src/repositories/invoice.repository.ts:148-150 | a status string is an enum value iff it is one of the eight names, and that value is spelled as the string |
| InvoiceRepository.StatusNameRoundTrip | src/repositories/invoice.repository.ts:148-150 | every status is read back from its own name |
| InvoiceRepository.UnlinkedIsOwnerless | src/repositories/invoice.repository.ts:64-69 | an invoice linked to neither a purchase nor a subscription belongs to no user |
| InvoiceRepository.FindById | src/repositories/invoice.repository.ts:44-62 | the invoice with that id, or none iff no row has it |
| InvoiceRepository.FindByStripeInvoiceId | src/repositories/invoice.repository.ts:87-107 | the invoice with that Stripe id, or none iff no row has it |
| InvoiceRepository.FindByIdAndUserId | src/repositories/invoice.repository.ts:64-85 | an invoice with that id whose purchase or subscription belongs to the user; none iff there is no such row |
| InvoiceRepository.FindByStripeInvoiceIdAndUserId | src/repositories/invoice.repository.ts:109-133 | an invoice with that Stripe id owned by the user; none iff there is no such row |
| InvoiceRepository.OwnedLookup | src/repositories/invoice.repository.ts:64-85 | with unique ids, the owner-checked lookup is the row when the user owns it and none otherwise |
| InvoiceRepository.RowOf | src/repositories/invoice.repository.ts:24-42 | the inserted row has the generated id, the given amount, status, Stripe id and PDF URL, no subscription or dates, and a purchase link iff one was asked for |
| InvoiceRepository.CreateError | src/repositories/invoice.repository.ts:24-42 | a create is refused when the amount is null, the purchase link does not resolve, or the Stripe invoice id is already recorded |
| InvoiceRepository.AfterCreate | src/repositories/invoice.repository.ts:24-42 | the table gains exactly the built row iff no refusal applies, and otherwise fails with that refusal |
| InvoiceRepository.CreateKeepsKeys | src/repositories/invoice.repository.ts:24-42 | a successful create keeps the id and Stripe id columns unique |
| InvoiceRepository.ResolveFilter | src/repositories/invoice.repository.ts:143-161 | the status filter is set iff a status is given, each date bound iff its own string is non-empty; an unknown status or an invalid date is refused |
| InvoiceRepository.Listing | src/repositories/invoice.repository.ts:163-180 | exactly the user's invoices that pass the filter, with inclusive date bounds, each as often as it is stored and no other row, newest `createdAt` first |
| InvoiceRepository.FindByUserId | src/repositories/invoice.repository.ts:135-188 | the page skips `(page-1)*limit` matching rows and holds at most `limit`; `totalCount` counts every matching row; a refused filter is a Prisma error |
| InvoiceRepository.PageContents | src/repositories/invoice.repository.ts:163-183 | every listed invoice is the user's and passes the filter, and the page is newest first |
| InvoiceRepository.Patched | src/repositories/invoice.repository.ts:190-247 | each supplied column takes its new value and every other column, id and links included, keeps its old one |
| InvoiceRepository.EmptyPatch | src/repositories/invoice.repository.ts:190-247 | an update that supplies no column leaves the row as it was |
| InvoiceRepository.AfterUpdate | src/repositories/invoice.repository.ts:190-254 | only the row with that id is patched and the length is kept; a missing id is RecordNotFound |
| InvoiceRepository.UpdateSeen | src/repositories/invoice.repository.ts:190-254 | an update keeps both unique columns unique, and the lookups by id and by Stripe id see the patched row |
| InvoiceRepository.UpdateKeepsKeys | src/repositories/invoice.repository.ts:190-254 | an update by the id of an existing row succeeds, patches that row, and keeps every row's id and Stripe id in place |
| InvoiceRepository.SumAmounts | src/repositories/invoice.repository.ts:295-296 | the sum of no invoices is 0, and a sum of non-negative amounts is non-negative |
| InvoiceRepository.GetInvoicesSummary | src/repositories/invoice.repository.ts:256-298 | the counts are of the user's invoices, of those PAID and of those PENDING; the amounts are the sums over the user's invoices and over the PAID ones |
| InvoiceRepository.SummaryCounts | src/repositories/invoice.repository.ts:274-280 | the paid and pending counts together never exceed the total count |
| InvoiceRepository.SummaryAmounts | src/repositories/invoice.repository.ts:281-297 | with non-negative amounts the paid sum lies between 0 and the total sum |
| InvoiceRepository.Create | src/repositories/invoice.repository.ts:24-42 | the database becomes `AfterCreate` of the old tables and the new row is returned, or it is unchanged with the error |
| InvoiceRepository.Update | src/repositories/invoice.repository.ts:190-254 | the database becomes `AfterUpdate` of the old invoices and the patched row is returned, or it is unchanged with the error |
| InvoiceRepository.UpdateStatus | src/repositories/invoice.repository.ts:190-218 | the status always and the other supplied columns are written; the returned row is the old row with that patch applied, so it has the new status; a missing id changes nothing and fails |
| InvoiceRepository.UpdateFromStripe | src/repositories/invoice.repository.ts:220-247 | only the supplied columns among amount, status, PDF URL and due date are written; `paidAt` is never touched |
| InvoiceRepository.UpdatePdfUrl | src/repositories/invoice.repository.ts:249-254 | only `pdfUrl` of the row changes |
| InvoiceService.Enrich | src/services/invoice.service.ts:46-57 | the row is kept; `stripeData` is null when there is no Stripe id, and otherwise the Stripe invoice with that id, null when Stripe has none |
| InvoiceService.EnrichAll | src/services/invoice.service.ts:45-58 | one entry per row, in the same order, each the enrichment of its row |
| InvoiceService.TotalPages | src/services/invoice.service.ts:60 | `ceil(totalCount/limit)`: the fewest pages of `limit` rows that hold every row |
| InvoiceService.Paginate | src/services/invoice.service.ts:60-71 | page and limit are echoed; `hasNext` iff rows remain after this page; `hasPrev` iff the page is above 1 |
| InvoiceService.GetUserInvoices | src/services/invoice.service.ts:28-73 | an unknown user is 404; a refused filter is a Prisma error; an existing user with an accepted filter always succeeds; a success is the page's rows in order, each enriched, with its pagination |
| InvoiceService.MorePagesMeansFullPage | src/services/invoice.service.ts:60-71 | when `hasNext` is true the page holds exactly `limit` invoices |
| InvoiceService.GetInvoiceById | src/services/invoice.service.ts:75-103 | fails with 404 iff the user is unknown; null iff the user owns no invoice with that id; otherwise that owned row, enriched |
| InvoiceService.GetInvoiceByStripeId | src/services/invoice.service.ts:105-133 | fails with 404 iff the user is unknown; null iff the user owns no invoice with that Stripe id; otherwise the row with Stripe's invoice |
| InvoiceService.DownloadUrlOutcome | src/services/invoice.service.ts:135-166 | unknown user or unowned invoice is a 404; an owned row with a stored URL returns it unchanged, any other owned row takes the Stripe step; any URL returned is non-empty; the table changes only when Stripe's PDF URL is stored on that row and returned |
| InvoiceService.StoredUrlNeedsNoStripe | src/services/invoice.service.ts:145-148 | a stored PDF URL is returned whatever Stripe holds, and nothing changes |
| InvoiceService.StripeUrlStep | src/services/invoice.service.ts:150-165 | a row with a Stripe id whose Stripe invoice has a PDF URL gets that URL stored and returned, and only then; otherwise the answer is null and nothing changes; the only failure is the Prisma error, with nothing changed |
| InvoiceService.StripePdf | src/services/invoice.service.ts:150-155 | present iff Stripe holds an invoice with the row's Stripe id whose `invoice_pdf` is non-empty, and then that URL |
| InvoiceService.DownloadUrlFromStripe | src/services/invoice.service.ts:150-162 | for an owned row without a stored URL whose Stripe invoice has a PDF URL, the request returns that URL and stores it on the row |
| InvoiceService.DownloadUrlFetched | src/services/invoice.service.ts:150-163 | a returned URL that was not on the row is written to the row by id |
| InvoiceService.PdfStoredSeen | src/services/invoice.service.ts:156-160 | after the URL is stored on one of the user's invoices, the owner-checked lookup finds that row with the URL |
| InvoiceService.DownloadUrlStored | src/services/invoice.service.ts:135-166 | after a request that returns a URL, the user still exists and the row, still the user's, holds exactly that URL |
| InvoiceService.DownloadUrlTwice | src/services/invoice.service.ts:135-166 | a second request returns the same URL and changes nothing: Stripe's URL is stored at most once |
| InvoiceService.MapStripeInvoiceStatus | src/services/invoice.service.ts:215-228 | paid maps to PAID, void to VOID, uncollectible to FAILED, each iff; everything else, open, draft and null included, maps to PENDING; OPEN is never produced |
| InvoiceService.SyncPatch | src/services/invoice.service.ts:182-189 | the amount is `amount_paid` unless that is 0 and then `amount_due`; the status is the mapped one; the due date is seconds times 1000 only when Stripe's is non-zero |
| InvoiceService.SyncOutcome | src/services/invoice.service.ts:168-192 | a missing row or Stripe id is 404 with no change; a Stripe id Stripe does not know is 404 "Stripe invoice not found" with no change; when both exist the sync succeeds; on success the row is patched from Stripe's invoice and returned |
| InvoiceService.SyncDemotesPaid | src/services/invoice.service.ts:181-189 | there is no monotonicity guard: a PAID row whose Stripe invoice is open becomes PENDING |
| InvoiceService.MarkPaidOutcome | src/services/invoice.service.ts:194-213 | an unknown Stripe id changes nothing; otherwise the row gets the paid patch |
| InvoiceService.MarkPaidSeen | src/services/invoice.service.ts:207-212 | afterwards the invoice is PAID with the given amount and payment time, and keeps its PDF URL unless one is given |
| InvoiceService.PatchTwice | src/repositories/invoice.repository.ts:190-247 | applying the same patch twice is applying it once |
| InvoiceService.UpdateTwice | src/repositories/invoice.repository.ts:190-247 | a second identical update leaves the table as the first left it |
| InvoiceService.MarkPaidTwice | src/services/invoice.service.ts:194-213 | marking the same invoice paid twice with the same data equals marking it once |
| InvoiceService.FoundBeforeAndAfter | src/services/invoice.service.ts:194-213 | with unique ids and Stripe ids, the lookup by Stripe id finds the row before an update by id and the patched row after it |
| InvoiceService.GetInvoiceDownloadUrl | src/services/invoice.service.ts:135-166 | the answer and the database are `DownloadUrlOutcome` of the old tables |
| InvoiceService.StoreStripeUrl | src/services/invoice.service.ts:150-165 | the result and the database are `StripeUrlStep` of the old tables |
| InvoiceService.SyncInvoiceWithStripe | src/services/invoice.service.ts:168-192 | the answer and the database are `SyncOutcome` of the old tables |
| InvoiceService.MarkInvoiceAsPaid | src/services/invoice.service.ts:194-213 | the database becomes `MarkPaidOutcome` of the old tables |
| InvoicesRoute.NumberParam | src/app/api/invoices/route.ts:19-22 | the default when the parameter is missing or empty, otherwise `parseInt` of it |
| InvoicesRoute.DateParam | src/app/api/invoices/route.ts:26-27 | as written, a missing date parameter is null |
| InvoicesRoute.DateParamCorrected | src/app/api/invoices/route.ts:26-27 | as intended, a missing date parameter is undefined |
| InvoicesRoute.QueryData | src/app/api/invoices/route.ts:18-28 | page defaults to 1 and limit to 10, otherwise `parseInt`; status is upper-cased when present and undefined otherwise |
| InvoicesRoute.GetOutcome | src/app/api/invoices/route.ts:13-42 | a schema rejection is 500 INTERNAL_ERROR; for a valid query a service failure is answered by the handler and a service success by the success envelope; status 200 iff the body is a success |
| InvoicesRoute.MissingDateIsInternalError | src/app/api/invoices/route.ts:26-30 | as written, a request without `dateFrom` or without `dateTo` is answered 500 INTERNAL_ERROR |
| InvoicesRoute.PlainRequestListsFirstPage | src/app/api/invoices/route.ts:18-38 | with the corrected date fields, a request without parameters lists page 1 of 10 for an existing demo user, counting every invoice the user owns |
| InvoicesRoute.UnknownUserIsNotFound | src/app/api/invoices/route.ts:33-41 | an unknown demo user is 404 "User not found" for any valid query |
| InvoicesRoute.StatusIsUpperCased | src/app/api/invoices/route.ts:23-25 | any status builds the same query as its upper-cased form, so "paid" filters like "PAID" |
| InvoicesRoute.PageParamRead | src/app/api/invoices/route.ts:19 | a page parameter holding the digits of n selects page n, and a page below 1 is refused |
| InvoiceGenerator.ItemFor | src/lib/invoice-generator.ts:26-36 | the item bills `unitPrice * quantity` in "eur" to the customer, with the product id (or "") in its metadata |
| InvoiceGenerator.ItemMetadataRoundTrip | src/lib/invoice-generator.ts:31-35 | the quantity and unit price metadata strings read back as the numbers |
| InvoiceGenerator.ItemCalls | src/lib/invoice-generator.ts:25-37 | one item call per input item, in input order |
| InvoiceGenerator.CollectionMethod | src/lib/invoice-generator.ts:40 | the given collection method when it is non-empty, otherwise "send_invoice" |
| InvoiceGenerator.InvoiceParamsFor | src/lib/invoice-generator.ts:43-51 | `auto_advance` defaults to true; `due_date` is sent iff the method is send_invoice and a due date is given, as the milliseconds divided by 1000 rounded down |
| InvoiceGenerator.StripeInvoiceCalls | src/lib/invoice-generator.ts:23-76 | the item calls come first, in order, then the invoice create, then the finalize calls |
| InvoiceGenerator.OneInvoiceCreated | src/lib/invoice-generator.ts:42-51 | exactly one invoice is created, right after the items |
| InvoiceGenerator.FinalizeCalls | src/lib/invoice-generator.ts:54-74 | calls are made iff the invoice has an id and the method is send_invoice, or charge_automatically with `autoAdvance` true; the first is the finalize; a pay follows iff the method is charge_automatically with `autoAdvance` true and the finalized invoice is open |
| InvoiceGenerator.FinalizeIff | src/lib/invoice-generator.ts:54-74 | the invoice is finalized iff it has an id and is sent, or charged with `autoAdvance` true; the finalize is the only one and comes right after the create |
| InvoiceGenerator.PayOnlyAfterOpenFinalize | src/lib/invoice-generator.ts:54-74 | a payment is attempted iff the invoice has an id, the method is charge_automatically, `autoAdvance` is true and the finalized invoice is open; it is the last call, right after the finalize |
| InvoiceGenerator.UndefinedAutoAdvanceNoFinalize | src/lib/invoice-generator.ts:46-61 | with charge_automatically and no `autoAdvance`, Stripe is told to auto-advance but nothing is finalized or paid |
| InvoiceGenerator.AddItems | src/lib/invoice-generator.ts:25-37 | the loop logs exactly the item calls, in order |
| InvoiceGenerator.CreateStripeInvoice | src/lib/invoice-generator.ts:8-81 | the calls made are `StripeInvoiceCalls` in order, and the invoice returned is the created one, not the finalized one |
| InvoiceGenerator.GenerateInvoiceNumber | src/lib/invoice-generator.ts:86-92 | the number always starts with "INV-"; its full shape is stated by `InvoiceNumberShape` |
| InvoiceGenerator.MonthDigits | src/lib/invoice-generator.ts:89 | the padded month of 1 to 12 is two decimal digits whose value is the month |
| InvoiceGenerator.InvoiceNumberShape | src/lib/invoice-generator.ts:86-92 | for a four-digit year, the number is "INV-", the year, the two-digit one-based month, "-" and the last six digits of the millisecond clock |
| InvoiceGenerator.Millis | src/lib/invoice-generator.ts:107-113 | a time is present iff Stripe's seconds are present and non-zero, and is then the seconds times 1000 |
| InvoiceGenerator.AppItemOf | src/lib/invoice-generator.ts:114-121 | a line keeps its id, amount and product; the unit price is the price's amount or 0 |
| InvoiceGenerator.StripeToInvoice | src/lib/invoice-generator.ts:97-126 | the number is Stripe's when non-empty, else a generated one; amount is `amount_due`; creation is seconds times 1000; due and paid times only when present; one item per line, in order |
| ProductService.GetAllPlans | src/services/product.service.ts:22-24 | exactly the active plans, each as often as it is stored and no other row, newest first |
| ProductService.GetPlanById | src/services/product.service.ts:26-28 | the plan with that id, or none iff none has it |
| ProductService.CurrencyOrEur | src/services/product.service.ts:49-59 | the given currency when non-empty, otherwise "eur" |
| ProductService.CreatePlanWithId | src/services/product.service.ts:37-68 | the Stripe product and its monthly price of amount times 100 are created first and stay created; the plan is stored iff its id is new, with the new price id, otherwise the answer is 500 "Failed to create plan" and the tables are unchanged |
| ProductService.CreatePlanOutcome | src/services/product.service.ts:30-69 | as written, the plan's id is the new Stripe product's id and its price is the given amount times 100 |
| ProductService.Reprice | src/services/product.service.ts:88-97 | the plan gets the new price id, and the new Stripe price is the amount passed times 100 |
| ProductService.EnsureStep | src/services/product.service.ts:84-99 | an existing plan with a price id is returned and nothing changes; an existing plan never fails; a failure is only the createPlan 500 |
| ProductService.Ensure | src/services/product.service.ts:81-102 | on success, one plan per input in input order, each under the input's id or the new Stripe product's id; the only failure is the createPlan 500 |
| ProductService.EnsureSingleton | src/services/product.service.ts:81-102 | the loop over one input is exactly its one iteration |
| ProductService.EnsureStoresUnderProductId | src/services/product.service.ts:84-87 | as written, a missing plan is appended to the plan table under the new Stripe product id, not the input id |
| ProductService.RepricedHundredfold | src/services/product.service.ts:90-95 | as written, a plan without a price id gets a Stripe price of 100 times its stored price, which is already in cents |
| ProductService.EnsureTwiceDuplicates | src/services/product.service.ts:84-88 | as written, ensuring the "basic" plan twice on a table without it creates two plans, one under each fresh Stripe product id |
| ProductService.EnsureStepCorrected | src/services/product.service.ts:84-99 | corrected: the step never fails and returns a plan under the input's id; an existing plan with a price id is returned unchanged; a plan without one, whose stored price is a whole number of euros, gets a Stripe price of exactly its stored cents |
| ProductService.EnsureCorrected | src/services/product.service.ts:81-102 | corrected: always succeeds with one plan per input, each under the input's id, in input order |
| ProductService.CreatedReady | src/services/product.service.ts:53-62 | a plan created under a new id with a non-empty price id is ready, and every plan ready before stays ready |
| ProductService.RepricedReady | src/services/product.service.ts:88-97 | a repriced plan is ready, and every plan ready before stays ready |
| ProductService.UpdatedPriceFound | src/repositories/plan.repository.ts:35-40 | after `updatePriceId` the lookup finds the plan with its new price id |
| ProductService.UpdatedPriceKeepsReady | src/repositories/plan.repository.ts:35-40 | `updatePriceId` takes no plan's price id away |
| ProductService.StepCorrectedReady | src/services/product.service.ts:84-97 | a corrected step makes its own plan ready and keeps every ready plan ready |
| ProductService.EnsureCorrectedReady | src/services/product.service.ts:81-102 | after a corrected run every input plan is ready |
| ProductService.EnsureCorrectedIdle | src/services/product.service.ts:81-102 | when every input plan is ready, a corrected run changes nothing in Stripe or the database |
| ProductService.EnsureCorrectedTwice | src/services/product.service.ts:81-102 | corrected, the loop is idempotent: a second run creates nothing in Stripe or the database |
| ProductService.CreateProduct | src/services/product.service.ts:39-43 | the Stripe product with the plan's name, description and image is added first |
| ProductService.CreatePlanAs | src/services/product.service.ts:37-68 | the answer, database and Stripe account are `CreatePlanWithId` of the old ones |
| ProductService.CreatePlan | src/services/product.service.ts:30-69 | the answer, database and Stripe account are `CreatePlanOutcome` of the old ones |
| ProductService.EnsureOne | src/services/product.service.ts:84-99 | one loop iteration: the answer and the new state are `EnsureStep`, or `EnsureStepCorrected` for the corrected iteration |
| ProductService.EnsureSnoc | src/services/product.service.ts:81-102 | one more iteration extends the loop's result by the step's plan, or ends it with the step's error |
| ProductService.EnsureFailed | src/services/product.service.ts:83-100 | a failed iteration ends the loop: the inputs after it are not processed |
| ProductService.EnsurePlansExist | src/services/product.service.ts:71-103 | the answer, database and Stripe account are `Ensure` of the old ones |
| ProductService.EnsurePlansExistCorrected | src/services/product.service.ts:71-103 | the answer, database and Stripe account are `EnsureCorrected` of the old ones |

## Left out

- Webhook signature cryptography: `stripe.webhooks.constructEvent` is Stripe's verdict, given as a parameter (`verified`).
- The Stripe SDK: the account is a value, and the ids and answers Stripe returns (new ids, session URL, finalized status) are parameters. Network failures of Stripe calls are modelled only where the code catches them (session creation); elsewhere Stripe calls succeed.
- src/repositories/stripe/invoice.repository.ts and src/repositories/stripe/product.repository.ts are not part of this model beyond a lookup by id and a product create.
- Prisma's `include` of related rows: rows are returned without their relations. Prisma `Int` columns are unbounded integers here; the 32-bit column limit is not modelled.
- `Promise.all` runs sequentially; concurrent requests, races between deliveries and transaction boundaries are not modelled. Every Prisma call is atomic.
- Clocks (`new Date()`, `Date.now()`) and generated ids (cuid) are parameters. Dates are milliseconds as integers; `new Date(string)` is a parameter function.
- Floating point: JavaScript numbers are integers or NaN. The routes only feed `parseInt` results to the schemas, so fractional quantities cannot reach the service and `Math.floor(quantity)` is the identity. `String(n)` is modelled below 10^21 only.
- Rows with equal `createdAt` are ordered by table order; Prisma leaves their order open.
- The `getInstance` singletons: the model assumes every service can be built. As written, `StripeCheckoutService` and `ProductService` call `getInstance()` on `StripeCustomerRepository`, `StripePriceRepository` and `StripeSubscriptionRepository`, none of which defines it (src/services/stripe/stripe-checkout.service.ts:17-20, src/services/product.service.ts:11), so those services could not be constructed.
- Console logging, configuration, environment, seeds, UI pages and the debug or broken routes outside the three core routes.
- StripeWebhookRoute.PostOutcome: its own contract states only the as-written outcome; the corrected route's behaviour is stated by the lemmas beside it.
- InvoicesRoute.QueryData: `toUpperCase` is modelled on ASCII letters only. JavaScript upper-cases all of Unicode, so "paıd" (dotless i) becomes "PAID" and "ß" becomes "SS" there, while the model keeps those characters and the schema then refuses the status.
- CheckoutSessionsRoute.PostOutcome: its own contract states only the schema-rejection and redirect-status cases; the other answers are stated by the lemmas beside it: `RedirectIffSession` for the redirect, `CreditCheckAnswers` for the credit-mode check and `ServiceErrorSurfaces` for a service failure.

## Findings

| source | as written | input that shows it | evidently intended | confidence | as-written member | corrected member |
|---|---|---|---|---|---|---|
| src/app/api/webhooks/stripe/route.ts:9 | calls `request.body()`, but a request's `body` is a stream, not a function, so the call throws a TypeError | any POST, correctly signed or not | read the raw text of the body, then check the signature, verify and dispatch | medium, not executed | StripeWebhookRoute.AsWrittenNeverReceives | StripeWebhookRoute.ReceivedIffApplied |
| src/app/api/invoices/route.ts:26-27 | a missing `dateFrom`/`dateTo` is passed as `null`, which `z.string().optional()` rejects | `GET /api/invoices` with no parameters gives 500 | a missing parameter is `undefined` | high, not executed | InvoicesRoute.MissingDateIsInternalError | InvoicesRoute.PlainRequestListsFirstPage |
| src/app/api/checkout-sessions/route.ts:33-38 | the quantity check compares the mode with "credit-mode", which the schema never admits | productId "plan_basic", paymentMode "credit-purchase", no quantity: a session for 1 unit | compare with "credit-purchase" and answer 400 | high, not executed | CheckoutSessionsRoute.CreditWithoutQuantityPasses | CheckoutSessionsRoute.CreditWithoutQuantityRefused |
| src/services/product.service.ts:90-95 | the back-fill passes the stored cents `plan.price` to a price create that multiplies by 100 again | a plan with price 3500 and no price id gets a Stripe price of 350000 cents | create the price from the plan's whole-unit amount | high, not executed | ProductService.RepricedHundredfold | ProductService.EnsureStepCorrected |
| src/services/product.service.ts:86-87 | a missing plan is created by `createPlan`, which stores it under the new Stripe product id, not the input id | `ensurePlansExist([basic])` twice on a table without `basic` stores two plans | store the plan under the input's id | medium, not executed | ProductService.EnsureTwiceDuplicates | ProductService.EnsureCorrectedTwice |
