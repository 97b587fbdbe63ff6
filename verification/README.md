# Order workflow of order-ms, modelled in Dafny

order-ms is a NestJS microservice that keeps medical-treatment **orders** and their **order details**. An order detail is a run of sessions scheduled under an order. The service also keeps **claims** raised against order details. Every row belongs to a tenant (`client_fk`). Each write is stamped with the acting user (`updated_by`).

This project models the service logic:
- the order-detail service (create, lookup, update, finalize, accept, session increment, the professional and pending queries, the per-company count);
- the order service (an order, optionally with its first detail);
- the claim service (create, lookups, update, soft delete);
- the criteria the order-detail message handlers build;
- the constraints on the three create request bodies.

The database is a value: three maps keyed by autoincrement identity, plus the next identity of each table (`Entities.Store`, with the referential invariant `Entities.Valid`). Every operation is a pure function, except the per-company count, which is a method with a loop. Writing operations return the store afterwards together with the reply (`Step`). The other services the code calls over the message bus become function parameters:
- the coordinator check;
- the two price lookups;
- the professional-relationship call.

Every failure carries status 400, because every service method rewraps whatever it caught as a 400.

Modules, one per source component:
- `Wrappers`: `Option`, `Field`, `Result`, failures;
- `Sessions`: session arithmetic;
- `DateFormat`: the `YYYY-MM-DD` recogniser;
- `Entities`: rows, store, filters;
- `Query`: `findMany` with skip/take;
- `DetailService`, `OrderService`, `ClaimService`: the three services;
- `DetailController`: the order-detail handlers;
- `Dto`: the request bodies.

Design decisions:
- Dates are integer milliseconds. JavaScript's `Math.round(a / b)` is `floor((2a + b) / (2b))`.
- A numeric column that was never written is `None`, the database's null.
- A request field is `Wrappers.Field`: left out (JavaScript `undefined`), an explicit `null`, or a value. The store treats the first two differently: a left-out field is not written, while a null one writes null. So does the `sessions && sessions > total_sessions` check: against a null total it refuses every positive count, against a left-out one it refuses none.
- The order service's `calculateTotalSessions` (src/modules/order/order.service.ts:174-185) is textually the detail service's. Both are `Sessions.TotalSessions`.
- The order service's `findOneByUnique` (src/modules/order/order.service.ts:187-206) is textually the detail service's. Both are `DetailService.FindOne`.
- The claim service's `findByDetail` and `findAll` have the same body. Both are `ClaimService.FindMany`.

Where the design description and the code disagree, the model follows the code:
- The order `findAll`, `update` and `delete` are commented out, so orders have no live update or soft delete.
- `finalize` of a finished detail throws a 404, which reaches the caller as a 400. It is not a separate conflict error.
- `accept` is a lookup followed by a separate update, not one conditional write.
- The relationship call in `accept` and `findPendingOrders` is awaited, but its reply is never inspected. Only a call that fails stops the operation.
- `update` recomputes the total only when the stored total is exactly 0, not when it is null.

## Model

| member | source | states |
|---|---|---|
| Sessions.RoundDiv | src/modules/order_detail/order_detail.service.ts:119-121 | `Math.round(a / b)`: the result lies within one half of the exact quotient, a half rounding up |
| Sessions.RoundDivUnique | src/modules/order_detail/order_detail.service.ts:119-121 | the rounding rule determines the rounded value: any integer within a half of a / b is the result |
| Sessions.RoundDivMonotone | src/modules/order_detail/order_detail.service.ts:119-121 | rounding a larger quotient never gives a smaller integer |
| Sessions.TotalSessions | src/modules/order_detail/order_detail.service.ts:111-122 | `calculateTotalSessions`: the whole days between start and finish times the weekly frequency, divided by 7 and rounded half up; no clamping to 0..31 and no special case for a backward window |
| Sessions.TotalSessionsNonNegative | src/modules/order_detail/order_detail.service.ts:111-122 | with a non-negative frequency and finish not before start, the session count is at least 0 |
| Sessions.TotalSessionsMonotone | src/modules/order_detail/order_detail.service.ts:111-122 | a longer window never yields fewer sessions at the same frequency |
| Sessions.TotalSessionsWholeWeeks | src/modules/order_detail/order_detail.service.ts:111-122 | a window of exactly k weeks holds exactly k times the weekly frequency, for every k and frequency |
| Sessions.TwoWeeksAtTwicePerWeek | src/modules/order_detail/order_detail.service.ts:111-122 | 2024-01-01 to 2024-01-15 at two sessions a week gives 4 |
| Sessions.BackwardWindowNotPositive | src/modules/order_detail/order_detail.service.ts:111-122 | a window whose finish precedes its start never yields a positive count (negative counts are not special-cased) |
| DateFormat.MatchAnchored | src/modules/order/dto/create-order-detail.dto.ts:23-27 | an anchored repetition-free pattern accepts a string iff the lengths agree and every character meets its token |
| DateFormat.IsDateShape | src/modules/order/dto/create-order-detail.dto.ts:23-27 | the reference shape of a date string: ten characters, dashes at positions 4 and 7, ASCII digits everywhere else |
| DateFormat.MatchesDate | src/modules/order/dto/create-order-detail.dto.ts:23-27 | `^\d{4}-\d{2}-\d{2}$` accepts exactly the ten-character strings with dashes at 4 and 7 and ASCII digits elsewhere |
| DateFormat.DatePatternIsShape | src/modules/order/dto/create-order-detail.dto.ts:23-27 | the token pattern and the declarative date shape agree on every string |
| DateFormat.ShapeAcceptsEveryDigitTriple | src/modules/order/dto/create-order-detail.dto.ts:23-27 | every zero-padded year, month and day passes, month 99 and day 00 included: shape only |
| DateFormat.ShapeIsFormattedTriple | src/modules/order/dto/create-order-detail.dto.ts:23-27 | conversely every accepted string is such a formatted digit triple |
| DateFormat.ParseDigitsOfDigits | src/modules/order/dto/create-order-detail.dto.ts:23-27 | reading back the zero-padded digits of a number below 10^w gives the number |
| DateFormat.ShapeExamples | src/modules/order/dto/create-order-detail.dto.ts:23-27 | "2024-01-15" and "2024-99-99" pass; a one-digit month, slashes and a trailing time fail |
| Query.ScanKeys | src/modules/order_detail/order_detail.service.ts:157 | `findMany` candidates: exactly the matching identities of the range, each once, ascending |
| Query.Paginate | src/modules/order_detail/order_detail.service.ts:157 | `skip` then `take`: a contiguous run starting at the offset, no longer than the limit, all of it without paging |
| Query.Select | src/modules/order_detail/order_detail.service.ts:157 | a list query returns only matching stored rows, exactly as many as the `skip`/`take` window over the matching identities holds, and every one of them when unpaged; keyed by identity, the rows are distinct and ascending, the i-th being the match ranked `skip + i` |
| DetailService.PassingMeansWithinTotal | src/modules/order_detail/order_detail.service.ts:94-97 | `sessions && sessions > total_sessions`: with both counts given the check passes iff the count is 0 or at most the total; a left-out total passes every count, a null one only a count that is not positive, and a left-out, null or zero count always passes |
| DetailService.SessionsExceed | src/modules/order_detail/order_detail.service.ts:94-97 | the refusal test `sessions && sessions > total_sessions`: the count is given and non-zero, and it exceeds a given total, or is positive against a null total; a left-out total never refuses |
| DetailService.Create | src/modules/order_detail/order_detail.service.ts:25-81 | succeeds iff the order belongs to the tenant, the count passes against the defaulted total, and each lookup a falsy value or cost triggers answers; on failure nothing is written; on success one row at the next identity, stamped and linked, carrying the request's professional, count, coinsurance, instants and requirements as sent (null for left out or null) |
| DetailService.CreateDefaultsTotalOnlyWhenFalsy | src/modules/order_detail/order_detail.service.ts:51-53 | the total is computed from the order's frequency iff the supplied one is missing or 0; otherwise kept |
| DetailService.ComputedTotalNotClamped | src/modules/order_detail/order_detail.service.ts:51-53 | five weeks at seven a week stores 35, above the request bound of 31 |
| DetailService.CreateRejectsSessionsOverTotal | src/modules/order_detail/order_detail.service.ts:94-97 | a non-zero count above a supplied total is refused and nothing is written |
| DetailService.CreateAdmitsFalsyCount | src/modules/order_detail/order_detail.service.ts:94-97 | a left-out, null or zero count never trips the sessions check |
| DetailService.CreatePricesOnlyFalsyValue | src/modules/order_detail/order_detail.service.ts:59-63 | a truthy value is kept and no price lookup can change the outcome; a falsy one becomes the lookup's answer |
| DetailService.CreateCostsOnlyFalsyCostWithProfessional | src/modules/order_detail/order_detail.service.ts:66-70 | the cost lookup matters only for a falsy cost with a professional; otherwise the supplied cost is kept |
| DetailService.CreatePreservesValid | src/modules/order_detail/order_detail.service.ts:34-48 | creating a detail keeps identities and foreign keys consistent |
| DetailService.FindUnique | src/modules/order_detail/order_detail.service.ts:329-344 | `findUniqueOrThrow`: the row under the identity iff it meets the criteria, otherwise not found |
| DetailService.FindOne | src/modules/order_detail/order_detail.service.ts:124-143 | a lookup answers iff the row exists and belongs to the tenant: a foreign row looks missing |
| DetailService.ListDetails | src/modules/order_detail/order_detail.service.ts:157 | a detail query returns stored rows meeting the criteria, as many as the page window over the matching identities holds; in a consistent store distinct, ascending, the i-th being the match ranked `skip + i` |
| DetailService.FindAll | src/modules/order_detail/order_detail.service.ts:145-164 | only the tenant's rows meeting the caller's other criteria, as many as the page window over them holds, all of them when unpaged, distinct and ascending in a consistent store |
| DetailService.FindMany | src/modules/order_detail/order_detail.service.ts:310-327 | the rows meeting the given criteria with no tenant involved, as many as the page window holds, complete when unpaged, distinct and ascending in a consistent store |
| DetailService.Patched | src/modules/order_detail/order_detail.service.ts:200 | merging a patch never changes the identity, the tenant or the audit stamp |
| DetailService.PatchedLaws | src/modules/order_detail/order_detail.service.ts:200 | merging the empty patch is the identity; merging the same patch twice is merging it once; a null finish time or professional clears the column |
| DetailService.Update | src/modules/order_detail/order_detail.service.ts:166-215 | succeeds iff the tenant's row exists with its order, the merged count passes against the merged total, and the patch neither nulls a required column nor relinks to a missing order; on failure nothing is written; on success only the named row changes, to the stored row merged with the patch and stamped with the actor |
| DetailService.UpdateWritesOnlyPatch | src/modules/order_detail/order_detail.service.ts:194-207 | the written row is the stored row merged with the patch; a stored total of 0 is recomputed whatever the patch says |
| DetailService.UpdateRejectsSessionsOverTotal | src/modules/order_detail/order_detail.service.ts:199-201 | a merged count above the merged total is refused and nothing is written |
| DetailService.UpdateNullClearsColumn | src/modules/order_detail/order_detail.service.ts:200-207 | a null finish time in the patch reopens a finished row, and a null professional releases an assigned one; the other column is kept |
| DetailService.UpdatePreservesValid | src/modules/order_detail/order_detail.service.ts:204-207 | an update keeps identities and foreign keys consistent |
| DetailService.Finalize | src/modules/order_detail/order_detail.service.ts:217-251 | succeeds iff the tenant's row is unfinished; then only the finish time and the actor change |
| DetailService.FinalizeTwiceFails | src/modules/order_detail/order_detail.service.ts:232-235 | a second finalize of the same row always fails, whoever asks and whenever |
| DetailService.FinalizePreservesValid | src/modules/order_detail/order_detail.service.ts:237-243 | finalizing keeps the store consistent |
| DetailService.Accept | src/modules/order_detail/order_detail.service.ts:253-285 | succeeds iff the row is unassigned, unfinished and the relationship call completes; then only the professional changes |
| DetailService.AcceptTwiceFails | src/modules/order_detail/order_detail.service.ts:263-265 | once accepted, no professional can accept the row again |
| DetailService.AcceptPreservesValid | src/modules/order_detail/order_detail.service.ts:274-277 | accepting keeps the store consistent |
| DetailService.AddSession | src/modules/order_detail/order_detail.service.ts:379-398 | on the row meeting the criteria the count goes up by exactly one (a null count stays null) and nothing else changes |
| DetailService.AddSessionPreservesValid | src/modules/order_detail/order_detail.service.ts:388-390 | the increment keeps the store consistent |
| DetailService.FindPending | src/modules/order_detail/order_detail.service.ts:346-377 | fails iff the relationship call fails; otherwise only the client's stored unassigned, unfinished rows, as many as the page window over them holds, all of them when unpaged, distinct and ascending in a consistent store |
| DetailService.PendingOf | src/modules/order_detail/order_detail.service.ts:366 | an identity is pending for the client iff its row is the client's, unassigned and unfinished |
| DetailService.OpenBelowCoversAll | src/modules/order_detail/order_detail.service.ts:295-300 | in a consistent store, scanning the identities below the sequence finds every open row of the company |
| DetailService.CountByCompany | src/modules/order_detail/order_detail.service.ts:287-308 | the number of unfinished rows, of any tenant, whose order belongs to the company |
| OrderService.ValidateOrder | src/modules/order/order.service.ts:124-144 | passes iff the coordinator answers truthy for (tenant, company, treatment, patient) |
| OrderService.ValidateOrderIgnoresOtherFields | src/modules/order/order.service.ts:130-137 | the frequency, the diagnosis and a forged `client_fk` never change the validation outcome |
| OrderService.CreateOrderDetail | src/modules/order/order.service.ts:61-122 | succeeds iff the order exists (of any tenant), the count passes against the total with only an exact 0 defaulted, and each lookup an exact-0 value or cost triggers answers; on failure nothing is written; on success one row stamped with the caller's tenant and linked, carrying the request's fields as sent |
| OrderService.CreateNewOrder | src/modules/order/order.service.ts:25-59 | fails iff the coordinator does not vouch or the nested detail fails on the store holding the new order; nothing is written without the coordinator, and with it the stamped order is written whatever becomes of the detail |
| OrderService.CreateOrderDetailResolvesOnlyZeros | src/modules/order/order.service.ts:86-106 | only an exact 0 is resolved: the total computed, value and cost looked up (the cost even with no professional); absent fields stay absent |
| OrderService.CreateOrderDetailConsultsOnlyOnZero | src/modules/order/order.service.ts:95-106 | a value and cost other than 0 make the two lookups irrelevant to the outcome |
| OrderService.CreateOrderDetailRejectsSessionsOverTotal | src/modules/order/order.service.ts:157-160 | the same non-zero-count-over-total rejection as the detail service, writing nothing |
| OrderService.NullTotalRefusesPositiveCount | src/modules/order/order.service.ts:157-160 | a null total is not defaulted here and refuses any positive count, while the same request with the total left out passes the check |
| OrderService.CreationPathsAgreeOnFullInput | src/modules/order/order.service.ts:77-106 | with a non-zero total, value and cost on the tenant's own order, both creation paths write the same row |
| OrderService.CreationPathsDiffer | src/modules/order/order.service.ts:77-84 | on one request the order path links a detail to another tenant's order, leaves an absent total absent and prices the cost without a professional, while the detail service refuses |
| OrderService.CreateNewOrderNotAtomic | src/modules/order/order.service.ts:43-53 | when the nested detail fails the call reports the failure but the order stays stored |
| OrderService.CreateOrderDetailPreservesValid | src/modules/order/order.service.ts:111 | creating a detail on this path keeps the store consistent |
| OrderService.CreateNewOrderPreservesValid | src/modules/order/order.service.ts:43-49 | creating an order, with or without a detail, keeps the store consistent |
| ClaimService.Create | src/modules/claim/claim.service.ts:17-45 | succeeds iff the detail belongs to the tenant; the claim is stamped, linked, not deleted and written at the next identity |
| ClaimService.FindOne | src/modules/claim/claim.service.ts:47-66 | the claim iff it exists, belongs to the tenant and meets the other criteria |
| ClaimService.FindMany | src/modules/claim/claim.service.ts:68-112 | only the tenant's claims meeting the other criteria, as many as the page window over them holds, all of them when unpaged, distinct and ascending in a consistent store |
| ClaimService.CallerTenantIgnored | src/modules/claim/claim.service.ts:47-112 | a `client_fk` the caller puts in the criteria has no effect on either lookup |
| ClaimService.Update | src/modules/claim/claim.service.ts:114-135 | tenant-scoped; on success the patch and the actor are written, the deletion mark untouched |
| ClaimService.Delete | src/modules/claim/claim.service.ts:137-173 | succeeds iff the tenant's claim is not yet deleted; then only the deletion time and the actor change and no row is removed |
| ClaimService.DeleteTwiceFails | src/modules/claim/claim.service.ts:154-157 | a second delete of the same claim always fails |
| ClaimService.UpdateReachesDeletedClaims | src/modules/claim/claim.service.ts:122-127 | a soft-deleted claim still accepts an update and stays deleted |
| ClaimService.ForeignClaimsUntouchable | src/modules/claim/claim.service.ts:137-152 | another tenant's claim cannot be read, updated or deleted and nothing is written |
| ClaimService.CreatePreservesValid | src/modules/claim/claim.service.ts:25-37 | creating a claim keeps the store consistent |
| ClaimService.UpdatePreservesValid | src/modules/claim/claim.service.ts:122-127 | updating a claim keeps the store consistent |
| ClaimService.DeletePreservesValid | src/modules/claim/claim.service.ts:159-165 | deleting a claim keeps the store consistent |
| DetailController.OpenCriteria | src/modules/order_detail/order_detail.controller.ts:49 | `finished_at = null` is forced into the caller's criteria, or is the only one when none is given |
| DetailController.FindAll | src/modules/order_detail/order_detail.controller.ts:41-56 | only the tenant's unfinished rows meeting the caller's other criteria, as many as the `offset`/`limit` window holds, all when unpaged, distinct and ascending in a consistent store |
| DetailController.FindAllOverridesCaller | src/modules/order_detail/order_detail.controller.ts:48-49 | the caller's `finished_at` and `client_fk` have no effect; no criteria is the same as empty criteria |
| DetailController.Update | src/modules/order_detail/order_detail.controller.ts:58-71 | the row written is the one the request names, under its own key, stamped with the request's actor |
| DetailController.UpdateTouchesOnlyNamedRow | src/modules/order_detail/order_detail.controller.ts:64-69 | every other row is left exactly as it was |
| DetailController.AssignedOpen | src/modules/order_detail/order_detail.controller.ts:112 | the professional criteria hold iff the row's professional meets the payload's id (any row when it is missing, an unassigned row when it is null) and the row is unfinished |
| DetailController.GetProfessionalDetails | src/modules/order_detail/order_detail.controller.ts:103-116 | only unfinished rows assigned as the payload's id says, as many as the `offset`/`limit` window holds, all of them when unpaged, distinct and ascending in a consistent store |
| DetailController.GetProfessionalDetail | src/modules/order_detail/order_detail.controller.ts:118-127 | the row iff it is assigned to that professional and unfinished |
| DetailController.AddSession | src/modules/order_detail/order_detail.controller.ts:146-155 | increments only a row assigned to that professional and unfinished, changing nothing else |
| DetailController.AddSessionIgnoresTotal | src/modules/order_detail/order_detail.controller.ts:153 | a row whose count has reached its total takes one more session |
| DetailController.UncheckedProfessionalReachesOthersRows | src/modules/order_detail/order_detail.controller.ts:118-155 | a payload without `professional_id` can fetch and increment any unfinished row, and a null one any unassigned unfinished row |
| DetailController.FinalizedRowsClosed | src/modules/order_detail/order_detail.controller.ts:125 | after a finalize no professional can fetch the row or add a session to it |
| Dto.DetailInputOf | src/modules/order_detail/dto/create-detail.dto.ts:8-72 | every field of an accepted `CreateDetailDto` reaches the service as sent (left out, null or the value), so the professional lies in 1..2147483647, the total in 0..31, and the count and amounts are non-negative |
| Dto.ValidCreateDetailDto | src/modules/order_detail/dto/create-detail.dto.ts:8-72 | the decorators of `CreateDetailDto`: optional positive 32-bit actor, order and professional; required start and finish dates; optional total in 0..31; optional non-negative integer count; optional non-negative amounts; optional dates and text; `client_fk` unchecked |
| Dto.DetailDtoExamples | src/modules/order_detail/dto/create-detail.dto.ts:26-43 | a body with total 31, count 0 and zero amounts passes; a missing start date, a total of 32 and a negative count fail |
| Dto.DetailInputFalsyMeansOmittedOrZero | src/modules/order_detail/dto/create-detail.dto.ts:34-53 | on an accepted body the service's falsy test on the total and value means exactly "omitted or 0" |
| Dto.OrderDetailDtoExamples | src/modules/order/dto/create-order-detail.dto.ts:7-27 | the actor and the order are required identities and the start date must have the `YYYY-MM-DD` shape, while a null start instant is admitted |
| Dto.ValidCreateOrderDetailDto | src/modules/order/dto/create-order-detail.dto.ts:7-66 | the decorators of `CreateOrderDetailDto` as written: required actor and order ids, optional professional, `YYYY-MM-DD` dates, and a total (at most 31), count and amounts that must be positive when present, null and undefined skipped |
| Dto.ValidCreateOrderDetailDtoIntended | src/modules/order/dto/create-order-detail.dto.ts:29-54 | the same decorators with `@Min(0)` in place of `@IsPositive()` on the total, count and amounts, which admits their `= 0` defaults |
| Dto.OmittedCountRejectedAsWritten | src/modules/order/dto/create-order-detail.dto.ts:29-54 | as written, a body omitting any defaulted field is refused |
| Dto.AcceptedBodyHasNoZeros | src/modules/order/dto/create-order-detail.dto.ts:29-54 | as written, no accepted body carries a total, value or cost of 0 |
| Dto.OmittedTotalExample | src/modules/order/dto/create-order-detail.dto.ts:29-33 | a well-formed body without a total is refused as written and accepted under the intended reading |
| Dto.OmittedCountsReachServiceAsZero | src/modules/order/dto/create-order-detail.dto.ts:29-54 | under the intended reading an omitted total, count, value and cost are accepted and reach the service as 0 |
| Dto.IntendedDiffersOnlyOnZeros | src/modules/order/dto/create-order-detail.dto.ts:29-54 | a body the intended reading accepts passes as written once its zero fields are dropped |
| Dto.WrittenImpliesIntended | src/modules/order/dto/create-order-detail.dto.ts:29-54 | every body accepted as written is accepted under the intended reading |
| Dto.OrderDetailInputOf | src/modules/order/dto/create-order-detail.dto.ts:7-66 | every field of an accepted order-detail body reaches the service as sent, null included, so the total lies in 0..31, the count and amounts are non-negative and the professional is in range |
| Dto.FrequencyOf | src/modules/order/dto/create-order.dto.ts:27-30 | an accepted order body has an integer frequency in 1..7 |
| Dto.ValidCreateOrderDto | src/modules/order/dto/create-order.dto.ts:7-34 | the decorators of `CreateOrderDto`: required positive 32-bit actor, company, patient and treatment; an integer frequency in 1..7; an optional diagnosis text; `client_fk` unchecked |
| Dto.AcceptedFrequencyCountsSensibly | src/modules/order/dto/create-order.dto.ts:27-30 | an accepted frequency gives a non-negative count over a forward window, growing with the window |
| Dto.OrderClientFkUnchecked | src/modules/order/dto/create-order.dto.ts:5 | `client_fk` is unchecked: any value leaves validity unchanged |
| Dto.OrderDtoExamples | src/modules/order/dto/create-order.dto.ts:7-34 | frequency 7 passes; frequency 8, frequency 2.5, a zero company and a treatment above 2147483647 fail |

## Left out

- Prisma and the message bus. Rows are map entries. The four remote calls are function parameters: the price lookups answer `None` when the call fails, and the relationship call answers whether it completed.
- The relationship call that `validate` and `validateOrderDetail` make without awaiting it (src/modules/order_detail/order_detail.service.ts:104-108, src/modules/order/order.service.ts:167-171). Its result never gates anything, so it is a no-op here.
- Concurrency. Operations run one at a time. `DetailService.Accept` is a lookup followed by an update, and the model claims no compare-and-swap.
- Date parsing. `new Date(...)` on the request strings is not modelled. Dates reach the services as milliseconds, and `Dto.OrderDetailInputOf` takes the string-to-instant conversion as a parameter.
- Floating point. Day counts and totals are exact integers, and amounts are reals. `Number(response.value)` yielding NaN is not modelled.
- Error texts. Failures are a reason plus status 400.
- The order and claim message handlers, except their order-detail counterparts. This includes the claim list handler forcing `deleted_at = null`, and the order handler whose `findOne` returns a detail.
- The commented-out order `findAll`, `update` and `delete`.
- The Prisma schema and the generated client are not part of this model. This covers column types and defaults, the `urgency` enumeration (kept as its name) and whether an update may relink a row. Relinking is modelled as allowed, and refused when the target row is missing.
- The update DTOs (`PartialType` wrappers) and the module wiring. src/main.ts is not part of this model either. The request-body predicates assume the validation pipe validates the instance with its property defaults applied and hands that instance on.
- `select` projections. Every lookup returns whole rows.
- Caller-controlled criteria and patches. `findAll`, `update` and the claim lookups forward the criteria object or data the message carries. The model admits criteria on five detail columns (identity, tenant, order, professional, finish time) and four claim columns (identity, tenant, detail, deletion time). Patches cover only the fields the update requests declare. This assumes the validation pipe strips undeclared properties, which src/main.ts would configure and which is not part of this model.
- Column defaults. A nullable column a create leaves out is stored as null, which assumes the schema gives it no default.
- DetailService.FindPending: `client_fk` and `professional_id` are taken as numbers. A missing `client_fk` would leave the tenant unconstrained, and a null one would select rows with no tenant; neither is modelled.
- DetailService.Create: the order id and the actor are taken as numbers, though `CreateDetailDto` makes both optional. A missing or null `order_fk` makes the ownership lookup fail with 400, just as an unowned order does. A missing `updated_by` would write a row with no actor; the model always stamps one.
- OrderService.CreateNewOrder: the nested detail is reached only if the validation pipe leaves `order_detail` in the body. `CreateOrderDto` does not declare it, so under the stripping assumption above it never arrives. Without that assumption it arrives unvalidated, while `DetailInput` assumes well-typed fields and dates present; malformed nested details are not modelled.
- Pagination. A message without `paginationDto` makes the handlers' destructuring throw before the service is called. `DetailController.Pagination` assumes the object is present.
- DetailService.Accept: the professional id is taken as a number. A missing or null `professional_id` is not modelled.
- ClaimService.Update: a null field in a claim patch is not modelled. Whether the claim columns admit null is part of the schema.
- Dto.DetailInputOf: a `client_fk` that is not a whole number, or not a number at all, is carried as its floor or as left out. The tenant overwrites it in every service, so the difference is never observable.
- Query.Select: rows come back in ascending identity order. The store promises no order without `orderBy`, so this is one admissible order. Completeness is stated over identities below the sequence, which in a consistent store are all of them.
- DetailService.CountByCompany: the count is stated for a consistent store (`Valid`). There, every identity lies below the sequence the loop scans. The company id is taken as a number. `company_id` comes from the payload unvalidated, and a missing one would leave the company unconstrained and count every open row; that case is not modelled.
- DetailService.Update: the written row keeps the named identity only in a consistent store, where a row's `detail_id` equals its key.
- DetailController.Update: the identity guarantee likewise holds for a consistent store only.
- DetailService.AddSession: the store's increment of a null count is taken to leave it null.

## Findings

| source | as written | input that shows it | evidently intended | confidence | as-written member | corrected member |
|---|---|---|---|---|---|---|
| src/modules/order/dto/create-order-detail.dto.ts:29-54 | `total_sessions`, `sessions`, `coinsurance`, `value` and `cost` default to 0 and are `@IsPositive()`. `@IsOptional()` skips only null and undefined, so an omitted field fails validation. | a body with every required field well formed and no `total_sessions` (`Dto.OmittedTotalExample`) | `@Min(0)`, as `CreateDetailDto` has it. The omitted fields would then reach the order service as 0, which its `=== 0` branches resolve (src/modules/order/order.service.ts:87-106) | medium, not executed | Dto.OmittedCountRejectedAsWritten | Dto.OmittedCountsReachServiceAsZero |

Under the written constraints no accepted body carries a 0 in those fields (`Dto.AcceptedBodyHasNoZeros`). The order service's zero branches are then unreachable through this request. The rest of the model converts order-detail bodies with `Dto.OrderDetailInputOf`, which takes the corrected predicate `Dto.ValidCreateOrderDetailDtoIntended` as its precondition.
