# Warehouse delivery core, modelled in Dafny

This project models the decision and validation logic of a warehouse and delivery web application. Around this logic sit Next.js routes, Mongoose models, authentication and e-mail plumbing, which are not modelled. There are five parts, each proved correct against its own specification:

- **Delivery ordering policy** (`DeliveryOrder`, in `delivery_order.dfy`):
  - A driver's assignments are stably sorted by assignment date and numbered 1..N.
  - Only the first one may be started, and only while it is pending.
  - An assignment whose predecessor is not delivered is blocked.
  - `canStartDelivery` and `getActiveDelivery` are lookups over that ordered view.
  - The sort is an insertion sort. It is proved to be a permutation, sorted, and stable, meaning the assignments that share a date keep their input order. It is also proved to be the only result with these properties.
- **Shipment record** (`Shipments`, in `shipment.dfy`):
  - The Mongoose schema is modelled as a raw input document. Mongoose's `trim`/`lowercase` setters and the `note`/`message`/`status` defaults are applied to it.
  - Every validator runs (`required`, `min: 1`, the six-value status enum), and each failing one is reported.
  - Accepted records are well formed. Re-validating a stored record gives it back unchanged.
- **Route access control** (`Middleware`, in `middleware.dfy`): this is the decision the request middleware takes from the path, the HTTP verb and the session. The result is one of three outcomes:
  - pass through;
  - redirect to `/dashboard` or `/sign-in`;
  - refuse with status 403.

  It is proved equal to a policy stated role by role.
- **Inventory helpers** (`Inventory`, in `inventory.dfy`):
  - the case-insensitive product search;
  - the summary statistics;
  - the out-of-stock / low-stock / in-stock classification, with threshold 10.
- **Create-user form schema** (`UserSchema`, in `userschema.dfy`):
  - name length, e-mail syntax (a parameter) and the role enumeration;
  - the two password refinements, each reported at its own path.

Three shared modules support these:
- `Wrappers` (`wrappers.dfy`) holds the `Option` and `Result` types.
- `Text` (`text.dfy`) models the JavaScript string operations the code uses: `trim` with the exact ECMAScript white-space set, `toLowerCase` on ASCII letters, `startsWith` and `includes`.
- `JsArray` (`jsarray.dfy`) models `find` and `filter`, with `findIndex`, on which `find` is built.

All the modelled code is pure, so the model is written as datatypes, functions and lemmas. JavaScript copies and `map`/`filter` results become new sequences. The input list given to `getDeliveryOrder` is never changed, because the source sorts a spread copy of it.

Only position 0 of the order can start (`lib/helpers/deliveryOrder.ts:18-19`), and a delivered assignment keeps that position. So once the earlier of two assignments is delivered, the later one is unblocked but still cannot start (`DeliveryOrder.DeliveredHeadUnblocksButDoesNotStart`).

## Model

| member | source | states |
|---|---|---|
| Text.Trim | lib/models/shipment.ts:11-15 | the result has no white space at either end (`trim: true` setter) |
| Text.TrimIsInfix | lib/models/shipment.ts:11-15 | trimming keeps a contiguous slice of the input and drops only white space around it |
| Text.TrimEmptyIff | lib/models/shipment.ts:11-15 | a trimmed string is empty exactly when the input was all white space |
| Text.TrimIdempotent | lib/models/shipment.ts:11-15 | trimming twice equals trimming once |
| Text.TrimOfTrimmed | lib/models/shipment.ts:11-15 | a string with no white space at either end is left unchanged |
| Text.TrimLowerCommute | lib/models/shipment.ts:36-41 | applying the `trim` and `lowercase` setters in either order gives the same e-mail |
| Text.Lower | lib/inventory-utils.ts:9 | same length; each character is the ASCII-lowercased input character |
| Text.LowerIsLower | lib/inventory-utils.ts:9 | the result has no upper-case letter, and lower-case strings are fixed points |
| Text.Includes | lib/inventory-utils.ts:12-14 | true exactly when the needle occurs at some position of the string |
| JsArray.FindIndex | lib/helpers/deliveryOrder.ts:29-31 | the first position satisfying the predicate, or the length when none does |
| JsArray.Find | lib/helpers/deliveryOrder.ts:29-31 | absent exactly when no element matches; otherwise the first matching element |
| JsArray.Filter | lib/inventory-utils.ts:10-15 | no longer than the input, and every kept element satisfies the predicate |
| JsArray.FilterIsSubsequence | lib/inventory-utils.ts:10-15 | the kept elements appear in the input in the same order |
| JsArray.FilterMembership | lib/inventory-utils.ts:10-15 | an element is kept exactly when it is in the input and satisfies the predicate |
| JsArray.FilterAppend | lib/inventory-utils.ts:24-29 | filtering distributes over concatenation |
| JsArray.FilterKeepsAll | lib/inventory-utils.ts:10-15 | filtering with a predicate every element meets returns the input unchanged |
| Shipments.ParseStatus | lib/models/shipment.ts:58-69 | the enum check: a status is found exactly for one of the six names, and it carries that name |
| Shipments.ParseStatusName | lib/models/shipment.ts:58-69 | every status's name parses back to that status |
| Shipments.Prepare | lib/models/shipment.ts:48-69 | after setters and defaults, note, message and status are always present |
| Shipments.Violations | lib/models/shipment.ts:4-103 | every failing validator is reported, and only those |
| Shipments.Validate | lib/models/shipment.ts:4-108 | a rejection carries at least one reason; an accepted record is well formed |
| Shipments.PassingIsComplete | lib/models/shipment.ts:6-47 | a document no validator rejects has every required path present and a quantity of at least 1 |
| Shipments.BuildWellFormed | lib/models/shipment.ts:4-103 | a document passing every validator builds a well-formed record |
| Shipments.ValidateStoresNormalised | lib/models/shipment.ts:11-103 | the ids are stored as given; the product name, image, destination, the driver's full name and the marker's name, e-mail and role are stored trimmed; the driver's e-mail is trimmed and lowercased; note and message default to "" and are otherwise trimmed; status defaults to pending, and otherwise is the status the string names |
| Shipments.ValidateReportsExactly | lib/models/shipment.ts:6-103 | accepted exactly when the raw document breaks no rule; on rejection the reasons are exactly the rules broken, with a trimmed required string counted missing when absent or all white space |
| Shipments.FailsIffBreaks | lib/models/shipment.ts:6-103 | each validator fails on the prepared document exactly when the raw document breaks its rule |
| Shipments.QuantityBelowOneRejected | lib/models/shipment.ts:20-24 | a quantity below 1 always leads to rejection with the minimum-quantity reason |
| Shipments.WellFormedIsFixedPoint | lib/models/shipment.ts:4-108 | every well-formed record passes validation again unchanged |
| Shipments.PrepareStoredIsIdentity | lib/models/shipment.ts:11-69 | setters and defaults leave a well-formed record as it is |
| Shipments.RevalidateIsIdentity | lib/models/shipment.ts:4-108 | saving a record read back from the store gives the same result |
| DeliveryOrder.Insert | lib/helpers/deliveryOrder.ts:10-13 | the result holds the list's elements plus the inserted one |
| DeliveryOrder.InsertKeepsSorted | lib/helpers/deliveryOrder.ts:10-13 | inserting into a list sorted by date keeps it sorted |
| DeliveryOrder.SortByDate | lib/helpers/deliveryOrder.ts:10-13 | the result is a permutation of the input, sorted by assignment date |
| DeliveryOrder.InsertDatedOn | lib/helpers/deliveryOrder.ts:10-13 | the inserted element comes first among the elements with its date, ahead of those already in the list |
| DeliveryOrder.SortByDateIsStable | lib/helpers/deliveryOrder.ts:10-13 | assignments sharing a date keep their input order |
| DeliveryOrder.SortByDateIsStableSort | lib/helpers/deliveryOrder.ts:10-13 | the sort is a stable sort of its input |
| DeliveryOrder.StableSortsAgree | lib/helpers/deliveryOrder.ts:10-13 | two stable sorts of the same list are equal |
| DeliveryOrder.StableSortIsSortByDate | lib/helpers/deliveryOrder.ts:10-13 | any stable sort by date of the list is exactly the model's sort |
| DeliveryOrder.GetDeliveryOrder | lib/helpers/deliveryOrder.ts:8-22 | one entry per assignment; the entries hold the input as a stable sort by date; entry i has order i+1; an entry can start, and is current, exactly when it is first and pending; an entry is blocked exactly when its predecessor is not delivered |
| DeliveryOrder.DeliveryOrderIsAnyStableSort | lib/helpers/deliveryOrder.ts:8-22 | any stable sort of the input by date gives exactly the assignments of the ordered view, in the same order |
| DeliveryOrder.DeliveryOrdersAreOneToN | lib/helpers/deliveryOrder.ts:15-17 | the delivery orders are 1..N, one per position, strictly increasing |
| DeliveryOrder.AtMostOneStartable | lib/helpers/deliveryOrder.ts:18-19 | `canStart` equals `isCurrentDelivery`; it holds only at the first position and only if that assignment is pending, so at most once |
| DeliveryOrder.StartableIsEarliest | lib/helpers/deliveryOrder.ts:10-19 | a startable assignment is dated no later than any of the driver's assignments |
| DeliveryOrder.BlockedIffPredecessorUndelivered | lib/helpers/deliveryOrder.ts:20 | the first entry is never blocked; later ones are blocked exactly when their predecessor is not delivered |
| DeliveryOrder.CanStartDelivery | lib/helpers/deliveryOrder.ts:24-37 | false for an unknown id; true exactly when the earliest assignment has the id and is pending |
| DeliveryOrder.GetActiveDelivery | lib/helpers/deliveryOrder.ts:39-47 | the first in-transit assignment in input order if there is one; otherwise the first entry of the ordered view when it can start; otherwise nothing |
| DeliveryOrder.TwoPendingOrder | lib/helpers/deliveryOrder.ts:8-47 | of two pending assignments with distinct dates, given in either order, the earlier is first, startable and unblocked; the later is second, blocked and not startable |
| DeliveryOrder.DeliveredHeadUnblocksButDoesNotStart | lib/helpers/deliveryOrder.ts:8-47 | once the earlier of two assignments is delivered, the later one is unblocked but still cannot start, and nothing is active |
| Middleware.RoleOf | middleware.ts:60-61 | a role is read only from a session whose role is present and non-empty |
| Middleware.Decide | middleware.ts:23-139 | every redirect goes to `/dashboard` or `/sign-in`; only the delivery and cashier roles are ever refused |
| Middleware.PublicRoutesPass | middleware.ts:36-41 | `/`, `/privacy` and `/terms` pass whatever the session |
| Middleware.SignedInAuthRouteRedirects | middleware.ts:45-48 | a signed-in caller on an authentication page is redirected to `/dashboard` |
| Middleware.SignedOutDecision | middleware.ts:50-57 | without a session, authentication pages pass and other non-public paths redirect to `/sign-in` |
| Middleware.AdminPasses | middleware.ts:63-66 | an admin passes every path beyond the session checks |
| Middleware.DeliveryRestrictions | middleware.ts:68-135 | a delivery user is redirected from `/users`, refused POST/PUT/DELETE on products and shipments (PUT included), and refused every method on sales |
| Middleware.CashierRestrictions | middleware.ts:87-106 | a cashier is redirected from `/users`, refused every shipments request, and refused on products exactly for POST/PUT/DELETE |
| Middleware.UncheckedRolesPass | middleware.ts:59-138 | a session with no role, or with a role other than admin, cashier and delivery, passes |
| Middleware.DecideMatchesPolicy | middleware.ts:23-139 | the decision equals the role-by-role policy, in which the second delivery block adds only the sales rule |
| Inventory.FilterProducts | lib/inventory-utils.ts:3-16 | no longer than the input; for a non-empty term every kept product matches it case-insensitively (how many copies are kept is fixed by FilterProductsOne and FilterProductsAppend) |
| Inventory.EmptyTermKeepsAll | lib/inventory-utils.ts:7 | an empty search term returns the list unchanged |
| Inventory.FilterProductsIsSubsequence | lib/inventory-utils.ts:7-15 | the result is an order-preserving subsequence of the input |
| Inventory.FilterProductsKeepsExactly | lib/inventory-utils.ts:9-15 | a product is kept exactly when it is in the input and its lowercased name, SKU or category contains the lowercased term |
| Inventory.FilterProductsOne | lib/inventory-utils.ts:7-15 | a single product is kept once exactly when the term is empty or the product matches the lowercased term, and dropped otherwise |
| Inventory.FilterProductsAppend | lib/inventory-utils.ts:10-15 | searching joined lists gives the joined results, so each copy of a product is judged on its own |
| Inventory.AllMatchKeepsAll | lib/inventory-utils.ts:10-15 | a term every product matches returns the list unchanged, duplicates included |
| Inventory.FilterProductsIgnoresTermCase | lib/inventory-utils.ts:9 | searching for the lowercased term gives the same result as the term itself |
| Inventory.CalculateInventoryStats | lib/inventory-utils.ts:18-37 | the product count is the list length; the low-stock and active counts are at most that (what they count is fixed by StatsOfOne and StatsAdditive) |
| Inventory.ReduceValueIsSum | lib/inventory-utils.ts:20-23 | the left fold from any start adds that start to the sum of price times stock |
| Inventory.TotalValueAppend | lib/inventory-utils.ts:20-23 | the total value of joined lists is the sum of their totals |
| Inventory.StatsValueIsSum | lib/inventory-utils.ts:20-23 | the reported value is the sum of price times stock |
| Inventory.StatsAdditive | lib/inventory-utils.ts:18-37 | every figure of the statistics for joined lists is the sum of the figures for each |
| Inventory.StatsOfNone | lib/inventory-utils.ts:18-37 | every figure of an empty list is 0 |
| Inventory.StatsOfOne | lib/inventory-utils.ts:18-37 | a single product counts once, adds price times stock, counts as low stock exactly when its stock is under 10, and counts as active exactly when its status is "active"; with additivity this fixes all four figures for every list |
| Inventory.TotalValueNonNegative | lib/inventory-utils.ts:20-23 | with no negative prices or stock, the value is not negative |
| Inventory.GetStockStatus | lib/inventory-utils.ts:39-45 | out of stock exactly at 0; low stock exactly for other values below 10, negatives included; in stock exactly from 10 up |
| Inventory.StockStatusMonotone | lib/inventory-utils.ts:39-45 | for counts of 0 or more, more stock never gives a worse status |
| Inventory.LowStockIffNotInStock | lib/inventory-utils.ts:24-26 | a product counts as low stock exactly when its status is not in-stock |
| Inventory.LowStockCountMatchesStatus | lib/inventory-utils.ts:24-26 | the low-stock figure counts the products whose status is not in-stock |
| UserSchema.ParseRole | lib/schemas/userSchema.ts:8 | a role is found exactly for admin, cashier, delivery and user, and it carries that name |
| UserSchema.ParseRoleName | lib/schemas/userSchema.ts:8 | every role's name parses back to it |
| UserSchema.Parse | lib/schemas/userSchema.ts:4-38 | accepted exactly when the name is long enough, the e-mail is valid, the role is known and both refinements hold; a rejection carries an issue |
| UserSchema.FieldIssues | lib/schemas/userSchema.ts:6-7 | the name and e-mail checks report only their own two issues |
| UserSchema.RefinementIssues | lib/schemas/userSchema.ts:15-38 | the refinements report only the password and confirmation issues |
| UserSchema.ParseReportsExactly | lib/schemas/userSchema.ts:4-38 | a rejection reports exactly the issues raised, and the refinements raise nothing when the role is unknown; an accepted form raised none |
| UserSchema.ParseReportsEachOnce | lib/schemas/userSchema.ts:4-38 | a rejection reports each issue at most once |
| UserSchema.ParseKeepsValues | lib/schemas/userSchema.ts:4-14 | an accepted form keeps every submitted value |
| UserSchema.ShortNameRejected | lib/schemas/userSchema.ts:6 | a name under 2 characters is rejected at "name" |
| UserSchema.UnknownRoleRejected | lib/schemas/userSchema.ts:8 | an unknown role is rejected, and neither password refinement reports |
| UserSchema.GeneratedPasswordSkipsRefinements | lib/schemas/userSchema.ts:15-32 | with a generated password, the refinements pass whatever the password fields hold |
| UserSchema.ShortPasswordRejected | lib/schemas/userSchema.ts:15-26 | without a generated password, a missing or short password is rejected, reported at "password" when the refinements run |
| UserSchema.MismatchRejected | lib/schemas/userSchema.ts:27-38 | without a generated password, a password differing from its confirmation is rejected, reported at "confirmPassword" when the refinements run |
| UserSchema.ValidFormAccepted | lib/schemas/userSchema.ts:4-38 | a valid name, e-mail and role with a confirmed password of 8 or more characters is accepted |

## Left out

- The session fetch (`getMiddleWareSession`, an HTTP call) is left out. The session is a parameter, and a failed fetch is the absent session.
- `NextResponse` objects and the middleware's `matcher` configuration are left out. The matcher decides which paths reach the middleware at all; the model decides for any path.
- Dates are integer milliseconds. Parsing `assignedDate` strings, invalid dates and the `NaN` comparator results they cause are not modelled.
- Assignment statuses are the six schema statuses. A status string outside them (the source types it as any string) is not modelled.
- The extra keys an assignment carries (`[key: string]: unknown`) are left out. They are copied through unchanged by the spread.
- Inventory.Product: the price is an integer number of minor units instead of a floating-point number, and the stock is an integer.
- Shipments.Validate: quantity is an integer; fractional and NaN quantities are not modelled.
- The error message texts of the shipment validators and of the form issues are not modelled; each failure is named by its own constructor.
- Text.Lower: only ASCII letters are lowercased. The full Unicode case mapping of `toLowerCase` is not modelled.
- Lengths count code points, not UTF-16 code units, for `min(2)`, the 8-character password rule and `trim`.
- Shipments.Validate: `ObjectId` casting of `productId` is not modelled. The id is an opaque string that `required` only needs present.
- Shipments.Validate: type casting of non-string values by Mongoose is not modelled. Inputs already have the declared types.
- The shipment's `trackingDetails` dates, the `timestamps` option and the indexes are left out. They hold no validation rule.
- The e-mail syntax check (zod's `.email()`) is a parameter `isEmail`. The role issue's message is zod's own and is not modelled.
- UserSchema.Parse: every field already has its declared type. zod's type issues (a missing or non-string name, e-mail or role, a non-boolean flag, a null password) stop the object before the refinements and are not modelled.
- UserSchema.Parse follows zod version 3's order of checks, since the installed version is not part of this model:
  - the name and e-mail issues do not stop parsing;
  - an unknown role stops the object before the refinements run.
- The delivery status route (`app/api/deliveries/[id]/route.ts`) and its status transitions are not part of this model.
- Not part of this model: notifications, the e-mail service, the server-sent-events helper, authentication, the database connection, formatting helpers and every page or component.
- `types/product-types.ts` is not part of this model. The product's fields are those `lib/inventory-utils.ts` reads.
