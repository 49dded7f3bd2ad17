# Tailor-shop order book, modelled in Dafny

This project models the order bookkeeping of a small tailoring-shop web app.
The app takes a customer's measurements for a garment and records the order.
It then moves the order through the production stages Measured, Cutting,
Stitching, Finishing, Ready and Delivered. It tracks what has been paid, keeps
the whole order collection in browser storage, and shows dashboard figures.

The model follows the source files, one module each:

- `Schema` (`schema.dfy`, from `src/types.ts`): the garment-type, status and
  payment-method enumerations, the twelve optional measurement keys, and the
  `Order` record.
- `Catalog` (`catalog.dfy`, from `src/constants.ts`): the garment picker, the
  canonical status sequence, the payment methods, the table of required
  measurements per garment, and the two seed orders.
- `Digits` (`digits.dfy`): decimal rendering of a clock reading and the
  "last k characters" cut used to make order and customer ids.
- `OrderForm` (`order_form.dfy`, from `src/components/OrderForm.tsx`): the
  intake form's state, its three-step Back/Next counter, measurement edits,
  garment selection, and the `Order` built on submit.
- `OrderStore` (`order_store.dfy`, from `App.tsx`): the initial load with its
  seed fallback, prepending a new order, the status update, and the write-back
  of the whole collection after every change.
- `Dashboard` (`dashboard.dfy`, from `components/Dashboard.tsx`): total count,
  pending revenue, active count, the per-status histogram and deliveries due.
- `Scenarios` (`scenarios.dfy`): worked examples over the seed orders.
- `Wrappers` (`wrappers.dfy`): the `Option` type.

Inputs the app takes from the browser are parameters of the model:

- the clock: three separate readings on submit; one reading that stands for the
  four the seed data takes; one reading that stands for the per-order readings
  of the dashboard's due-delivery filter;
- the random tracking token;
- `parseFloat`, for amounts (an `Option<int>`, with `None` for NaN) and for
  measurement values (an `Option<real>`);
- `JSON.stringify`/`JSON.parse`, as `encode`/`decode`;
- the stored blob, as an `Option<string>`.

Amounts are whole rupees (`int`). Measurement values are `real` inches.
Timestamps are `int` milliseconds. An order's delivery date is an
`Option<int>`: `None` stands for date text that does not denote a date.
The Create Order button calls the submit handler directly, so the form's
`required` checks never run and an empty date can reach the store.

Behaviour of the app that a reader might not expect:

- Ids are not unique. An id is `ORD-` plus the last six digits of the clock.
  Two submissions whose clock readings agree modulo 1,000,000 ms get the same
  id (`OrderForm.OrderIdCollision`). Customer ids repeat every 10,000 ms.
- A status update with an unknown id reports nothing. It returns the same
  collection (`OrderStore.UpdateUnknownIdIsIdentity`). The update replaces
  the status of every order with that id, not just the first.
- Customer name and mobile may be empty, because the submit button bypasses
  form validation. Amounts may be negative, because a parsed value is taken
  as is.
- Creating an order returns nothing to its caller. The model's `Create`
  returns the new collection.

## Model

| member | source | states |
|---|---|---|
| Schema.AllDressTypes | src/types.ts:1-8 | six garment types, all distinct, every member at its declaration position |
| Schema.DressTypeValuesDistinct | src/types.ts:1-8 | two garment types have the same string value exactly when they are the same member |
| Schema.AllStatuses | src/types.ts:10-17 | six statuses, all distinct, in the order Measured, Cutting, Stitching, Finishing, Ready, Delivered |
| Schema.StatusValuesDistinct | src/types.ts:10-17 | the status string values are pairwise distinct |
| Schema.AllPaymentMethods | src/types.ts:19-24 | four payment methods, all distinct, each at its declaration position |
| Schema.PaymentMethodValuesDistinct | src/types.ts:19-24 | the payment-method strings (Cash, Credit Card, Debit Card, UPI) are pairwise distinct |
| Schema.FieldOf | src/types.ts:26-39 | a property name read as a measurement key names that key; strings that name no key give None |
| Schema.FieldNameRoundTrip | src/types.ts:26-39 | each of the twelve keys reads back from its own property name |
| Schema.AnyFieldSubsetRepresentable | src/types.ts:26-39 | every measurement is optional: any subset of the twelve keys can be exactly the keys present |
| Catalog.DressTypeEntriesCoverEachTypeOnce | src/constants.ts:8-15 | the garment picker has one entry per garment type, ids distinct, in declaration order |
| Catalog.StatusFlowIsDeclarationOrder | src/constants.ts:17-24 | the status flow holds each status once, in declaration order, from Measured to Delivered |
| Catalog.PaymentMethodsListEachOnce | src/constants.ts:26-31 | the payment list holds all four methods, each once |
| Catalog.DressTypeEntries | src/constants.ts:8-15 | the garment picker's six entries and their captions; `DressTypeEntriesCoverEachTypeOnce` shows the ids are each garment type once |
| Catalog.StatusFlow | src/constants.ts:17-24 | the status flow as declared; `StatusFlowIsDeclarationOrder` shows it is every status once, Measured to Delivered |
| Catalog.PaymentMethods | src/constants.ts:26-31 | the payment list as declared; `PaymentMethodsListEachOnce` shows it is all four methods once |
| Catalog.RequiredMeasurements | src/constants.ts:33-40 | the required-measurement names per garment; `RequiredMeasurementsWellFormed` shows every row is non-empty, repeat-free and names only keys |
| Catalog.RequiredMeasurementsWellFormed | src/constants.ts:33-40 | every garment's required list is non-empty, repeats no name, and names only measurement keys |
| Catalog.RequiredFields | src/constants.ts:33-40 | the required keys of a garment are non-empty, distinct, and match the table's names one for one |
| Catalog.ParseFields | src/components/OrderForm.tsx:76 | a list of names reads as keys in the same order, and fails exactly when some name is not a key |
| Catalog.MissingFieldsExact | src/constants.ts:33-40 | a key is reported missing exactly when it is required and has no value |
| Catalog.SeedOrders | src/constants.ts:42-75 | the two seed orders, dated relative to one clock reading; `SeedOrdersFacts` and `SeedOrdersIncomplete` state what they hold |
| Catalog.SeedOrdersFacts | src/constants.ts:42-75 | the seed has two orders with distinct ids, none delivered, with amounts (15000, 5000) and (1200, 1200) |
| Catalog.SeedOrdersIncomplete | src/constants.ts:42-75 | the seed Sherwani lacks hips and the seed Shirt lacks cuff and biceps, so neither is complete |
| Digits.Decimal | src/components/OrderForm.tsx:42-43 | the decimal rendering of a clock reading is at least one character, all digits |
| Digits.DecimalValue | src/components/OrderForm.tsx:42-43 | the rendering reads back as the number rendered |
| Digits.SliceLast | src/components/OrderForm.tsx:42-43 | the cut keeps the last k characters, or the whole string when it is shorter, and is always a suffix |
| Digits.SliceLastOfDecimal | src/components/OrderForm.tsx:42-43 | the last k characters of a clock's decimal form are its last k digits, zero-padded |
| Digits.LastDigitsValue | src/components/OrderForm.tsx:42-43 | those characters read back as the clock value modulo 10^k |
| Digits.LastDigitsAgree | src/components/OrderForm.tsx:42-43 | two long-enough readings share their last k characters exactly when they agree modulo 10^k |
| OrderForm.InitialDraft | src/components/OrderForm.tsx:12-22 | the form opens with empty text fields, a Shirt selected, no measurements, no date, Cash and no image |
| OrderForm.OrZero | src/components/OrderForm.tsx:25 | a failed parse gives 0; a successful parse gives the parsed value |
| OrderForm.Press | src/components/OrderForm.tsx:264-299 | Back goes down a step only above step 1, else cancels; Next goes up only below step 3, else submits; steps stay in 1..3 |
| OrderForm.RunStaysInRange | src/components/OrderForm.tsx:264-299 | from a step in 1..3, any button sequence leaves the wizard on a step in 1..3 or out of the form |
| OrderForm.SubmitTakesThreeNexts | src/components/OrderForm.tsx:264-299 | from step 1, two Nexts reach step 3, a third submits, and Back cancels |
| OrderForm.MeasurementInputs | src/components/OrderForm.tsx:61-76 | the measurement inputs shown are the required keys of the chosen garment, in table order |
| OrderForm.EditMeasurement | src/components/OrderForm.tsx:24-26 | an edit sets the edited key to the parsed value or 0, keeps every other key and value, and changes nothing else |
| OrderForm.SelectDressType | src/components/OrderForm.tsx:131-135 | choosing a garment changes only the garment and keeps all entered measurements |
| OrderForm.StaleMeasurementSurvives | src/components/OrderForm.tsx:61-76 | a value entered for one garment stays after switching to a garment that does not need it |
| OrderForm.ShirtCuffKeptForKurta | src/components/OrderForm.tsx:61-76 | a shirt cuff entered, then the garment changed to a kurta: the cuff stays, though a kurta does not use it |
| OrderForm.OrderId | src/components/OrderForm.tsx:42 | an order id is "ORD-" followed by one to six characters |
| OrderForm.CustomerId | src/components/OrderForm.tsx:43 | a customer id is "CUST-" followed by one to four characters |
| OrderForm.OrderIdDigits | src/components/OrderForm.tsx:42 | for clocks of six digits or more, the id carries the clock modulo 1,000,000, zero-padded to six digits |
| OrderForm.OrderIdCollision | src/components/OrderForm.tsx:42 | two such clocks give the same order id exactly when they agree modulo 1,000,000 |
| OrderForm.CustomerIdCollision | src/components/OrderForm.tsx:43 | two clocks of four digits or more give the same customer id exactly when they agree modulo 10,000 |
| OrderForm.Build | src/components/OrderForm.tsx:39-59 | a built order has status Measured and ids from the clocks; form fields are copied unchanged; unparsable amounts become 0 |
| OrderForm.ResubmissionReusesId | src/components/OrderForm.tsx:42 | two submissions 1,000,000 ms apart produce orders with the same id |
| OrderStore.Load | App.tsx:16-24 | uses the stored collection when the blob exists, is non-empty and parses; otherwise the seed orders |
| OrderStore.Create | App.tsx:33-34 | the new order comes first and the previous collection follows it unchanged |
| OrderStore.UpdateStatus | App.tsx:38-39 | length and order kept; matching orders get the new status whatever their old one; other fields and other orders unchanged |
| OrderStore.UpdateUnknownIdIsIdentity | App.tsx:38-39 | an id no order carries leaves the collection equal to the input |
| OrderStore.UpdateStatusIdempotent | App.tsx:38-39 | applying the same update twice equals applying it once |
| OrderStore.UpdateStatusLastWins | App.tsx:38-39 | a second update of the same id overrides the first |
| OrderStore.UpdatesOfDistinctIdsCommute | App.tsx:38-39 | updates of two different ids give the same collection in either order |
| OrderStore.AnyTransitionAccepted | App.tsx:38-39 | any target status is set on the matching order, from any current status |
| OrderStore.Commit | App.tsx:29-31 | after a change the saved blob is the serialised whole collection |
| OrderStore.Boot | App.tsx:16-31 | start-up shows the loaded collection and saves it back in full |
| OrderStore.Step | App.tsx:29-39 | a creation puts the new order in front of the collection, a status change applies the update to it, and either way the saved blob is the whole new collection |
| OrderStore.Replay | App.tsx:33-39 | a sequence of user actions applied one at a time; `ReplayPersisted` and `ReplayKeepsOldOrders` state what it keeps |
| OrderStore.ReplayPersisted | App.tsx:29-31 | after any sequence of user actions the saved blob is still the whole collection |
| OrderStore.ReplayKeepsOldOrders | App.tsx:33-39 | the collection grows by exactly the number of creations; earlier orders stay at the end, in their old order, changed in status only; nothing is removed |
| OrderStore.ReloadSeesLatest | App.tsx:16-31 | with a round-tripping codec, reloading gives back the current collection, even an empty one |
| Dashboard.CountStatus | components/Dashboard.tsx:20 | the number of orders at a status never exceeds the number of orders; `CountStatusIsMultiplicity` gives its exact value |
| Dashboard.ActiveOrders | components/Dashboard.tsx:14 | the number of undelivered orders never exceeds the number of orders; `ActivePlusDelivered` gives its exact value |
| Dashboard.DeliveriesDue | components/Dashboard.tsx:83 | the number of due deliveries never exceeds the number of orders; `DeliveriesDueIsMultiplicity` gives its exact value |
| Dashboard.DeliveriesDueIsMultiplicity | components/Dashboard.tsx:83 | the due count is the number of orders that have a delivery date no later than now and are not delivered |
| Dashboard.NoneDueIffNoOrderDue | components/Dashboard.tsx:83 | nothing is reported due exactly when no order has a date no later than now while undelivered |
| Dashboard.CountStatusIsMultiplicity | components/Dashboard.tsx:18-21 | the count at a status is the number of times that status occurs among the orders |
| Dashboard.ActivePlusDelivered | components/Dashboard.tsx:14-21 | active count plus delivered count equals the total |
| Dashboard.DueAreActive | components/Dashboard.tsx:83 | deliveries due never exceed the active count |
| Dashboard.StatusCountsSumToTotal | components/Dashboard.tsx:18-21 | the six status counts add up to the number of orders |
| Dashboard.StatusData | components/Dashboard.tsx:18-21 | one entry per status in declaration order, zeros included, each the count at that status; counts sum to the total |
| Dashboard.ActivePlusDeliveredBar | components/Dashboard.tsx:14-21 | active count plus the histogram's Delivered count equals the total |
| Dashboard.PendingRevenue | components/Dashboard.tsx:13 | the sum of total minus paid over the orders; `ReducePendingRevenue` shows the source's left-to-right reduce computes it |
| Dashboard.PendingRevenueAppend | components/Dashboard.tsx:13 | the pending revenue of two collections joined is the sum of theirs |
| Dashboard.ReducePendingRevenue | components/Dashboard.tsx:13 | the left-to-right reduce from 0 yields the sum of total minus paid over all orders |
| Dashboard.PendingRevenueNotClamped | components/Dashboard.tsx:13 | an overpaid order makes pending revenue negative |
| Dashboard.ComputeStats | components/Dashboard.tsx:11-15 | total is the length, pending revenue is the sum of balances, active is the undelivered count, which is total minus delivered; an empty collection gives zeros |
| Dashboard.CreateStats | components/Dashboard.tsx:11-15 | creating a Measured order adds one to total and active, and its balance to pending revenue |
| Dashboard.UpdateKeepsRevenue | components/Dashboard.tsx:13 | a status change keeps the total and the pending revenue |
| Dashboard.DeliveringShrinksActive | components/Dashboard.tsx:14 | marking an id delivered never raises the active count or the deliveries due |
| Scenarios.FirstStartFigures | src/constants.ts:42-75 | with nothing stored: two orders, 10000 pending, two active, none due at the seed clock |
| Scenarios.SeedHistogram | components/Dashboard.tsx:18-21 | the seed histogram is 0, 1, 1, 0, 0, 0 in status order |
| Scenarios.DeliverFirstSeedOrder | App.tsx:38-39 | delivering ORD-001 leaves two orders, 10000 pending and one active |
| Scenarios.DueOneDayLate | components/Dashboard.tsx:83 | an undelivered order a day past its date is due; the same order delivered is not |
| Scenarios.UnreadableDateNeverDue | components/Dashboard.tsx:83 | an order whose delivery date is not a date is never due |

## Left out

- The style assistant and its call to an external text-generation service (`src/services/geminiService.ts`, `src/components/StyleAssistant.tsx`): a network call with a fixed fallback message, with no bearing on order data.
- The order list (`components/OrderList.tsx`): presentation only. Its status picker offers every status, which `OrderStore.AnyTransitionAccepted` covers.
- All JSX, styling, icons, navigation and view switching.
- Browser storage and JSON. Serialisation is a pair of parameters `encode`/`decode`. A parse that succeeds but yields something other than an order array (such as the text `null`) is not modelled: `decode` either gives a collection or fails.
- The `console.error` call on a failed load: logging only.
- Image upload through `FileReader`: asynchronous browser I/O. The image is an optional string copied into the order.
- The plain setters for name, mobile, notes, amount text, date and payment method: each assigns one form field.
- The `<form onSubmit>` handler: the form has no submit button (every footer button is `type="button"` and outside the form), and each step has several text-like inputs, so implicit submission with the Enter key looks unreachable. `OrderForm.Press` models the footer buttons.
- React state batching and two saves racing each other: concurrency is not modelled.
- The unused `Customer` and `DashboardStats` interfaces of `src/types.ts`.
- OrderForm.Build: amounts are whole rupees and `parseFloat` is an abstract parser. Fractional amounts and IEEE floating-point behaviour are not modelled.
- OrderForm.OrderId: `Date.now()` is a non-negative integer rendered in plain decimal. Exponent notation, which JavaScript uses from 10^21 on, is not modelled.
- Catalog.SeedOrders: the seed data reads the clock four times, once per date; the model uses one reading for all four, so the readings' drift of a few milliseconds is not modelled.
- OrderStore.Commit: the save effect has no error handling, and a write can fail, for example when stored images exceed the storage quota. The model assumes every write succeeds; a failed write would leave the previous collection stored.
- OrderStore.ReplayPersisted: holds only under that same assumption that every write succeeds.
- Dashboard.DeliveriesDue: the filter reads the clock once per order; the model uses one reading for the whole count, so a count taken while the clock crosses a delivery date is not modelled. Dates are millisecond timestamps. Date-string parsing and time zones are not modelled. An unreadable date is `None` and never due.
