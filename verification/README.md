# GonderGelsin backend: a Dafny model of its request rules

This project models the rules of the GonderGelsin backend, a Django/DRF
backend for a delivery marketplace. Each HTTP view is a pure function. It
takes the current table (a sequence of rows in primary-key order), the
requester and the parsed request, and returns the reply. Views that write
also return the table they leave behind (`Responses.Served`). An exception
that no view catches is the reply `Unhandled`, which Django turns into a 500
page.

The project covers:

- **Response envelopes** (`utils/utils.py`, module `Responses`): the
  `{status, message, data, options}` body of `CustomErrorResponse` and
  `CustomSuccessResponse`. Error codes are clamped into 4xx/5xx and success
  codes into 2xx/3xx. The keyword defaults are kept.
- **Request logging** (`logger/`, modules `RequestLogs`, `LogMiddleware` and
  `LogQuery`):
  - the `RequestLog` record, its column widths, `__str__` and the serializer's
    field projection;
  - the middleware's path exclusion, body capture and one-row-per-request
    logging;
  - the log list (exact filters, search, whitelisted ordering, capped page
    size, pagination) and the log detail.
- **Orders** (`order/`, module `Orders`):
  - the P → O → C status lifecycle;
  - active and completed orders as a partition of the requester's orders;
  - list filtering by case-insensitive containment;
  - creation, and owner-only detail and delete.
- **Profile preferences** (`userprofile/api.py`, module `ProfilePrefs`):
  notification and language preferences, where a PUT overwrites only the
  keys it carries, and the enveloped profile detail.
- **Notifications** (`notification/`, module `Notifications`): list, create,
  get, put and delete, each scoped to the owner, plus an idempotent
  mark-as-read.
- **Transactions** (`transaction/`, module `Transactions`): owner-scoped
  records inside the envelope. Amounts are integer cents rendered as
  two-place decimals. Lists are newest first.
- **Billing addresses** (`invoice/`, module `Billing`): listing and creation.
  Each failure maps to a symbolic error code.

Support modules:

- `Wrappers` (`Option` and `Result`);
- `Json` (the JSON values bodies carry);
- `Text` (prefix and substring tests, case folding, and decimal rendering and
  parsing);
- `Rows` (`filter`, `get`, `delete` and the next auto-increment key over a
  sequence of rows);
- `Sorting` (`ORDER BY` as a sort by a total preorder).

Collaborators the code cannot see are parameters:

- `json.loads` and `bytes.decode('utf-8')` (`LogMiddleware.Decoders`);
- the downstream handler of the middleware;
- the clock reading stored in `timestamp`, `created_at` and `date`;
- the measured duration;
- the database's text rendering of a float;
- the fresh UUID of a new transaction;
- the profile serializer;
- database faults during the billing query.

## Model

| member | source | states |
|---|---|---|
| Responses.ClampError | utils/utils.py:14-15 | the error status is always in 400..599; a code in that band is kept; `None` or any other code becomes 500 |
| Responses.ClampSuccess | utils/utils.py:33-34 | the success status is always in 200..399; a code in that band is kept; `None` or any other code becomes 202 |
| Responses.ClampErrorIdempotent | utils/utils.py:14-15 | clamping an already clamped error code returns it unchanged |
| Responses.ClampSuccessIdempotent | utils/utils.py:33-34 | clamping an already clamped success code returns it unchanged |
| Responses.ErrorResponse | utils/utils.py:5-17 | the error envelope carries the given status text and message, `data = {isAvailable: false, error_code}` and `options = {}`, sent with the clamped code |
| Responses.SuccessResponse | utils/utils.py:20-36 | the success envelope carries the given status text and message; a `None` payload or options becomes `{}`, any other value passes through; it is sent with the clamped code |
| Responses.ErrorDefaults | utils/utils.py:7-15 | with no arguments: 500, "NOK", "Operation failed.", error code 666 |
| Responses.SuccessDefaults | utils/utils.py:22-34 | with no arguments: 202, "OK", "Operation Successfully Done.", empty data and options |
| Responses.ReadRender | utils/utils.py:27-32 | a rendered envelope is an object with exactly the four keys, and it reads back as the same envelope |
| LogMiddleware.ShouldLogRequest | logger/middleware.py:30-31 | a path is not logged exactly when it starts with one of the 12 excluded prefixes |
| LogMiddleware.ExclusionBoundaries | logger/middleware.py:12-31 | `/favicon.ico` and `/health-check/` are logged; `/logger/logs/`, `/swagger/` and `/favicon.ico/` are not |
| LogMiddleware.ParseOrText | logger/middleware.py:41-44 | the JSON value when `json.loads` succeeds; the UTF-8 text only after a JSON decode error; any other exception propagates, as does undecodable UTF-8 |
| LogMiddleware.CaptureRequest | logger/middleware.py:39-44 | an empty body is stored as null; a non-empty one as `ParseOrText` reads it; a read of `request.body` that raises propagates |
| LogMiddleware.CaptureResponse | logger/middleware.py:48-53 | a response without `content` is stored as null; otherwise its content, even when empty, is parsed |
| LogMiddleware.Handle | logger/middleware.py:33-69 | excluded paths return the handler's response and leave the log alone; otherwise the call returns iff both captures succeed and path and method fit their columns, and then it appends exactly one row holding the request's path, method, client address and user agent, the response's status and error message, both captured bodies, `now` and the duration; a capture failure before the handler runs, including a read of `request.body` that raises, raises without calling it |
| LogMiddleware.LoggedStatusIsReturnedStatus | logger/middleware.py:46-69 | whenever the middleware returns, the caller gets the handler's response; a logged request adds one row whose status is the returned status; an excluded one adds none |
| RequestLogs.Create | logger/models.py:4-14 | an insert succeeds iff path ≤ 255 and method ≤ 10 characters; it then appends one row with the next id, the creation time and every given field, and keeps the rows before it |
| RequestLogs.Get | logger/api.py:88 | a row is found iff some row has that id, and it is that row, whatever gaps the ids have |
| RequestLogs.Display | logger/models.py:19-20 | the display string starts with "<method> <path> - " |
| RequestLogs.DisplayEndsWithStatus | logger/models.py:19-20 | the rest of the display string parses back as the status code |
| RequestLogs.Serialize | logger/serializers.py:9-10 | the serialized record has exactly the keys timestamp, path, method, request_data, response_data, status_code and error_message, each holding the record's value |
| RequestLogs.SerializeHidesStorageFields | logger/serializers.py:9-10 | id, duration, ip_address and user_agent never appear, and records differing only in them serialize identically |
| RequestLogs.SerializeInjectiveOnExposed | logger/serializers.py:9-10 | records with equal serializations agree on all seven exposed fields |
| LogQuery.Matching | logger/api.py:26-28 | a record is listed iff it passes the exact method and status filters and every search term, as often as it occurs in the table, so `count` is the number of matching records |
| LogQuery.SearchSeesOnlyPathAndError | logger/api.py:28 | search depends only on path and error message |
| LogQuery.FiltersSeeOnlyMethodAndStatus | logger/api.py:27 | the exact filters depend only on method and status code |
| LogQuery.NoParametersMatchAll | logger/api.py:49-52 | with no filter and no search term every record is listed, in table order |
| LogQuery.ParseOrderTerm | logger/api.py:29 | an ordering term is accepted exactly as one of timestamp, duration or status_code, optionally preceded by one '-', which makes it descending; each such term is accepted |
| LogQuery.ValidKeys | logger/api.py:29 | every effective key comes from some given term |
| LogQuery.ValidKeysComplete | logger/api.py:29 | every accepted term contributes its key, so the keys are empty exactly when no term is accepted |
| LogQuery.ValidKeysAppend | logger/api.py:29 | the keys keep the order of the terms: the keys of a concatenation are the keys of its parts in turn |
| LogQuery.OrderingHonoursField | logger/api.py:29-30 | `?ordering=f` and `?ordering=-f` for a whitelisted field order by exactly that field, ascending or descending |
| LogQuery.EffectiveOrdering | logger/api.py:29-30 | with no accepted term the ordering is `-timestamp`; otherwise it is the accepted terms |
| LogQuery.BeforeTotal | logger/api.py:29-30 | any two records are comparable under any ordering |
| LogQuery.BeforeTransitive | logger/api.py:29-30 | the ordering is transitive |
| LogQuery.BeforeIsTotalPreorder | logger/api.py:29-30 | the ordering is a total preorder |
| LogQuery.OrderBy | logger/api.py:51-52 | the ordered result is a permutation of its input, sorted by the keys |
| LogQuery.DefaultOrderingIsNewestFirst | logger/models.py:16-17 | under the default ordering timestamps never increase along the result |
| LogQuery.EffectivePageSize | logger/api.py:17-20 | the page size is 100 when `page_size` is absent, not a number or below 1; otherwise it is the requested size capped at 1000; it is always between 1 and 1000 |
| LogQuery.NumPages | logger/api.py:54-55 | there is at least one page; the pages hold every record and the last one is not empty unless there are no records |
| LogQuery.PageNumber | logger/api.py:54-55 | an absent or empty page is 1, "last" is the last page, a number within range is that page, anything else fails with "Invalid page." |
| LogQuery.PageSlice | logger/api.py:55 | a page holds at most page-size records |
| LogQuery.PagesUpToIsPrefix | logger/api.py:54-55 | the first k pages together form the prefix of length min(k·size, count) |
| LogQuery.AllPagesCoverResult | logger/api.py:54-57 | for one fixed ordered result (one table, one order of rows equal on every key), reading all pages in turn yields it exactly once |
| LogQuery.Query | logger/api.py:47-63 | fails iff the status filter is not a number or the page is invalid, with the framework's message; otherwise the page number is the one asked for, the page count is that of all matching records, the records are the slice at that page of the filtered, ordered records, and `count` is the number of all matching records |
| LogQuery.RequestedPageIsServed | logger/api.py:54-57 | `?page=k` for any existing page k serves page k, holding the k-th slice of the ordered result |
| LogQuery.PaginationMeta | logger/api.py:59-63 | the options hold exactly count, next and previous; next is null on the last page and previous on the first |
| LogQuery.PageResponse | logger/api.py:65-75 | an error becomes a 400 `NOK` envelope whose message is the exception text; a page becomes a 200 envelope with its serialized records and pagination block |
| LogQuery.ListLogs | logger/api.py:47-75 | 400 exactly when the query fails, with its message; otherwise 200 with the page's records and the pagination of the whole result |
| LogQuery.LogDetail | logger/api.py:86-98 | 404 "Log not found" iff no record has the id; otherwise 200 with that record serialized |
| Orders.ParseStatusChoice | order/models.py:8-12 | exactly P, O and C name a status, and each names the one it stores as |
| Orders.ChoicesRoundTrip | order/models.py:8-28 | every stored status, vehicle and payment code reads back as its choice |
| Orders.Advance | order/api.py:108-113 | P advances to O and O to C, each one rank up; C cannot advance |
| Orders.AdvanceTimesBound | order/api.py:108-113 | n successive advances succeed iff n ≤ 2 − rank, and end exactly n ranks up; status never moves backwards |
| Orders.UpdateStatus | order/api.py:106-116 | a missing id raises `DoesNotExist`; a completed order gives 400 "Order already delivered" and no change; otherwise 200 `{"status": "Done"}` with only that order advanced one rank |
| Orders.UpdateStatusIgnoresRequester | order/api.py:107 | the reply and the resulting table do not depend on who asks |
| Orders.UpdateStatusFrame | order/api.py:106-116 | no order's rank decreases and orders with other ids are unchanged |
| Orders.ActiveOrders | order/api.py:72-75 | 200 with exactly the requester's orders whose status is P or O, each as often as in the table |
| Orders.CompletedOrders | order/api.py:86-90 | 200 with exactly the requester's orders whose status is C, each as often as in the table |
| Orders.ActiveAndCompletedPartitionOwned | order/api.py:73-88 | active and completed orders split the requester's orders: disjoint, and together the same multiset |
| Orders.ListOrders | order/api.py:28-36 | a parameter that names no searchable field raises `FieldError`; otherwise 200 with exactly the requester's orders whose every named field contains the value, ignoring case, each as often as in the table |
| Orders.ListWithoutParamsIsOwned | order/api.py:29-34 | with no query parameter the list is all of the requester's orders |
| Orders.CreateOrder | order/api.py:43-48 | an invalid body gives 400 and no change; a valid one gives 201 and appends an order owned by the requester under a fresh id, with status P unless given, and the given post content, addresses, vehicle, weight limit and payment method |
| Orders.OrderDetail | order/api.py:57-61 | 404 iff the requester owns no order with that id; otherwise 200 with that order |
| Orders.CreatedOrderIsFound | order/api.py:43-61 | the detail view of a newly created order, for its owner, returns exactly the stored order |
| Orders.DeleteOrder | order/api.py:127-130 | 404 and no change iff the requester owns no order with that id; otherwise 204, and exactly the order with that id is removed |
| ProfilePrefs.GetNotificationPrefs | userprofile/api.py:83-89 | 200 with exactly sms_notification and email_notification, holding the user's values |
| ProfilePrefs.PutNotificationPrefs | userprofile/api.py:102-112 | each flag is overwritten iff its key is present; the language is untouched; always 204 |
| ProfilePrefs.GetLanguage | userprofile/api.py:128-133 | 200 with exactly app_lang |
| ProfilePrefs.PutLanguage | userprofile/api.py:145-153 | app_lang is overwritten iff present; the flags are untouched; always 200 |
| ProfilePrefs.PutWithoutKeysKeepsPreferences | userprofile/api.py:102-112 | a request with none of the keys changes nothing and still gives 204 (preferences) or 200 (language) |
| ProfilePrefs.PutsAreIdempotent | userprofile/api.py:106-111 | repeating a preference or language PUT gives the state a single one gives |
| ProfilePrefs.PutsCompose | userprofile/api.py:106-109 | two successive PUTs equal one PUT of the merged request in which the later keys win |
| ProfilePrefs.GetProfile | userprofile/api.py:30-38 | 200 `OK` with the profile under `data.profile` iff there is a user and serialization succeeds; a missing user gives a default 400 `NOK`; a raising serializer gives 400 with the exception text as message |
| ProfilePrefs.PutProfile | userprofile/api.py:45-51 | valid data gives 200 `OK` and the updated user; invalid data gives 400 `NOK` and no change |
| Notifications.ListNotifications | notification/api.py:19-22 | 200 with exactly the requester's notifications, each as often as in the table |
| Notifications.CreateNotification | notification/api.py:24-29 | an invalid body gives 400 and no change; a valid one appends a notification owned by the requester, created at `now`, unread unless the body says otherwise, under a fresh id, and gives 201 |
| Notifications.GetNotification | notification/api.py:36-47 | 404 iff the requester owns no notification with that id; otherwise 200 with it |
| Notifications.PutReadFlag | notification/api.py:53 | the read flag a full update stores: the body's `is_read` when present; otherwise the stored flag for a JSON body and false for a form-encoded or multipart body |
| Notifications.PutNotification | notification/api.py:49-57 | 404 for a missing or foreign id, 400 for an invalid body, both without change; otherwise 200, title and message replaced, the read flag as `PutReadFlag` gives for the body's encoding, id, owner and creation time kept, other rows unchanged |
| Notifications.DeleteNotification | notification/api.py:59-64 | 404 and no change iff the requester owns no notification with that id; otherwise 204, and exactly that notification is removed |
| Notifications.LookupId | notification/api.py:72-74 | an absent or null id matches nothing; a number is itself; a boolean is 1 or 0; a string is its decimal value, or raises `ValueError`; a list or object raises `TypeError` |
| Notifications.TextIdsMatchNumericIds | notification/api.py:72-74 | an id sent as decimal text selects the same row as the id sent as a number |
| Notifications.MarkRead | notification/api.py:71-80 | an unreadable id raises; 404 with no change when the requester owns no notification with the id; otherwise 200 "Notification marked as read" with only that row's read flag set |
| Notifications.MarkReadIdempotent | notification/api.py:71-80 | marking twice gives the same reply and state as marking once |
| Notifications.ForeignRowsUntouched | notification/api.py:36-80 | put, delete and mark-as-read keep every notification of other users |
| Transactions.ParsePaymentStatus | transaction/models.py:9-14 | exactly PENDING, COMPLETED, FAILED and CANCELLED name a payment status |
| Transactions.PaymentStatusRoundTrip | transaction/models.py:9-20 | every stored payment status reads back as itself and fits the 10-character column |
| Transactions.ShowCents | transaction/models.py:18 | an amount renders as a decimal with two places and a sign exactly when negative |
| Transactions.ParseShowCents | transaction/models.py:18 | a rendered amount parses back as the same number of cents |
| Transactions.Serialize | transaction/models.py:16-21 | the serialized transaction has exactly the six model fields, and reading it back gives the transaction, every field included |
| Transactions.Listed | transaction/models.py:29 | the listed transactions are a permutation of the requester's, dated newest first |
| Transactions.ListTransactions | transaction/api.py:22-25 | a 200 `OK` envelope whose data is the requester's transactions, newest first |
| Transactions.GetTransaction | transaction/api.py:50-56 | the 404 "Transaction not found" envelope iff the requester owns no transaction with that id; otherwise 200 with it |
| Transactions.DeleteTransaction | transaction/api.py:79-85 | 404 envelope and no change iff not owned; otherwise a success envelope sent as 204, and exactly that transaction removed |
| Transactions.DraftErrors | transaction/api.py:35-39 | the error map names the amount iff it is missing on a full validation or has more than 10 digits, and the payment status iff it is not a known choice |
| Transactions.Rejected | transaction/api.py:39 | a rejected body is a 400 `NOK` envelope with the error map as `error_code` |
| Transactions.Apply | transaction/api.py:69-71 | an update keeps id, owner and date and replaces exactly the fields the body carries |
| Transactions.CreateTransactionAsWritten | transaction/api.py:32-39 | as written: an immutable body raises `AttributeError`; an invalid one gives 400; a valid one raises `IntegrityError`; the table never changes |
| Transactions.CreateAsWrittenNeverCreates | transaction/api.py:33-37 | as written, no request creates a transaction, and a valid JSON body ends in a 500 |
| Transactions.CreateTransaction | transaction/api.py:32-39 | as intended: a valid body appends a transaction owned by the requester, dated `now`, under the fresh id, with the given amount, description and payment status (PENDING unless given), and gives 201 with it; a used id raises; an invalid body gives 400 and no change |
| Transactions.CreatedTransactionIsFound | transaction/api.py:32-56 | the detail view of a newly created transaction, for its owner, returns the same serialized transaction as the create did |
| Transactions.UpdateTransactionAsWritten | transaction/api.py:63-73 | as written: 404 or 400 without change; a valid body is saved and then `TypeError` escapes |
| Transactions.UpdateAsWrittenFailsAfterSaving | transaction/api.py:70-72 | as written, a valid update that changes the amount reports a 500 although the table changed |
| Transactions.UpdateTransaction | transaction/api.py:63-73 | as intended: 404 or 400 without change; otherwise the row is updated and 200 returns it |
| Transactions.UpdateAgreesOnState | transaction/api.py:70-72 | the intended update stores exactly what the as-written one stores; the as-written one raises exactly where the intended one gives 200 |
| Billing.Display | invoice/models.py:18-19 | the display string is line 1, city and country, in that order, separated by ", " |
| Billing.Serialize | invoice/models.py:7-16 | the serialized address has exactly the nine model fields, its owner under `user`, and reading it back gives the address, every field included |
| Billing.GetAddresses | invoice/api.py:42-75 | no user gives 401 USER_NOT_FOUND; `ObjectDoesNotExist` gives 404 OBJECT_NOT_FOUND; any other fault gives 500 INTERNAL_SERVER_ERROR; otherwise 404 NO_BILLING_ADDRESS_FOUND iff the requester has no address, else 200 with exactly the requester's addresses under `data.data` |
| Billing.ListedAddressesAreOwned | invoice/api.py:52-61 | every listed item names the requester as owner |
| Billing.RequiredTextError | invoice/models.py:9-15 | a required text field is accepted iff present, not blank and within its length |
| Billing.DraftErrors | invoice/models.py:9-15 | the body is accepted iff line 1, city, state, postal code and country are present, not blank and within 255/100/100/20/100 characters, and line 2, when given, is within 255 |
| Billing.PostAddress | invoice/api.py:78-107 | no user gives 401; an immutable body gives 500; an invalid body gives 400 VALIDATION_ERROR with the error map as message and no change; otherwise 201, and one new address owned by the requester under a fresh id, holding the given lines, city, state, postal code and country, and not the default unless the body says so |
| Billing.PostedAddressIsListed | invoice/api.py:42-107 | after a successful post, the list view of the same user answers 200 and includes the new address |
| Billing.OwnedAddressIsListed | invoice/api.py:52-61 | every address the requester owns appears, serialized, in the 200 list reply |
| Billing.PostIgnoresClientUser | invoice/api.py:88-90 | the `user` a client sends has no effect on the reply or the table |

## Left out

- Wall-clock timing: the middleware's duration and the clock readings stored in `timestamp`, `created_at` and `date` are inputs. Datetimes and UUIDs are serialized as numbers, not as their text renderings.
- The float `weight_limit` is an opaque `real`. The database's text rendering of it, which an `icontains` lookup compares, is a parameter.
- JSON parsing and UTF-8 decoding are parameters. The middleware catches only a JSON decode error, so any other failure, and any failed insert, escapes as `Raised`. Nothing is masked.
- Column widths are enforced by the database: an over-long path or method makes the log insert raise `DataError`. A database that stores over-long text silently is not modelled.
- Query-string integers are read as an optional sign followed by digits. Python's `int()` also accepts surrounding whitespace and underscores; that leniency is not modelled. The status filter's decimal parsing (for example "200.0") is not modelled either.
- Search and ordering parameters arrive already split into terms; the framework's splitting and quoting rules are not modelled. Pagination links are represented by the page number they point to.
- Orders.ListOrders: a parameter that follows a relation (such as `user__email`) is treated like an unknown field and raises, although Django would follow it.
- Orders.CompletedOrders: its `except` branch (500 with the exception text) is not modelled, because the query cannot fail in the model.
- Serializer validation (`ModelSerializer.is_valid`) is modelled by the model's field rules: required, not blank, maximum length and known choices. Whitespace trimming and the exact DRF messages for decimals are not modelled. order/serializers.py is not part of this model.
- The notification and language preferences store whatever JSON value the request carried; type coercion by the user model's fields is not modelled. The user model that holds them is not part of this model.
- ProfilePrefs.PutProfile: the validation and update of the profile serializer is a parameter, because the serializer names fields the visible user model does not have.
- Transactions: the amount is integer cents. Decimal input with more than two places is not modelled.
- JSON numbers are integers. A float in a captured request or response body, or an id such as `2.0` in a mark-as-read request (which Python's `int()` reads as 2), is not modelled.
- Case folding (`Text.Lower`) covers ASCII letters only. The database's `icontains` also folds the case of other Unicode letters.
- LogQuery.AllPagesCoverResult: the tie order is not stable across separate page queries. Each `?page=k` re-runs the ordered query, the ordering adds no unique tie-breaker, and other requests may insert rows between pages. The lemma is about one fixed ordered result; in the source, successive pages can repeat or skip rows that are equal on every ordering key.
- RequestLogs.ValidTable: log ids are assumed dense (1, 2, 3, ...), because the application only inserts log rows. `RequestLogs.Get` looks rows up by key and does not depend on this.
- invoice/urls.py imports `BillingAddressSetDefaultAPI` (lines 3-4), which invoice/api.py does not define, so `include('invoice.urls')` fails as written. The Billing views are modelled as if that import succeeded.
- userprofile/api.py imports `send_notification` from utils/utils.py (line 16), which does not define it. The views are modelled as if that import succeeded; the push-notification helper itself is not part of this model.
- Authentication, permissions, JWT and token handling, Swagger decorators, URL routing, the authentication app, `TestAPI` (push-notification I/O), the `BillingAddressDetailAPI` stubs and migrations have no counterpart.
- `ATOMIC_REQUESTS` is assumed off, so a save before an exception persists, as `Transactions.UpdateTransactionAsWritten` shows.

## Findings

| source | as written | input that shows it | evidently intended | confidence | as-written member | corrected member |
|---|---|---|---|---|---|---|
| transaction/api.py:32-39 | the requester's id is written into the body's `user`, but the serializer marks `user` read-only and drops it; `save()` then inserts a row without an owner, and the non-null `user_id` column raises `IntegrityError` (a form-encoded body raises `AttributeError` even earlier) | a JSON POST `{"amount": "12.50"}` | the new transaction belongs to the requester and the reply is a 201 success envelope | high, not executed | Transactions.CreateTransactionAsWritten | Transactions.CreateTransaction |
| transaction/api.py:70-72 | after a valid update is saved, the success envelope is built with `status=`, a keyword `CustomSuccessResponse` does not accept; the `TypeError` turns the reply into a 500 although the row changed | a PUT `{"amount": "20.00"}` on the requester's own transaction | a 200 success envelope carrying the updated transaction (`status_code=`) | high, not executed | Transactions.UpdateTransactionAsWritten | Transactions.UpdateTransaction |
