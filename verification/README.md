# Stage-resturant in Dafny

A model of the decision logic of a small restaurant web application. It has an
Express back end (reservations, orders, login) and a React front end (the home
page's reservation form, the admin panel). Everything around that logic — the
database, HTTP transport, bcrypt, JWT, express-validator's library checks,
`Date` — is a parameter or an uninterpreted function of the model.

| file | module | models |
|---|---|---|
| `text.dfy` | `Text` | strings as `seq<char>`: digits and numerals, padding, ASCII lower-casing, substring search, trimming, splitting |
| `sorting.dfy` | `Sorting` | an insertion sort with a three-way comparator. It stands in for `Array.prototype.sort` and for SQL `ORDER BY` |
| `error_handling.dfy` | `ErrorHandling` | `handleApiError` |
| `admin_listing.dfy` | `AdminListing` | the admin panel's filter, `sortData`, the sort toggle, and slice pagination, as functions |
| `admin_panel.dfy` | `AdminPanel` | the admin panel's state. Class `ListView` models one list; class `Panel` holds both lists and `loading` |
| `reservation_routes.dfy` | `ReservationRoutes` | the reservation validation chain, and the POST/GET handlers over a `ReservationTable` class |
| `order_codec.dfy` | `OrderCodec` | the JSON text that `order_items` is stored as: a hand-written encoder and parser, with a round-trip proof |
| `order_routes.dfy` | `OrderRoutes` | the order POST checks and insert, and the GET ordering and per-row parse, over an `OrderTable` class |
| `auth_routes.dfy` | `AuthRoutes` | bearer-token extraction and the 401/403 gate (class `Exchange`), and the login decision with connection release (class `ConnectionPool`) |
| `reservation_form.dfy` | `ReservationForm` | `validateDateTime` and the home page's component state (class `Home`) |

Handlers that change state are class methods. They are proved against the
functions that specify them: `ReservationTable.Post` against `FieldErrors`
and `NewRow`; `OrderTable.Post` against `Rejection` and `NewOrder`;
`ConnectionPool.Login` against `LoginOutcome`. The class invariants say what
every stored row satisfies:

- Stored reservations have a valid time and a guests value above 0.
- Stored orders have item text that parses back to a non-empty item list, and a numeric total.
- Ids increase along the table.

## Model

| member | source | states |
|---|---|---|
| ErrorHandling.HandleApiError | src/utils/errorHandling.js:1-27 | The result is always one of the nine messages. It is the connectivity message iff there is no response but a request went out. It is the preparation message iff there is neither. It is the generic message iff the response status is not one of 400, 401, 403, 404, 409, 500. A response never yields the two no-response messages. |
| ErrorHandling.MessagesDistinct | src/utils/errorHandling.js:4-26 | The nine messages are pairwise different. |
| ErrorHandling.ResponseTakesPrecedence | src/utils/errorHandling.js:2-19 | With a response, the status alone decides the message and the request flag plays no part. Two different statuses, the first one of the six known ones, give different messages. |
| AdminListing.Filter | src/pages/Admin.jsx:104-109 | A record is kept iff it is in the input and matches: some truthy field's lower-cased text contains the lower-cased filter. Every copy of a matching record is kept and no copy of any other, so the result's multiset is the input's restricted to matches. The result is no longer than the input. |
| AdminListing.FilterIsSubsequence | src/pages/Admin.jsx:104-109 | The filtered list is a subsequence of the input: relative order is kept. |
| AdminListing.EmptyFilterKeepsTruthy | src/pages/Admin.jsx:104-109 | With the empty filter, a reservation is kept iff one of its fields is truthy. A record whose fields are all falsy is dropped. |
| AdminListing.WithoutObjects | src/pages/Admin.jsx:113 | Exactly the fields whose value is not an object remain. |
| AdminListing.OrderFilterIgnoresObjects | src/pages/Admin.jsx:111-115 | An order matches iff the record with its object-valued fields removed matches the reservation rule: an array such as order_items never causes a match. |
| AdminListing.LexCompare | src/pages/Admin.jsx:76-78 | The stand-in for localeCompare returns -1, 0 or 1, and 0 exactly for equal strings. |
| AdminListing.LexCompareFlip | src/pages/Admin.jsx:74-79 | Swapping the arguments negates the comparison. |
| AdminListing.LexCompareTransitive | src/pages/Admin.jsx:74-79 | The comparison is transitive, so the string sort is consistent. |
| AdminListing.SortData | src/pages/Admin.jsx:61-62 | The result is a permutation of the input (same multiset, same length, same elements); the input is a value and stays unchanged. |
| AdminListing.SortChronological | src/pages/Admin.jsx:66-73 | For key date or created_at with valid dates: ascending by time for "asc", descending for any other direction. |
| AdminListing.SortLexicographic | src/pages/Admin.jsx:74-79 | When every value of the key is a string: ordered by the string comparison, reversed for any direction but "asc". |
| AdminListing.SortNumeric | src/pages/Admin.jsx:80-86 | When no value is a string and all convert to numbers: ordered numerically, reversed for any direction but "asc". |
| AdminListing.Toggle | src/pages/Admin.jsx:90-102 | The new key is the clicked key. The direction is "desc" iff the previous key was the clicked key and the previous direction "asc"; otherwise it is "asc". |
| AdminListing.ToggleAgainFlips | src/pages/Admin.jsx:90-102 | A second click on the same column always flips the direction. |
| AdminListing.SliceIndex | src/pages/Admin.jsx:124 | Slice indices are clamped into [0, len] and taken as they are when already inside. |
| AdminListing.NumPages | src/pages/Admin.jsx:136 | The page count is the least number of pages of ten that holds n items. |
| AdminListing.PageContents | src/pages/Admin.jsx:122-128 | Page p >= 1 is exactly the elements from (p-1)*10 to p*10, cut at the end of the list, so never more than ten. |
| AdminListing.PageBeyondLast | src/pages/Admin.jsx:122-128 | A page past the last one is empty. |
| AdminListing.PagesUpToPrefix | src/pages/Admin.jsx:122-128 | Pages 1..k laid end to end are the prefix of length min(10k, n). |
| AdminListing.PagesCoverAll | src/pages/Admin.jsx:122-128 | Pages 1..ceil(n/10) laid end to end are the whole list: every item appears on exactly one page, in order. |
| AdminListing.NoResultsNextEnabled | src/pages/Admin.jsx:203 | With no items there are no page buttons, so on page 1 Next is not disabled. |
| Sorting.Sort | src/pages/Admin.jsx:62 | The sorted sequence has the same multiset of elements as the input. |
| Sorting.SortSorted | src/pages/Admin.jsx:62 | With a comparator that is antisymmetric and transitive on the elements, every element compares at most 0 against every later one. |
| Sorting.SortSameElements | src/pages/Admin.jsx:62 | The sorted sequence has the input's length and exactly its elements. |
| AdminPanel.ListView.PageNumbers | src/pages/Admin.jsx:135-143 | The loop builds exactly [1, 2, ..., ceil(n/10)] for n filtered records. |
| AdminPanel.ListView.Fetched | src/pages/Admin.jsx:20-32 | An ok answer replaces the records. Any other outcome keeps them and records handleApiError's message. Filter, sort and page are untouched. |
| AdminPanel.ListView.FilterChanged | src/pages/Admin.jsx:53-59 | The filter text becomes the typed value. |
| AdminPanel.ListView.SortClicked | src/pages/Admin.jsx:90-102 | The sort state becomes the toggle of the old one. |
| AdminPanel.ListView.PageClicked | src/pages/Admin.jsx:199 | A page button sets the current page to its number. |
| AdminPanel.ListView.PrevClicked | src/pages/Admin.jsx:197 | Prev does nothing on page 1 and goes back one page otherwise; the page stays >= 1. |
| AdminPanel.ListView.NextClicked | src/pages/Admin.jsx:203 | Next does nothing when the page equals the number of page buttons, and goes forward one page otherwise. |
| AdminPanel.Panel.constructor | src/pages/Admin.jsx:5-16 | Both lists start empty, unfiltered and on page 1. Reservations are sorted by date ascending and orders by created_at descending. The panel starts loading. |
| AdminPanel.Panel.ReservationsFetched | src/pages/Admin.jsx:20-32 | The reservation fetch sets the reservation list only. A failure records the message handleApiError gives an error with neither response nor request. |
| AdminPanel.Panel.OrdersFetched | src/pages/Admin.jsx:35-50 | The order fetch sets the order list and, in its finally, ends loading. |
| Text.Trim | routes/reservationRoute.js:11 | The trimmed text neither starts nor ends with white space. |
| Text.TrimUnspaced | routes/reservationRoute.js:11 | A text with no white space at either end is left as it is by trimming. |
| Text.SplitHasPieces | routes/authRoutes.js:12 | Splitting at a separator gives at least two pieces iff the separator occurs. |
| ReservationRoutes.ClockOf | routes/reservationRoute.js:15 | Every accepted time denotes an hour below 24 and a minute below 60, and is exactly their clock text: the hour in one or two digits, the minute in two. |
| ReservationRoutes.TimePatternComplete | routes/reservationRoute.js:15 | Conversely, every hour 0-23 and minute 0-59 is accepted, with the hour in two digits and, below 10, in one. |
| ReservationRoutes.TimePatternExamples | routes/reservationRoute.js:15 | "7:30", "19:30" and "07:05" are accepted; "24:00", "19:30:00", "19:5" and "" are refused. |
| ReservationRoutes.PositiveIntOfNumeral | routes/reservationRoute.js:16 | The numeral of an integer passes the guests check iff the integer is greater than 0. |
| ReservationRoutes.Check | routes/reservationRoute.js:14-16 | A check gives no error iff it passes. |
| ReservationRoutes.FieldErrors | routes/reservationRoute.js:11-16 | There are no errors iff: the email is absent or valid, the date is ISO 8601, the time matches the pattern, and guests is an integer above 0. Errors name only email, date, time or guests. There is a guests error iff guests fails, and a time error iff time fails. |
| ReservationRoutes.AcceptedRowWellFormed | routes/reservationRoute.js:26-32 | An accepted body's row holds the submitted time and guests, which are well-formed. Other body fields, such as status, do not change the row. |
| ReservationRoutes.GuestsScenario | routes/reservationRoute.js:16 | Guests "4" is accepted; guests "0" gives exactly one error, on guests. |
| ReservationRoutes.ReservationTable.Post | routes/reservationRoute.js:18-38 | Any validation error gives 400 with the errors and leaves the table unchanged. A failed insert gives 500 and leaves the table unchanged. Otherwise exactly NewRow is appended under the next id, which is returned. The invariant holds throughout. |
| ReservationRoutes.ReservationTable.List | routes/reservationRoute.js:41-49 | All stored rows, as stored and in store order, or the failure. |
| OrderCodec.ParseIntOf | routes/orderRoutes.js:26 | Any integer's numeral, followed by a non-digit, reads back as that integer. |
| OrderCodec.ParseStringBodyOf | routes/orderRoutes.js:26 | Any string, escaped and closed by a quote, reads back as that string. |
| OrderCodec.ParseItemOf | routes/orderRoutes.js:26 | An encoded item reads back as that item, and parsing resumes right after it. |
| OrderCodec.ParseElementsOf | routes/orderRoutes.js:47 | Any non-empty item list, comma-separated and closed by "]", reads back as that list. |
| OrderCodec.RoundTrip | routes/orderRoutes.js:26 | Parsing the serialized items gives back exactly the submitted items, in order. |
| OrderRoutes.NumericTextAccepts | routes/orderRoutes.js:9 | "42", "-3", "25.50" and ".5" are numeric. |
| OrderRoutes.NumericTextRefuses | routes/orderRoutes.js:9 | "", "+", "abc" and "1." are not numeric. |
| OrderRoutes.NumericTextTwoPoints | routes/orderRoutes.js:9 | "1.2.3" is not numeric. |
| OrderRoutes.NumericTextOfInt | routes/orderRoutes.js:9 | The numeral of every integer, negative ones included, is numeric, so an integer total never fails the schema check. |
| OrderRoutes.SchemaErrors | routes/orderRoutes.js:8-9 | There are no errors iff order_items is an array and total_amount is numeric. Each message appears iff its check fails. The order_items error comes first. |
| OrderRoutes.Rejection | routes/orderRoutes.js:14-22 | Schema errors take precedence. The empty-items answer occurs iff the schema passes and the array is empty. Both are 400. |
| OrderRoutes.MissingItemsFailSchema | routes/orderRoutes.js:20 | A body without order_items is refused by the schema check, with the order_items error first. |
| OrderRoutes.TotalAsSubmitted | routes/orderRoutes.js:28-29 | The stored total is the submitted text and does not depend on the items. |
| OrderRoutes.NewOrderStoredWell | routes/orderRoutes.js:26-29 | The row inserted for an accepted body satisfies the table invariant. |
| OrderRoutes.Decoded | routes/orderRoutes.js:45-48 | A row decodes iff its item text parses. The result carries the parsed items, and every other field is as stored. |
| OrderRoutes.DecodeAll | routes/orderRoutes.js:45-48 | The map succeeds iff every row decodes. Then it gives one output per row, in order, each the decoded row. |
| OrderRoutes.PlacedOrderReadBack | routes/orderRoutes.js:45-48 | A stored order reads back with exactly the submitted items and the inserted fields. |
| OrderRoutes.AppendKeepsTableWell | routes/orderRoutes.js:28-29 | Appending a well-formed row under the next id keeps the table invariant. |
| OrderRoutes.ListOrder | routes/orderRoutes.js:41 | The listing is a permutation of the table. |
| OrderRoutes.NewestFirst | routes/orderRoutes.js:41 | The listing is ordered by created_at, newest first. |
| OrderRoutes.OrderTable.Post | routes/orderRoutes.js:7-36 | A schema or empty-items rejection is answered as Rejection says, with no insert. A failed insert gives 500 with the error, with no insert. Otherwise exactly NewOrder is appended under the next id, which is returned. The invariant holds throughout. |
| OrderRoutes.OrderTable.List | routes/orderRoutes.js:39-55 | A failed select gives the failure. Otherwise there is one decoded order per row, in newest-first order, each with a non-empty item list. |
| AuthRoutes.ExtractToken | routes/authRoutes.js:11-12 | No header gives no token, and the empty header gives the empty token. A non-empty header gives a token iff it contains a space, and that token contains no space. |
| AuthRoutes.BearerToken | routes/authRoutes.js:12 | "scheme t" and "scheme t extra" both give t, for any space-free scheme and t. |
| AuthRoutes.NoSpaceNoToken | routes/authRoutes.js:12-16 | A non-empty header with no space gives no token. |
| AuthRoutes.Decide | routes/authRoutes.js:11-24 | 401 iff no token. 403 iff the token does not verify. Pass iff it verifies, and then the user is the decoded payload. |
| AuthRoutes.NoTokenIgnoresVerifier | routes/authRoutes.js:14-16 | Without a token the answer is 401 whatever the verifier is. |
| AuthRoutes.TrailingSpaceVerified | routes/authRoutes.js:12-20 | "Bearer " gives the empty token, which goes to the verifier. |
| AuthRoutes.Exchange.AuthenticateToken | routes/authRoutes.js:10-25 | A passing request sets req.user to the payload and calls next exactly once. Otherwise the status is 401 or 403, next is not called and the user is untouched. |
| AuthRoutes.LoginOutcome | routes/authRoutes.js:28-62 | 400 iff a credential is missing or empty. A token iff the user exists and the password matches; it is then the signature of exactly {id, username} for one hour. Refusals are 400, 401 or 500. Every 401 carries the one message. |
| AuthRoutes.NoUserEnumeration | routes/authRoutes.js:40-49 | An unknown user and a wrong password get the identical 401 reply. |
| AuthRoutes.MissingCredentialsIgnoreStore | routes/authRoutes.js:31-33 | Missing credentials are refused the same way whatever the store holds, and no connection is taken. |
| AuthRoutes.ConnectionPool.Login | routes/authRoutes.js:35-61 | The reply is LoginOutcome. A connection is acquired iff the credentials are present and the connection succeeds, and it is then released on every path, so the number in use is unchanged. |
| ReservationForm.ValidateDateTime | src/pages/Accueil.jsx:33-49 | The past message iff the date is before now, whatever its hour. The hours message iff not past and the local hour is outside [11, 22). No error iff neither; an invalid date also passes. |
| ReservationForm.MinutesIgnored | src/pages/Accueil.jsx:43-46 | Minutes and seconds never change the answer: 21:59 is accepted, while 22:00 and 10:59 are refused. |
| ReservationForm.ParseIntPrefix | src/pages/Accueil.jsx:98 | parseInt gives a number only when the text contains a digit. |
| ReservationForm.ParseIntOfNumeral | src/pages/Accueil.jsx:98 | The numeral of a number reads back as that number. |
| ReservationForm.TimeTextAsWrittenRefused | src/pages/Accueil.jsx:91 | The form's HH:MM:SS time text is eight characters long and is refused by the route's time pattern, for every date-time. |
| ReservationForm.TimeTextAccepted | src/pages/Accueil.jsx:91 | The HH:MM text is accepted by the route's pattern and denotes the selected hour and minute. |
| ReservationForm.FormPayloadRefused | src/pages/Accueil.jsx:90-104 | Every payload the form builds, whatever its name, e-mail and guests, is answered by the reservation route's validation chain with a non-empty error list that holds a "time" error. |
| ReservationForm.CorrectedPayloadTimeAccepted | src/pages/Accueil.jsx:90-104 | The same payload with the HH:MM text instead draws no "time" error. |
| ReservationForm.SubmitError | src/pages/Accueil.jsx:104-119 | No error iff the answer is 201. A message other than the default comes from a non-2xx response's body. An error message is never empty. |
| ReservationForm.Home.constructor | src/pages/Accueil.jsx:17-30 | The forms start at their defaults, the modal closed, nothing submitting, no success, no error. |
| ReservationForm.Home.MainFormChanged | src/pages/Accueil.jsx:51-55 | The changed field takes the value, the other keeps its value, and the error is cleared. |
| ReservationForm.Home.ModalInputChanged | src/pages/Accueil.jsx:57-60 | The changed field takes the value and the other keeps its value. |
| ReservationForm.Home.ReservationClicked | src/pages/Accueil.jsx:62-80 | A missing field sets the required message and keeps the modal as it was, before any date check. A date error sets that message and keeps the modal as it was. Otherwise the error is cleared and the modal opens. |
| ReservationForm.Home.BeginSubmit | src/pages/Accueil.jsx:82-102 | The payload carries the customer's name and e-mail, guests = parseInt(partySize), the UTC date, the HH:MM:SS time text and status "pending". An invalid date ends the submission with the default message. |
| ReservationForm.Home.FinishSubmit | src/pages/Accueil.jsx:104-119 | Submitting ends. Success is set iff the answer is 201; otherwise success is untouched and the error is SubmitError's message. |
| ReservationForm.Home.CloseModal | src/pages/Accueil.jsx:122-135 | The modal always closes. After a success both forms go back to their defaults and success is cleared; otherwise what was typed stays. |

## Left out

- routes/reservationRoutes.js is the same validation chain (lines 10-15) and handlers (lines 17-49) as routes/reservationRoute.js, mounted under `/reservations`. The ReservationRoutes members model both; their rows cite routes/reservationRoute.js.
- Wiring is not modelled:
  - routes/orderRoutes.js:1 imports `body` and `validationResult` from `express`, which does not export them.
  - server.js mounts the order router at `/api/orders` while the routes add `/orders` again.
  - src/pages/Admin.jsx:20 and :35 fetch `/api/reservation` and `/api/order`.
  - src/pages/Admin.jsx:31 and :46 call `handleApiError` without importing it. The model treats it as imported.
- server.js, config/database.js and src/pages/Commande.jsx are not part of this model. They hold app wiring, pool configuration and a single fetch.
- The database, bcrypt, JWT, express-validator's `isEmail`/`normalizeEmail`/`escape`/`isISO8601`/`toDate`, `new Date` and the clock are parameters. A query's failure is a parameter of the handler.
- ReservationRoutes.ReservationTable.Post: the INSERT's failure is an input. The model does not derive it from mysql2 refusing `undefined` bind values for absent optional fields.
- ReservationRoutes.FieldErrors: an error carries path, value and message. express-validator's `type` and `location` fields are not modelled.
- An order schema error carries only path and message; the value and location of errors.array() are left out.
- OrderCodec.Serialize: items are limited to {id, name, price, quantity} with integer prices (cents). JSON.stringify of other keys, nested values and floats is not modelled, and neither is Unicode escaping. `Escape` escapes only `"` and `\`, while JSON.stringify also escapes the control characters U+0000 to U+001F.
- OrderRoutes.ListOrder: rows with equal created_at keep table order, because the sort used is stable. SQL leaves that order unspecified, and stability itself is not proved.
- OrderRoutes.OrderTable.List: the 500 answer for a stored text that fails to parse is impossible under the table invariant, so it does not appear in the contract.
- AdminListing.LexCompare: stands in for `localeCompare`, comparing character codes rather than applying locale collation.
- AdminListing.ToNumber: converts null, booleans, integers, and strings that are empty or a digit string with an optional sign once trimmed. Decimal points, exponents, hexadecimal and `Infinity` read as NaN, though JavaScript gives a number. Objects read as NaN too, though `Number([])` is 0 and a one-element array converts through its text. NaN differences are read as 0 by the comparator, as `Array.prototype.sort` treats them.
- Text.Lower: folds only ASCII letters.
- Text.Trim: its contract states only that the result neither starts nor ends with white space (ASCII white space only). It does not state that the result is the input with its outer white space removed.
- AdminPanel.ListView.FilterChanged: as in the source, a filter change does not reset the current page.
- Time on the home page is abstract. A date-time is a timestamp with its local hour, minute and second and its UTC calendar date; time zones and `Date` parsing are not modelled.
- AuthRoutes.LoginOutcome: the credentials are modelled as strings only, and "missing" means absent or empty. The source tests JavaScript falsiness of the raw JSON values, so `0`, `false` and `null` are refused with 400 there. The model has no such values.
- ReservationForm.Received: the JSON body carries no phone, and a NaN guests value is sent as null, which the chain reads as absent.
- On the home page, partySize starts as the number 2 in the source and is held as the text "2". `parseInt` reads both the same way.
- JSX rendering, `toFixed`/`toLocaleString` display, logging and the HTTP transport are left out.

## Findings

| source | as written | input that shows it | evidently intended | confidence | as-written member | corrected member |
|---|---|---|---|---|---|---|
| src/pages/Accueil.jsx:91 | `toTimeString().split(' ')[0]` sends the time as HH:MM:SS, which the route's pattern `^([0-1]?[0-9]\|2[0-3]):[0-5][0-9]$` (routes/reservationRoute.js:15) refuses, so every reservation from the form is answered 400 | any date-time, e.g. 19:30 local gives "19:30:00" | send HH:MM, which passes the route's time check and reads back as the chosen hour and minute | not executed | ReservationForm.TimeTextAsWrittenRefused | ReservationForm.TimeTextAccepted |
