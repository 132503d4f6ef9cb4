# ZEDX backend ledger, modelled in Dafny

ZEDX is a credit-card bill-payment backend. A user registers and logs in with a
bearer token. They link credit cards through the card aggregator (Plaid), which
stores one row per external account with balances and amounts due. They become a
customer of the payments network (Dwolla) after a KYC step, link a bank account as
a funding source, and pay a card by an ACH transfer that is recorded as a pending
payment.

This project models the request-time logic of those handlers over an in-memory
relational store. The store is the class `Ledger.Db`, with one sequence of rows per
table, and each handler that writes is a method that changes only the tables it
writes. Everything the handlers ask of the outside world is a parameter: the
aggregator's and the network's answers (or their failure), password hashing and
comparison, token signing and verification, SSN encryption, and the time `NOW()`
stands for. Every handler that calls the payments network or the card aggregator
also returns the requests it sent: the customer creation and the email search of
`createDwollaCustomer`, the token exchange, processor-token request and
funding-source creation of `createFundingSource`, the status fetch and the transfer.
Contracts therefore say what was sent, and that nothing was sent on an early exit.
`exchangePublicToken` reports only whether it called the aggregator.

Modules:

- `Common`: `Option`, and JavaScript truthiness for optional strings and numbers.
- `Text`: `split` and `join` on one character, the last path segment of a resource
  reference, and ASCII lower-casing.
- `Tables`: the query shapes the handlers use:
  - the first row matching a `WHERE` clause;
  - every matching row;
  - `ORDER BY … DESC`;
  - `LIMIT`.
- `Ledger`: the row types, the `WHERE` predicates, the table invariants and `Db`.
- `Http`: response bodies.
- `AuthMiddleware`: `requireAuth`.
- `AuthController`: `register`, `login` and `getMe`.
- `DwollaController`: `createDwollaCustomer`, `syncDwollaCustomerStatus`,
  `createFundingSource` and `createPayment`.
- `PaymentsController`: `payCreditCard`.
- `PlaidController`: `exchangePublicToken`, `upsertCreditCard` and
  `getCreditCardAccounts`.

Every writing handler keeps `Db.Valid()`:

- emails are stored lower-case and are unique;
- there is one `plaid_items` row per user;
- there is at most one `dwolla_customers` row per user;
- there is one `credit_cards` row per external account id;
- card ids and funding-source ids are unique, so the update by id and the joins on id each reach one row;
- every serial id is below the next id to be handed out.

Amounts are whole cents.

## Model

| member | source | states |
|---|---|---|
| Text.Split | src/middleware/auth.js:17 | `split` on one character: at least one part, no part holds the separator, and joining the parts gives back the input |
| Text.SplitJoin | src/middleware/auth.js:17-18 | splitting the join of separator-free parts gives back the parts |
| Text.LastSegment | src/controllers/dwolla.controller.js:77 | `split('/').pop()`: the id read from a `location` header never contains `/` |
| Text.LastSegmentIsSuffix | src/controllers/dwolla.controller.js:234 | the id read from a `location` header is a suffix of the header, preceded by `/` or the whole header |
| Text.ResourceIdRoundTrip | src/controllers/dwolla.controller.js:313 | a reference built as `prefix/id`, with no `/` in id, reads back as id |
| Text.ToLowerIsLower | src/controllers/auth.controller.js:23 | a lower-cased email is left unchanged by lower-casing it again, which is how stored emails are kept normalised |
| Tables.FirstIndex | src/controllers/auth.controller.js:64-65 | `result[0]` of a `WHERE` query: the first matching row, or none exactly when no row matches |
| Tables.FirstIndexAppend | src/controllers/dwolla.controller.js:99-132 | an inserted row is the first match of its key once no earlier row matched |
| Tables.Where | src/controllers/plaid.controller.js:87-92 | a `WHERE` query returns each matching row exactly as often as the table holds it, and no other row |
| Tables.SortDesc | src/controllers/auth.controller.js:107 | `ORDER BY … DESC` sorts by the key and is a permutation of its input |
| Tables.TakeKeepsLargest | src/controllers/auth.controller.js:138-139 | `ORDER BY … DESC LIMIT n` keeps a sorted part of the rows, and every dropped row's key is at most every kept row's key |
| AuthMiddleware.ResolveUserId | src/middleware/auth.js:25 | the user id is the first truthy one of `userId`, `id`, `sub`, else null |
| AuthMiddleware.BearerFormat | src/middleware/auth.js:17-22 | a header is accepted exactly when it is `Bearer`, one space, and a token without spaces |
| AuthMiddleware.RequireAuth | src/middleware/auth.js:12-33 | each 401 message in order (missing header, bad format, verification throws, payload without user id); `next()` runs exactly when all checks pass, with a truthy user id |
| AuthMiddleware.NextOnlyForBearer | src/middleware/auth.js:17-28 | reaching `next()` implies the header was `Bearer <token>` and the token verified |
| AuthController.Register | src/controllers/auth.controller.js:15-47 | a missing field gives 400 and no change; an email taken up to case gives 400 and no change; otherwise one user is added with the lower-cased email, the password hash, `is_verified` true and score 720, and the answer is 201 with the new user and a token for its id |
| AuthController.DuplicateCheckIgnoresCase | src/controllers/auth.controller.js:23-33 | with emails stored lower-case, registration is refused exactly when a stored email equals the new one up to letter case |
| AuthController.Login | src/controllers/auth.controller.js:54-86 | a missing email gives 500; 200 exactly when the lower-cased email is found and the password matches its hash, with a token and the public columns of that user; otherwise 400 `Invalid credentials` |
| AuthController.LoginFindsRegisteredUser | src/controllers/auth.controller.js:35-47 | a user stored by registration can log in with any casing of their email and their password |
| AuthController.UserCards | src/controllers/auth.controller.js:106-109 | the user's cards, all of them and only them, newest id first |
| AuthController.ActiveFundingSources | src/controllers/auth.controller.js:120-128 | the user's funding sources that are not `removed`, all of them and only them, newest id first |
| AuthController.CardName | src/controllers/auth.controller.js:133-135 | the joined card name is null exactly when no card has the payment's card id, and is otherwise the name of a card with that id |
| AuthController.BankName | src/controllers/auth.controller.js:133-136 | the joined bank name is null exactly when no funding source has the payment's source id, and is otherwise the name of a source with that id |
| AuthController.CardNameOfUniqueId | src/controllers/auth.controller.js:135 | with unique card ids, the joined name is the name of the one card with the id |
| AuthController.JoinedPayments | src/controllers/auth.controller.js:133-137 | one view per payment of the user, in table order, each carrying the card name and bank name the left joins find, or null where they find no row |
| AuthController.RecentPayments | src/controllers/auth.controller.js:131-142 | at most 20 of the user's payments, newest first, each dropped payment no newer than any returned |
| AuthController.GetMe | src/controllers/auth.controller.js:90-150 | 404 exactly when the user row is absent; otherwise the public columns, cards, active funding sources, recent payments, and the customer record's id and status, null exactly when there is none |
| DwollaController.ResolveCustomerId | src/controllers/dwolla.controller.js:59-96 | the id comes from the `location` of a created customer; after a `ValidationError` mentioning "already exists" it is the first hit of the email search; any other failure, or an empty search, fails |
| DwollaController.MarkVerifiedOnlyTarget | src/controllers/dwolla.controller.js:134-139 | only the caller's user row changes, its flag becomes true, and repeating the update changes nothing |
| DwollaController.MarkVerifiedKeepsEmails | src/controllers/dwolla.controller.js:134-139 | marking a user verified keeps the email invariant |
| DwollaController.CreateDwollaCustomer | src/controllers/dwolla.controller.js:9-152 | 401 without a caller, 400 on missing KYC fields, the stored customer unchanged when one exists, each with no request sent; otherwise the raw last four SSN digits are sent, a search by the caller's email is sent exactly when creation failed as a duplicate, and on success a `verified` row holding the encrypted digits is stored and the user is marked verified; a failure is 500 with nothing written |
| DwollaController.AddCustomerKeepsOnePerUser | src/controllers/dwolla.controller.js:41-51 | a customer row added only after the lookup by user id found none keeps at most one row per user |
| DwollaController.SecondRequestFindsStoredCustomer | src/controllers/dwolla.controller.js:42-53 | once a customer is stored, the next request finds it and answers with the same id and `verified` |
| DwollaController.SetCustomerStatusKeepsOnePerUser | src/controllers/dwolla.controller.js:172-175 | the status update keeps at most one customer row per user |
| DwollaController.SetCustomerStatusOnlyTarget | src/controllers/dwolla.controller.js:172-175 | the status update touches only the user's rows and keeps their ids and ciphertext |
| DwollaController.SyncDwollaCustomerStatus | src/controllers/dwolla.controller.js:157-182 | 401 without a caller, 404 without a customer row; otherwise the stored customer id is asked about, and the reported status is stored with the time and returned, or 500 with nothing written |
| DwollaController.CreateFundingSource | src/controllers/dwolla.controller.js:187-255 | 400 on a missing token or account and 404 without a customer row, each with no call made; past those, the public token is exchanged, and if that succeeds a processor token for `dwolla` is requested with the access token and the account id; 500 on any failed call with nothing written; otherwise the processor token is sent for the user's customer and one `unverified` source named `Primary Bank Account` is stored |
| DwollaController.NewFundingSourceIsPayable | src/controllers/dwolla.controller.js:237-244 | a newly stored funding source is the one a later payment by its owner finds by its id |
| DwollaController.CreatePayment | src/controllers/dwolla.controller.js:263-341 | 400 on a missing or zero field, 404 without a customer, 404 when the funding source is not the caller's; otherwise a USD transfer from that source to the caller's customer is sent, and a `pending` payment holding the transfer id is stored, or 500 with nothing written |
| DwollaController.TransferLinksRoundTrip | src/controllers/dwolla.controller.js:297-305 | the transfer's source and destination references read back as the funding-source and customer ids |
| DwollaController.SyncStatusAsWrittenFailsForStoredCustomer | src/controllers/dwolla.controller.js:162-166 | as written, every authenticated caller gets a 500 whatever the table holds and the network reports, so a caller with a stored customer never gets the 200 with the status |
| DwollaController.CreateFundingSourceAsWrittenSendsNothing | src/controllers/dwolla.controller.js:197-204 | as written, every caller past the 400 check gets a 500 and neither an aggregator call nor a funding-source request is sent, a caller with a stored customer included |
| PaymentsController.PayCreditCard | src/controllers/payments.controller.js:4-42 | 400 on a missing or zero field, 404 when the funding source is not the caller's; otherwise a USD transfer to the placeholder destination is sent, and a `pending` payment is stored whose transfer id is the one returned, or 500 with nothing written |
| PaymentsController.DestinationIsPlaceholder | src/controllers/payments.controller.js:20-29 | for every funding-source id without `/`, the transfer's source reads back as that id and its destination as the placeholder `DESTINATION_ID` |
| PlaidController.DeriveCard | src/controllers/plaid.controller.js:102-112 | the columns of a card: available is the reported one unless null or missing, else limit minus current; a missing current or limit counts as 0 but a null one is stored as null; amounts due default to 0 and the due date to null |
| PlaidController.AvailableBalanceExample | src/controllers/plaid.controller.js:112 | current 300, limit 1000, no available balance: 700 is stored |
| PlaidController.MatchLiability | src/controllers/plaid.controller.js:74-81 | the first credit liability whose id, or id list, names the account; none without liabilities or when `credit` is not an array |
| PlaidController.CreditAccounts | src/controllers/plaid.controller.js:71 | exactly the accounts of type `credit`, each as many times as the snapshot lists it |
| PlaidController.UpsertCardKeyed | src/controllers/plaid.controller.js:114-140 | an upsert keeps one row per account and unique ids; an existing row keeps its id and gets the derived columns and `updated_at`, and no row is added; otherwise exactly one row is appended with the next id, the account id and the derived columns; other accounts' rows are untouched |
| PlaidController.UpsertCardTwice | src/controllers/plaid.controller.js:119-130 | upserting an account again adds no row and leaves the latest columns and timestamp |
| PlaidController.SyncCardsKeyed | src/controllers/plaid.controller.js:73-84 | the sync keeps one row per account and unique ids, adds at most one row per credit account, never changes a row's account, and leaves rows of other accounts as they were |
| PlaidController.SyncCardsRefreshes | src/controllers/plaid.controller.js:71-84 | a sync whose credit accounts all have rows already, such as a repeated sync of the same snapshot, adds no row and hands out no id, and each of those rows carries the sync's `updated_at` |
| PlaidController.SyncCardsCovers | src/controllers/plaid.controller.js:71-84 | after the sync every credit account of the snapshot has a row, and every added row belongs to one of them |
| PlaidController.SyncCardsRowContents | src/controllers/plaid.controller.js:73-84 | after the sync, each credit account's row holds (`HoldsDerived`) the columns derived from the last snapshot entry for that account and its matched liability |
| PlaidController.HoldsDerivedKept | src/controllers/plaid.controller.js:114-128 | an upsert for another account leaves an account's derived columns where they are found |
| PlaidController.RowOfOtherAccountKept | src/controllers/plaid.controller.js:114-128 | an upsert for one account leaves another account's row where it was and as it was |
| PlaidController.UpsertCreditCard | src/controllers/plaid.controller.js:101-141 | updates the account's row in place or appends one with a fresh id, and returns the row's id |
| PlaidController.UpsertItemKeyed | src/controllers/plaid.controller.js:46-51 | after the upsert the user has exactly one item row, the new one; other users' rows are untouched |
| PlaidController.RepeatedExchangeKeepsLatest | src/controllers/plaid.controller.js:46-51 | a second exchange for the same user adds no row and keeps the latest token and item id |
| PlaidController.GetCreditCardAccounts | src/controllers/plaid.controller.js:142-158 | every stored card of the given user, and no other, each as many times as the table holds it |
| PlaidController.ExchangePublicToken | src/controllers/plaid.controller.js:31-99 | 400 and no aggregator call without a token or caller; a failed exchange is 500 with nothing written; otherwise the item is upserted, each credit account is upserted with its matched liability (a failed liabilities call counts as none), and the user's stored cards are returned |
| PlaidController.SyncCreditCards | src/controllers/plaid.controller.js:73-84 | the loop performs one upsert per credit account, in order |
| PlaidController.ExchangeTouchesOnlyCreditAccounts | src/controllers/plaid.controller.js:71-84 | a sync leaves unchanged the row of any account that is not a credit account of the snapshot |
| PlaidController.ExchangeGivesEachCreditAccountOneRow | src/controllers/plaid.controller.js:71-84 | after a sync every credit account of the snapshot has exactly one row |

## Left out

- Database failures, the `catch` around each whole handler for them, and concurrent requests. Each handler runs alone against the store and every query succeeds.
- The generic 500 answers for unexpected exceptions, except where the model names the exception: a missing login email, a failed aggregator or network call, an empty customer search.
- `createLinkToken`, and the bank-link flow (`exchangeCardToken`, `linkBankAccount`). `src/routes/plaid.routes.js` imports these, but the controller does not export `exchangeCardToken` or `linkBankAccount`, and they are not part of this model.
- Routing. Every handler is modelled as reachable, although several are not. `src/routes/auth.routes.js` maps `/me` to `requireAuth` alone, and no route serves `getCreditCardAccounts`. `src/routes/plaid.routes.js:15` maps `/exchange-card-token` to `exchangeCardToken`, which the controller does not define, so no route serves `exchangePublicToken`. `src/server.js:15-16` mounts only the auth and aggregator routers, so neither `dwolla.routes.js` nor `payments.routes.js` is reachable. `getCreditCardAccounts` takes its user id from the path, not the token.
- AuthController.Login: a missing password is not modelled (the password is a string), so the exception `bcrypt.compare` raises on it is out of scope.
- AuthController.Register: the user table is checked for the lower-cased email only. Rows written outside these handlers are assumed to keep emails lower-case.
- Text.ToLower: covers ASCII letters only. JavaScript's full Unicode case mapping is not modelled.
- DwollaController.CreateDwollaCustomer: SSN encryption is the parameter `encrypt`. AES-CBC with a random IV, as in `src/utils/encryption.js`, is not modelled.
- The order of the calls is not modelled: encryption happens before the network call, but it has no effect the model can see.
- PaymentsController.PayCreditCard, DwollaController.CreatePayment and PlaidController.DeriveCard: amounts are integers (cents).
  - The string `"0"`, which is truthy, and fractional or non-numeric amounts are not modelled.
  - An amount is present exactly when it is non-zero.
- PlaidController.UpsertCreditCard: an account snapshot always carries a `balances` object. Without one, reading `balances.available` throws, and the model does not represent that case.
- PlaidController.UpsertCreditCard: the update goes by the row's position, which is the same as going by its id because card ids are unique. Handlers preserve this uniqueness as part of `Db.Valid()`, but rows written outside them are not modelled.
- PlaidController.ExchangePublicToken: returns only whether it called the aggregator. The requests themselves are not returned, so the model does not tie the public token sent to the exchange (src/controllers/plaid.controller.js:41), or the access token sent to the accounts and liabilities calls (lines 54 and 60), to the handler's inputs.
- PlaidController.ExchangePublicToken: a failed aggregator call is the single answer `ProviderError`. Its body (the provider's error data or the exception's message) is not modelled.
- Timestamps set by `NOW()` or a column default are a `now` parameter.
  - A payment's `created_at` comes from the handler's `now`.
  - A card's `updated_at` is set only on update.
- One serial counter hands out ids for every table, where the database keeps one sequence per table. Only freshness matters to the handlers.
- Token signing, expiry and the signing secret are the parameters `sign` and `verify`. The process exiting when the secret is unset is not modelled.
- Logging is not modelled.

## Findings

| source | as written | input that shows it | evidently intended | confidence | as-written member | corrected member |
|---|---|---|---|---|---|---|
| src/controllers/dwolla.controller.js:162-166 | `const { rows } = await pool.query(...)` reads a `rows` property, but the driver returns the array of rows itself (the same module indexes it directly at lines 47 and 278). So `rows[0]` throws and the handler answers 500 | an authenticated user with a stored customer row, and the network reporting status `verified` | look up the first row of the result and sync its status | medium, not executed | DwollaController.SyncStatusAsWrittenFailsForStoredCustomer | DwollaController.SyncDwollaCustomerStatus |
| src/controllers/dwolla.controller.js:197-204 | the same `{ rows }` destructuring, so every request past the 400 check answers 500 before any aggregator call | an authenticated user with a stored customer row, a public token and an account id | look up the user's customer row and create the funding source | medium, not executed | DwollaController.CreateFundingSourceAsWrittenSendsNothing | DwollaController.CreateFundingSource |
