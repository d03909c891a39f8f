# UniCredit demo banking: a verified model of the ledger routes and the client pages

This project models the core of a small Next.js internet-banking demo. The demo has two sides:

- **The server routes** that change the ledger: a customer's internal or external transfer, the administrator's transfer between any two accounts, amount adjustment, editing, cancelling a transaction record, changing an account's status, and registration with a first current account.
- **The client code around them**: the sign-in and session callbacks, the customer's transfer form, the administrator's transaction table, the movements page, the one-time-code page, the translation lookup, the customer area's frame (name, role, avatar, initials, admin tab) and the loan carousel on the landing page.

## How the model is built

**The ledger.** `LedgerModel` holds the persisted entities (`User`, `Account`, `Txn`) and one snapshot value `Bank` with the next identifiers the database hands out. It also holds the integrity facts every route keeps:
- e-mails are unique;
- IBANs are unique;
- no account is overdrawn;
- every record has a positive amount and refers to existing accounts.

Amounts are integer cents.

**The routes.** `LedgerOps` has one pure function per route: from the bank before the request to either `Rejected(error)` (nothing written) or `Done(value, after)`. The checks come in the route's order, with the route's error for each. The lemmas next to each route state:
- when it commits (both directions);
- what it writes and that nothing else changes;
- that money is conserved, or leaves the bank by exactly the paid amount;
- that the bank stays valid.

**The database as a mutable object.** `LedgerStore.Store` is a class whose fields are the tables. Its lookups are loops over the rows. Each route is a method whose `ensures` ties the result and the new state to the route's function, and keeps `Valid()`.

**The client pages.** Components that keep state (the transfer form, the admin table, the one-time-code form, the carousel, the session objects) are classes with a field per state variable. Each handler is a method whose new state is given by a specification function, and the lemmas are about that function. The server's reply, `window.confirm`, the bcrypt check and `Math.random()` are parameters.

## Model

| member | source | states |
|---|---|---|
| LedgerModel.FindUserByEmail | app/api/transactions/transfer/route.ts:20-22 | a found user is in the table with that e-mail; none is found only when no row has it |
| LedgerModel.FindUserByEmailUnique | app/api/auth/register/route.ts:37-39 | with unique e-mails, looking up a user's address finds that very user |
| LedgerModel.FindTxn | app/api/admin/transactions/update/route.ts:49-51 | a found position holds a record with the id; none is found only when no record has it |
| LedgerModel.OwnedAccount | app/api/transactions/transfer/route.ts:59-64 | the account is returned exactly when it exists and belongs to the given user |
| LedgerModel.TotalBalanceSplit | app/api/transactions/transfer/route.ts:136-170 | the bank's total is any one account's balance plus the total of the others |
| LedgerModel.TotalBalanceInsert | app/api/auth/register/route.ts:64-71 | opening an account adds its balance to the total |
| LedgerModel.TotalBalanceUpdate | app/api/transactions/transfer/route.ts:137-149 | replacing one account changes the total by exactly the change of its balance |
| LedgerOps.Transfer | app/api/transactions/transfer/route.ts:12-230 | the transfer route: a commit appends exactly one COMPLETED record with the next id and the body's positive amount, and leaves the users alone; its commit condition is TransferCommitsIff, its effects InternalTransferEffect and ExternalTransferEffect |
| LedgerOps.TransferBy | app/api/transactions/transfer/route.ts:51-221 | once the caller is known, a commit comes from an active source account of the caller's, named by the body, and the record names the caller; an amount that is not a finite number is refused with 400, the corrected check of the fourth finding (TransferAmountChecked) |
| LedgerOps.InternalTransfer | app/api/transactions/transfer/route.ts:100-173 | an internal commit credits a different, active destination of the same user named by the body, and records a TRANSFER_INTERNAL with both accounts |
| LedgerOps.ExternalTransfer | app/api/transactions/transfer/route.ts:178-217 | an external payment commits exactly when a beneficiary name and IBAN are given; it debits only the source and its record has no destination |
| LedgerOps.RawNumberOf | app/api/transactions/transfer/route.ts:80 | `Number(amount)` on a JSON value: a number is itself, a boolean is 0 or 1, null is 0, an object is NaN, and text is a number when all of it is a signed decimal; the other text forms are listed under Left out |
| LedgerOps.NaNAmountPassesAsWritten | app/api/transactions/transfer/route.ts:51-95 | as written, any non-empty text that is not a decimal number and cannot be an exponent, `Infinity` or prefixed form passes every amount check, whatever the balance, and reaches the writes as NaN |
| LedgerOps.AbcIsNaN | app/api/transactions/transfer/route.ts:80 | `Number("abc")` is NaN |
| LedgerOps.AbcPassesAsWritten | app/api/transactions/transfer/route.ts:51-95 | the amount "abc" passes every check as written and fails the check with a finiteness test |
| LedgerOps.AbcIsDecimalOrNaN | app/api/transactions/transfer/route.ts:80 | "abc" is text none of JavaScript's other number forms can match |
| LedgerOps.ObjectPassesAsWritten | app/api/transactions/transfer/route.ts:51-95 | an object amount is truthy and NaN, so it passes every check as written and fails the check with a finiteness test |
| LedgerOps.AmountIntendedIff | app/api/transactions/transfer/route.ts:51-95 | with a finiteness test, exactly the finite positive amounts the balance covers pass; on a JSON number it agrees with the checks as written |
| LedgerOps.TransferAmountChecked | app/api/transactions/transfer/route.ts:51-95 | the model's transfer commits only with an amount that is present, positive and covered by the source's balance, as the corrected check demands |
| LedgerOps.TransferHttpStatus | app/api/transactions/transfer/route.ts:16-229 | 401 only for a missing session, 404 only for an unknown user, source or destination, 500 only for an unreadable body, 400 otherwise |
| LedgerOps.TransferCommitsIff | app/api/transactions/transfer/route.ts:31-217 | a signed-in user's transfer commits if and only if the body can be read and it is an allowed internal transfer between two distinct active accounts of theirs, or an external payment from an active account of theirs with a beneficiary name and IBAN, in both cases with a positive amount covered by the source |
| LedgerOps.TransferNeedsSession | app/api/transactions/transfer/route.ts:16-18 | without an e-mail in the session the request is refused as unauthenticated and nothing else is read |
| LedgerOps.TransferUnreadableBody | app/api/transactions/transfer/route.ts:31-49 | for a signed-in caller, a body that is not JSON or is `null` makes the destructuring throw, and the answer is 500 |
| LedgerOps.TransferNonPositiveUnreachable | app/api/transactions/transfer/route.ts:83-88 | the route's second "amount must be positive" check can never fire |
| LedgerOps.TransferFundsCheckedBeforeMode | app/api/transactions/transfer/route.ts:90-95 | an uncovered amount is refused before the mode, destination or beneficiary are looked at |
| LedgerOps.InternalTransferEffect | app/api/transactions/transfer/route.ts:136-172 | an internal transfer debits the source and credits a different destination by the amount, touches no other account or user, and appends one COMPLETED TRANSFER_INTERNAL record naming both accounts |
| LedgerOps.ExternalTransferEffect | app/api/transactions/transfer/route.ts:186-216 | an external payment debits only the source and appends one COMPLETED PAYMENT_EXTERNAL record with no destination; without a description it names the beneficiary and the cleaned IBAN |
| LedgerOps.ExternalDescriptionIban | app/api/transactions/transfer/route.ts:186 | the IBAN in the default description has no whitespace and no lower-case letter |
| LedgerOps.TotalBalanceDebit | app/api/transactions/transfer/route.ts:137-142 | a debit lowers the bank's total by the amount |
| LedgerOps.TotalBalanceCredit | app/api/transactions/transfer/route.ts:144-149 | a credit raises the bank's total by the amount |
| LedgerOps.TransferConservation | app/api/transactions/transfer/route.ts:136-214 | an internal transfer keeps the total; an external payment lowers it by exactly the amount |
| LedgerOps.AppendKeepsTxns | app/api/transactions/transfer/route.ts:151-163 | a new positive record with the next id that refers to existing accounts keeps the record invariants |
| LedgerOps.TransferPreservesValid | app/api/transactions/transfer/route.ts:90-95 | a committed transfer keeps the bank valid; in particular no account is left overdrawn |
| LedgerOps.ParseId | app/api/admin/transactions/adjust/route.ts:37-47 | a numeric id is taken as is; a missing id is not an id |
| LedgerOps.ParseIdAgrees | app/api/admin/transactions/delete/route.ts:36-39 | an id sent as text and the same id sent as a number reach the same record |
| LedgerOps.AdminHttpStatus | app/api/admin/transactions/admin-transfer/route.ts:24-142 | 401 only for a non-admin, 404 only for a missing account or record, 500 only for an internal failure |
| LedgerOps.AdminTransferCommitsIff | app/api/admin/transactions/admin-transfer/route.ts:24-92 | an admin transfer commits if and only if the caller is an admin, both ids parse, are different and exist, the amount is positive and the source covers it; neither owner nor status is consulted, and a non-admin is always refused |
| LedgerOps.AdminTransfer | app/api/admin/transactions/admin-transfer/route.ts:18-144 | the admin transfer route: a commit comes from an admin, appends one record with the next id that names the admin's session id, keeps the set of accounts and leaves the users alone; its commit condition is AdminTransferCommitsIff, its effect AdminTransferConservation |
| LedgerOps.AdminTransferConservation | app/api/admin/transactions/admin-transfer/route.ts:95-124 | the record names the body's two accounts, its amount and the marked description; the source loses and the destination gains that amount, so the pair and the bank keep their totals; every other account and every user is unchanged, and one COMPLETED TRANSFER_INTERNAL record is appended |
| LedgerOps.AdminTransferUncovered | app/api/admin/transactions/admin-transfer/route.ts:88-92 | a well-formed request whose source cannot cover the amount is refused with the generic 500, since the error is thrown inside the database transaction |
| LedgerOps.AdminTransferUnit | app/api/admin/transactions/admin-transfer/route.ts:88-131 | the database transaction fails, with the generic error, exactly when the source cannot cover the amount |
| LedgerOps.AdminTransferDescriptionMarked | app/api/admin/transactions/admin-transfer/route.ts:83-86 | the record's description always ends with the admin marker |
| LedgerOps.AdminTransferPreservesValid | app/api/admin/transactions/admin-transfer/route.ts:88-92 | a committed admin transfer keeps the bank valid; an uncovered amount is refused, so nothing is overdrawn |
| LedgerOps.FindTxnIff | app/api/admin/transactions/update/route.ts:49-58 | the lookup by id finds a record exactly when some record carries the id |
| LedgerOps.ReplaceRecordKeepsValid | app/api/admin/transactions/update/route.ts:75-78 | rewriting one record in place, with the same id and sides and a positive amount, keeps the bank valid |
| LedgerOps.AdjustedDescriptionIff | app/api/admin/transactions/adjust/route.ts:70-73 | the old description is kept as a prefix, and it changes exactly when the trimmed note is non-empty |
| LedgerOps.Adjust | app/api/admin/transactions/adjust/route.ts:16-94 | the adjust route: a commit comes from an admin, stores the body's positive amount, keeps the number of records, every account and every user; its commit condition is AdjustCommitsIff, its effect AdjustTouchesOnlyTarget |
| LedgerOps.AdjustCommitsIff | app/api/admin/transactions/adjust/route.ts:21-68 | an adjust commits if and only if an admin sends a readable body with a finite id, a positive finite amount and the id of an existing record; a non-admin gets Unauthorized, an unreadable body InvalidJson, a non-finite id InvalidTransactionId and then a bad amount InvalidAmount |
| LedgerOps.AdjustTouchesOnlyTarget | app/api/admin/transactions/adjust/route.ts:59-81 | an adjust rewrites only the amount and description of the record with that id; no balance moves |
| LedgerOps.AdjustPreservesValid | app/api/admin/transactions/adjust/route.ts:49-57 | a committed adjust keeps the bank valid (the new amount is positive) |
| LedgerOps.AdjustUnknownId | app/api/admin/transactions/adjust/route.ts:63-68 | a well-formed adjust of an id no record has is refused as not found |
| LedgerOps.ParseTxnStatus | app/api/admin/transactions/update/route.ts:64-66 | only a non-empty string names a status |
| LedgerOps.Update | app/api/admin/transactions/update/route.ts:17-91 | the update route: a commit comes from an admin, keeps the record's amount, the number of records, every account and every user; its commit condition is UpdateCommitsIff, its effect UpdateTouchesOnlyTarget |
| LedgerOps.UpdateCommitsIff | app/api/admin/transactions/update/route.ts:22-78 | an update commits if and only if an admin sends a readable body naming an existing record and at least one field, with a known status if one is given; a non-admin gets Unauthorized, an unreadable body InvalidJson, a non-finite id InvalidTransactionId, and an unknown status the generic 500 |
| LedgerOps.UpdateUnknownId | app/api/admin/transactions/update/route.ts:49-58 | a finite id no record carries gives TransactionNotFound, answered with 404 |
| LedgerOps.UpdateEmptyPatch | app/api/admin/transactions/update/route.ts:60-73 | an update is refused for having no field exactly when it has no string description and no truthy status |
| LedgerOps.UpdateTouchesOnlyTarget | app/api/admin/transactions/update/route.ts:60-78 | an update changes at most the description (stored trimmed) and the status of that one record; amounts, accounts and balances stay |
| LedgerOps.UpdatePreservesValid | app/api/admin/transactions/update/route.ts:75-78 | a committed update keeps the bank valid |
| LedgerOps.DeleteKeepsRecord | app/api/admin/transactions/delete/route.ts:59-65 | a delete keeps the record in place, marks it CANCELLED and appends the suffix; nothing else changes and no balance is reversed |
| LedgerOps.Delete | app/api/admin/transactions/delete/route.ts:15-78 | the delete route: a commit comes from an admin, marks an existing record CANCELLED, keeps the number of records, every account and every user; its commit condition is DeleteCommitsIff, its effect DeleteKeepsRecord |
| LedgerOps.DeleteCommitsIff | app/api/admin/transactions/delete/route.ts:20-57 | a delete commits if and only if an admin sends a readable body naming an existing record; a non-admin gets Unauthorized, an unreadable body InvalidJson and a non-finite id InvalidTransactionId |
| LedgerOps.DeleteUnknownId | app/api/admin/transactions/delete/route.ts:48-57 | a finite id no record carries gives TransactionNotFound, answered with 404 |
| LedgerOps.DeletePreservesValid | app/api/admin/transactions/delete/route.ts:59-65 | a committed delete keeps the bank valid |
| LedgerOps.DeleteNotIdempotent | app/api/admin/transactions/delete/route.ts:48-65 | deleting the same record twice succeeds twice and appends the suffix a second time |
| LedgerOps.ParseAccountStatus | app/api/admin/accounts/update/route.ts:18-21 | only a non-empty string names an account status |
| LedgerOps.SetAccountStatus | app/api/admin/accounts/update/route.ts:8-43 | the account status route: a commit comes from an admin, names an existing account and keeps its balance, the set of accounts, the records and the users; its commit condition is SetAccountStatusCommitsIff, its effect SetAccountStatusTouchesOnlyStatus |
| LedgerOps.SetAccountStatusCommitsIff | app/api/admin/accounts/update/route.ts:12-42 | a status change commits if and only if an admin names an existing account with a truthy id and a known status; a non-admin gets Unauthorized and an unreadable body the generic 500 |
| LedgerOps.SetAccountStatusUnknownAccount | app/api/admin/accounts/update/route.ts:30-42 | an account id that exists nowhere makes the store's update throw, answered with the generic 500 rather than 404 |
| LedgerOps.SetAccountStatusTouchesOnlyStatus | app/api/admin/accounts/update/route.ts:30-33 | only that account's status changes; its owner, balance and IBAN, the other accounts and the total stay |
| LedgerOps.SetAccountStatusAnyTransition | app/api/admin/accounts/update/route.ts:23-33 | there is no transition rule: an admin can move any existing account to any status, CLOSED back to ACTIVE included |
| LedgerOps.SetAccountStatusMissingFields | app/api/admin/accounts/update/route.ts:23-28 | a missing or zero account id, or a missing status, is refused |
| LedgerOps.SetAccountStatusPreservesValid | app/api/admin/accounts/update/route.ts:30-33 | a committed status change keeps the bank valid |
| LedgerOps.RegisterHttpStatus | app/api/auth/register/route.ts:28-82 | 500 exactly for the failure branch, 400 for every refusal |
| LedgerOps.Register | app/api/auth/register/route.ts:16-84 | the registration route: a commit appends exactly one user with role USER and the next id, leaves the records alone, and needs a date of birth, when given, that reads as a valid date; its commit condition is RegisterCommitsIff, its stored values RegisterCommit, its effect RegisterEffect |
| LedgerOps.RegisterInvalidDate | app/api/auth/register/route.ts:50-83 | a non-empty date of birth that is not a valid date never registers, and with the fields present and the address free it ends in the generic 500 |
| LedgerOps.RegisterCommitsIff | app/api/auth/register/route.ts:20-74 | a registration commits if and only if the body is readable, the name, e-mail and password are given, no user holds the normalised address, the drawn IBAN is unused and a given date of birth is valid; a missing field is refused with RegisterMissingFields and then an address any user holds with EmailTaken, both 400 |
| LedgerOps.RegisterCommit | app/api/auth/register/route.ts:28-74 | a registration commits only with name, e-mail and password, an address nobody has after normalising, an unused IBAN and a valid date of birth when one is given; it stores the trimmed name, the normalised e-mail, role USER, status ACTIVE and an empty-balance "Conto Genius" current account in EUR |
| LedgerOps.RegisterEffect | app/api/auth/register/route.ts:55-74 | a registration appends exactly one user and one fresh account of theirs; records and the bank's total are unchanged |
| LedgerOps.RegisterOptionalFields | app/api/auth/register/route.ts:50-63 | an empty or absent date of birth or picture is stored as null |
| LedgerOps.EnrolKeepsValid | app/api/auth/register/route.ts:55-74 | a fresh user with an unused e-mail, plus an account with an unused IBAN and no debt, keeps the bank valid |
| LedgerOps.RegisterPreservesValid | app/api/auth/register/route.ts:37-74 | a committed registration keeps the bank valid |
| LedgerOps.RegisterTwiceRejected | app/api/auth/register/route.ts:35-46 | once an address is registered, any spelling that normalises to it is refused |
| LedgerStore.Store.constructor | app/api/auth/register/route.ts:55-74 | an empty database, which is valid |
| LedgerStore.Store.FindUser | app/api/transactions/transfer/route.ts:20-22 | the scan over the user rows finds what the lookup function specifies |
| LedgerStore.Store.LocateTxn | app/api/admin/transactions/delete/route.ts:48-50 | the scan over the records finds what the lookup function specifies |
| LedgerStore.Store.IbanInUse | app/api/auth/register/route.ts:64-71 | the scan over the accounts reports whether the IBAN is taken |
| LedgerStore.Store.Transfer | app/api/transactions/transfer/route.ts:12-230 | the result is the transfer route's, including the 500 for an unreadable body; the tables change to its new state only when it commits, and stay valid |
| LedgerStore.Store.TransferBy | app/api/transactions/transfer/route.ts:51-222 | the checks after the caller is known, as the route function specifies |
| LedgerStore.Store.TransferInternal | app/api/transactions/transfer/route.ts:100-173 | the destination checks and the two balance updates and record, as specified |
| LedgerStore.Store.TransferExternal | app/api/transactions/transfer/route.ts:178-217 | the beneficiary check, the debit and the record, as specified |
| LedgerStore.Store.DebitAccount | app/api/transactions/transfer/route.ts:137-142 | only that account's balance is lowered |
| LedgerStore.Store.CreditAccount | app/api/transactions/transfer/route.ts:144-149 | only that account's balance is raised |
| LedgerStore.Store.AppendTxn | app/api/transactions/transfer/route.ts:151-163 | the record is appended with the next id |
| LedgerStore.Store.AdminTransfer | app/api/admin/transactions/admin-transfer/route.ts:18-144 | the admin transfer route's result and new state; the tables stay valid |
| LedgerStore.Store.Adjust | app/api/admin/transactions/adjust/route.ts:16-94 | the adjust route's result and new state; the tables stay valid |
| LedgerStore.Store.Update | app/api/admin/transactions/update/route.ts:17-91 | the update route's result and new state; the tables stay valid |
| LedgerStore.Store.Delete | app/api/admin/transactions/delete/route.ts:15-78 | the delete route's result and new state; the tables stay valid |
| LedgerStore.Store.SetAccountStatus | app/api/admin/accounts/update/route.ts:8-43 | the account status route's result and new state; the tables stay valid |
| LedgerStore.Store.Register | app/api/auth/register/route.ts:16-84 | the registration route's result and new state; the tables stay valid |
| LedgerStore.Store.Insert | app/api/auth/register/route.ts:55-74 | the user row and its nested account row are created together |
| LedgerStore.FindTxnFirst | app/api/admin/transactions/update/route.ts:49-51 | the lookup by id finds the first record carrying it |
| Registration.AccountNumber | app/api/auth/register/route.ts:10-12 | the drawn account number has eight digits, between 10000000 and 99999998 |
| Registration.GenerateIbanShape | app/api/auth/register/route.ts:6-14 | every generated IBAN has 27 characters: the fixed prefix, three zeros of padding, then the drawn number's digits |
| TableWiring.TxnStatusName | app/admin/transactions/AdminTransactionsTable.tsx:146-155 | a status's JSON name reads back as that status |
| TableWiring.DeleteAsSentRefused | app/admin/transactions/AdminTransactionsTable.tsx:195 | the delete body the table sends is refused with 400 by the delete route, whatever the record |
| TableWiring.DeleteIntendedCancels | app/api/admin/transactions/delete/route.ts:34-65 | with the field the route reads, deleting an existing record cancels exactly that record |
| TableWiring.EditAsSentRefused | app/admin/transactions/AdminTransactionsTable.tsx:146-155 | the edit body the table sends is refused by the update route, whatever the record |
| TableWiring.EditIntendedApplies | app/api/admin/transactions/update/route.ts:36-78 | with the field the route reads, an edit stores the trimmed description and the status, and applies nothing else typed in the dialog |
| TableWiring.TransferTone | app/admin/transactions/AdminTransactionsTable.tsx:535-539 | a committed external payment shows in red, as money leaving the bank, and a committed internal transfer in cyan, as money moving between two accounts |
| TableWiring.EditReplyAsWritten | app/admin/transactions/AdminTransactionsTable.tsx:157-181 | mapping the update route's `{ transaction }` answer as if it were the record gives null accounts, a NaN amount and undefined type, status, description and date, whatever the record |
| TableWiring.EditReplyUnwrapped | app/admin/transactions/AdminTransactionsTable.tsx:157-181 | mapping the record under `transaction` gives exactly the row AdminTable.MapUpdatedTx builds from it |
| Auth.AuthorizeIff | lib/auth.ts:20-52 | sign-in succeeds if and only if an e-mail and a password are given, the password checks against the stored hash and the user is ACTIVE; the token starts with the user's id, their role and the second factor not passed |
| Auth.AuthorizeUnknownEmail | lib/auth.ts:25-29 | nobody signs in under an address no user has |
| Auth.JwtUpdateOnlyTouchesFlags | lib/auth.ts:68-77 | a session update changes only the second-factor flag and the picture, and each only when the update carries it |
| Auth.JwtFirstSignIn | lib/auth.ts:58-66 | on first sign-in the token takes the user's fields, with role USER and second factor not passed as fallbacks |
| Auth.Token.constructor | lib/auth.ts:56 | a token holding the given claims |
| Auth.Token.Jwt | lib/auth.ts:56-80 | the jwt callback changes the token as its specification function says |
| Auth.SessionMirrorsToken | lib/auth.ts:82-94 | the session shows the token's fields, with role USER, second factor false and the session's own e-mail and name as fallbacks |
| Auth.SessionUserObject.constructor | lib/auth.ts:82 | a session user object with the given view |
| Auth.Session | lib/auth.ts:82-94 | the session callback rewrites the user object as its specification function says, and leaves a session without a user alone |
| Auth.SignInThenOtp | lib/auth.ts:42-77 | after sign-in the session's second factor is off; the code page's update turns it on and changes nothing else the session shows |
| TransferFormModel.ValidateIff | app/app/transfer/TransferForm.tsx:47-78 | the form sends a request exactly when a source is chosen, the amount reads as a positive number and the chosen mode's own fields are filled |
| TransferFormModel.ValidateOrder | app/app/transfer/TransferForm.tsx:47-56 | a missing source or amount is reported before a bad amount |
| TransferFormModel.PayloadShape | app/app/transfer/TransferForm.tsx:58-78 | the body names the mode, source and positive amount; an internal body has a destination and no beneficiary, an external one the reverse; an empty description is left out |
| TransferFormModel.SubmitInvalid | app/app/transfer/TransferForm.tsx:42-78 | a failed check shows its message, sends nothing and keeps everything typed |
| TransferFormModel.SubmitAcceptedResets | app/app/transfer/TransferForm.tsx:94-102 | after success the amount, the description and the mode's own fields are cleared; source, mode and the other mode's fields stay |
| TransferFormModel.SubmitFailureKeepsInput | app/app/transfer/TransferForm.tsx:88-108 | a refused or failed request keeps every field typed and shows a non-empty error |
| TransferFormModel.TransferForm.constructor | app/app/transfer/TransferForm.tsx:26-35 | internal mode, nothing chosen or typed, no message |
| TransferFormModel.TransferForm.Submit | app/app/transfer/TransferForm.tsx:42-109 | the submit handler's new state and body are those of its specification function |
| TransferFormModel.TransferForm.Finish | app/app/transfer/TransferForm.tsx:80-108 | the handler after its checks: the state and the body sent for the given outcome |
| TransferFormModel.DestinationChoices | app/app/transfer/TransferForm.tsx:183-184 | the destinations offered are exactly the accounts whose id differs from the chosen source |
| TransferFormModel.DestinationChoicesAppend | app/app/transfer/TransferForm.tsx:183-184 | the filter keeps the accounts' order: filtering a joined list is filtering each part |
| TransferFormModel.SourceNotADestination | app/app/transfer/TransferForm.tsx:183-184 | the chosen source is never offered as its own destination |
| AdminTable.MaskIban | app/admin/transactions/AdminTransactionsTable.tsx:592-597 | the masked IBAN is at most the cleaned IBAN plus the mask |
| AdminTable.MaskIbanShape | app/admin/transactions/AdminTransactionsTable.tsx:592-597 | an empty IBAN gives ""; a cleaned IBAN of at most 8 characters is shown whole; a longer one shows only its first and last four characters around the fixed mask |
| AdminTable.ParsedAmount | app/admin/transactions/AdminTransactionsTable.tsx:135-141 | an amount is accepted only when the normalised text parses to a number above zero |
| AdminTable.ReplaceFirstAt | app/admin/transactions/AdminTransactionsTable.tsx:136 | replacing a character replaces its first occurrence only |
| AdminTable.EditAmountRoundTrip | app/admin/transactions/AdminTransactionsTable.tsx:94 | an amount text with at most one "." reads back as itself after the dialog has shown it with a decimal comma |
| AdminTable.SwappedDot | app/admin/transactions/AdminTransactionsTable.tsx:94 | turning the only "." into "," leaves no "." |
| AdminTable.DecimalComma | app/admin/transactions/AdminTransactionsTable.tsx:135-137 | "a,b" with digits on both sides reads as "a.b" |
| AdminTable.DotIsThousandsSeparator | app/admin/transactions/AdminTransactionsTable.tsx:135-137 | "a.b" with digits on both sides reads as the digits of a followed by those of b, so "12.50" is 1250 |
| AdminTable.AdminTransferCheckIff | app/admin/transactions/AdminTransactionsTable.tsx:255-269 | an admin transfer leaves the browser exactly when two different accounts are chosen and the amount is positive; the first failing check names the message |
| AdminTable.AdjustCheckIff | app/admin/transactions/AdminTransactionsTable.tsx:207-217 | a credit or debit leaves the browser exactly when an account is chosen and the amount is positive |
| AdminTable.ReplaceRow | app/admin/transactions/AdminTransactionsTable.tsx:157-161 | the row list keeps its length after an edit |
| AdminTable.ReplaceRowEffect | app/admin/transactions/AdminTransactionsTable.tsx:157-181 | an edit changes only the rows with the edited id, in place; they take the server's data and keep their id and displayed accounts |
| AdminTable.RemoveRow | app/admin/transactions/AdminTransactionsTable.tsx:196 | after a delete, exactly the rows with other ids remain |
| AdminTable.RemoveRowAppend | app/admin/transactions/AdminTransactionsTable.tsx:196 | removing from a joined list is removing from each part, so the survivors keep their order |
| AdminTable.RemoveRowAbsent | app/admin/transactions/AdminTransactionsTable.tsx:196 | deleting an id no row has changes nothing |
| AdminTable.NewRow | app/admin/transactions/AdminTransactionsTable.tsx:229-243 | a row added after a credit, debit or admin transfer shows no accounts |
| AdminTable.FailureMessage | app/admin/transactions/AdminTransactionsTable.tsx:118-129 | a failed request shows the server's error, else "Errore di rete", and a thrown message or the handler's fallback; never empty when the fallback is not |
| AdminTable.Table.constructor | app/admin/transactions/AdminTransactionsTable.tsx:58-87 | the server's rows, empty tools, no dialog |
| AdminTable.Table.OpenEdit | app/admin/transactions/AdminTransactionsTable.tsx:89-100 | the dialog opens on the row with its amount shown with a decimal comma and its date cut to minutes; nothing else changes |
| AdminTable.Table.CloseEdit | app/admin/transactions/AdminTransactionsTable.tsx:102-106 | the dialog closes; nothing else changes |
| AdminTable.Table.SaveEdit | app/admin/transactions/AdminTransactionsTable.tsx:132-168 | without a dialog nothing happens; a bad amount shows its error and sends nothing; otherwise the body is sent, and success replaces the row with the returned record and closes the dialog while failure shows the error and keeps the dialog; the reply is taken as the record itself, the corrected reading of the third finding |
| AdminTable.Table.FinishEdit | app/admin/transactions/AdminTransactionsTable.tsx:138-167 | the same, once the amount has been read, with the same reading of the reply |
| AdminTable.Table.Delete | app/admin/transactions/AdminTransactionsTable.tsx:184-203 | a declined confirmation changes nothing; otherwise the id is sent, success removes the row, failure shows the error, and the busy marker is cleared either way |
| AdminTable.Table.Adjust | app/admin/transactions/AdminTransactionsTable.tsx:206-251 | a failed check shows its message and sends nothing; success puts the new row on top and clears amount and description; failure shows the error and keeps the input |
| AdminTable.Table.FinishAdjust | app/admin/transactions/AdminTransactionsTable.tsx:219-250 | the same, once the checks have given their outcome |
| AdminTable.Table.AdminTransfer | app/admin/transactions/AdminTransactionsTable.tsx:254-302 | a failed check shows its message and sends nothing; success puts the new row on top and clears amount and description; failure shows the error and keeps the input |
| AdminTable.Table.FinishAdminTransfer | app/admin/transactions/AdminTransactionsTable.tsx:271-301 | the same, once the checks have given their outcome |
| Movements.Side | app/app/movements/page.tsx:25-28 | a side's account is loaded exactly when the side names an existing account |
| Movements.Listed | app/app/movements/page.tsx:17-29 | the list is no longer than the records |
| Movements.ListedMembers | app/app/movements/page.tsx:17-23 | the list holds exactly the records whose source or destination belongs to the viewer |
| Movements.ListedNewestFirst | app/app/movements/page.tsx:24 | every record created after another is listed before it |
| Movements.OutgoingIff | app/app/movements/page.tsx:67-111 | a row is outgoing exactly when its source belongs to the viewer; its sign is "-" then and "+" otherwise |
| Movements.ShownSide | app/app/movements/page.tsx:68-102 | the row shows the source when outgoing and the destination otherwise, with its name and masked IBAN, and "-" when that side is absent |
| Movements.RouteLine | app/app/movements/page.tsx:92-98 | the "Da X a Y" line appears exactly when both accounts are known, and reads the same whoever looks |
| Movements.ListedRowShowsOwnAccount | app/app/movements/page.tsx:67-70 | every listed row shows one of the viewer's own accounts, never the placeholder |
| Movements.PageContents | app/app/movements/page.tsx:9-29 | the page renders only for a known signed-in user; its rows are the viewer's records, one per record, each showing an account |
| Otp.AcceptedCodes | app/otp/page.tsx:53-55 | a code is accepted exactly when, trimmed, it is one of the five fixed six-digit codes |
| Otp.ValidCodesShape | app/otp/page.tsx:10 | every fixed code has six digits |
| Otp.KeepDigits | app/otp/page.tsx:123 | only the digits of the input are kept, in order |
| Otp.CodeInput | app/otp/page.tsx:121-123 | the field holds at most six digits |
| Otp.KeepDigitsOfDigits | app/otp/page.tsx:123 | filtering text made only of digits changes nothing |
| Otp.CodeInputProperties | app/otp/page.tsx:121-123 | typing the field's own value again changes nothing, and every accepted code can be typed in full |
| Otp.SubmitProperties | app/otp/page.tsx:42-76 | an empty code or a busy page does nothing; the update is requested exactly for an accepted code and sets only the second-factor flag; a refused code shows the error and frees the page |
| Otp.SubmitOnceAccepted | app/otp/page.tsx:42-75 | after an accepted code the page stays busy and cannot submit again; after a failed update it can |
| Otp.VerifiedUpdateEffect | app/otp/page.tsx:62-64 | the requested update turns the token's flag on and changes nothing else in it |
| Otp.OtpForm.constructor | app/otp/page.tsx:16-19 | empty code, not busy, no message |
| Otp.OtpForm.Type | app/otp/page.tsx:123 | typing stores the filtered input and changes nothing else |
| Otp.OtpForm.Submit | app/otp/page.tsx:42-76 | the submit handler's new state and request are those of its specification function |
| Otp.OtpForm.Finish | app/otp/page.tsx:53-75 | the handler after trimming, as specified |
| Otp.MaskAt | app/otp/page.tsx:78-82 | the "@" kept by the mask is the last one with at least three characters before it and one after it |
| Otp.MaskEmailShape | app/otp/page.tsx:78-82 | with such an "@", the address shows its first two characters, "***" and everything from that "@"; without one it is shown unchanged |
| Otp.ShownEmail | app/otp/page.tsx:78-82 | the masked address, or the fallback text when the session has none |
| I18n.ChildFound | lib/i18n.ts:109 | a child is found exactly when some entry carries the name |
| I18n.Texts | lib/i18n.ts:4-75 | each section has one text per key |
| I18n.WalkFromNothing | lib/i18n.ts:109-110 | once nothing is found the walk stays at nothing |
| I18n.GetNestedTranslation | lib/i18n.ts:101-114 | the loop over the path's segments gives the translation function's answer |
| I18n.Resolve | lib/i18n.ts:105-113 | the same loop below any root |
| I18n.TwoSegments | lib/i18n.ts:105-113 | a two-segment path reaches the text stored under them |
| I18n.WalkAppend | lib/i18n.ts:108-111 | walking a path in two pieces is walking it whole |
| I18n.MissingSegment | lib/i18n.ts:110-113 | once a segment is missing, the path itself is the answer |
| I18n.SectionName | lib/i18n.ts:113 | a path naming a section gives the path back, not an object |
| I18n.ChildAt | lib/i18n.ts:109 | the child at a position is found when no earlier child has its name |
| I18n.KeysWellFormed | lib/i18n.ts:77-99 | in every section the keys are distinct and contain no dot |
| I18n.HeaderKeysWellFormed | lib/i18n.ts:78-86 | the header keys are distinct and contain no dot |
| I18n.UserNavKeysWellFormed | lib/i18n.ts:87-93 | the user navigation keys are distinct and contain no dot |
| I18n.AdminKeysWellFormed | lib/i18n.ts:94-99 | the admin keys are distinct and contain no dot |
| I18n.RootSections | lib/i18n.ts:4-75 | each language's table holds each declared section under its name |
| I18n.SectionKeyNoDot | lib/i18n.ts:77-99 | no section name contains a dot |
| I18n.TreeSections | lib/i18n.ts:4-75 | the table's sections are found by name |
| I18n.SectionPath | lib/i18n.ts:105-113 | an entry of a top-level section is found by its section and key |
| I18n.DeclaredPaths | lib/i18n.ts:77-114 | every declared key path, in either language, gives the text stored under it, never the path itself |
| I18n.PairsPath | lib/i18n.ts:105-113 | a key of a well-formed section gives its text |
| I18n.SectionPathGivesName | lib/i18n.ts:113 | a path naming a whole section gives the path back |
| I18n.TreeMissing | lib/i18n.ts:4-75 | a name that is none of the four sections finds nothing at the top |
| I18n.UnknownSection | lib/i18n.ts:105-113 | a path whose first segment names no section gives the path back |
| I18n.TreeUnknown | lib/i18n.ts:105-113 | the same below the table built from any sections |
| Layout.FirstSpace | app/app/layout.tsx:206 | the first whitespace position, found exactly when there is one |
| Layout.Words | app/app/layout.tsx:206 | splitting on whitespace runs gives at least one piece |
| Layout.WordsSingle | app/app/layout.tsx:206-207 | there is a single piece exactly when there is no whitespace, and it is the whole text |
| Layout.WordsNoSpaces | app/app/layout.tsx:206 | no piece contains whitespace |
| Layout.WordsFirst | app/app/layout.tsx:206-208 | text starting with a non-space has a first piece starting with it |
| Layout.WordsNoEmptyTail | app/app/layout.tsx:206-208 | text ending with a non-space has no empty piece after the first |
| Layout.WordsAfterRun | app/app/layout.tsx:206 | a leading whitespace run gives an empty first piece and a second starting after the run |
| Layout.WordsSecond | app/app/layout.tsx:206-208 | the second piece starts at the first non-space after the first run |
| Layout.SkipRun | app/app/layout.tsx:206 | the end of a whitespace run |
| Layout.GetInitials | app/app/layout.tsx:204-209 | the initials have at most two characters |
| Layout.FirstLetters | app/app/layout.tsx:208 | the first letters of the first two pieces, two characters |
| Layout.InitialsOneWord | app/app/layout.tsx:204-207 | no name gives "UC", a whitespace-only name gives "", and one word gives its first two characters in upper case |
| Layout.InitialsTwoWords | app/app/layout.tsx:206-208 | a name with whitespace inside gives the upper-case first letters of its first two words |
| Layout.FirstLettersAt | app/app/layout.tsx:208 | the two letters are the first character and the first non-space after the first run |
| Layout.WordInitials | app/app/layout.tsx:206-208 | where the first two pieces of a trimmed name start |
| Layout.RunStopsBeforeEnd | app/app/layout.tsx:206 | a whitespace run ends before a final non-space |
| Layout.UpperPair | app/app/layout.tsx:208 | two characters are upper-cased one by one |
| Layout.UserName | app/app/layout.tsx:16-19 | the session's name, else its full name, else "Cliente UniCredit"; never empty |
| Layout.Role | app/app/layout.tsx:20 | a missing role reads as USER |
| Layout.ProfileImage | app/app/layout.tsx:22-24 | the picture's address is never empty |
| Layout.AvatarIsPicture | app/app/layout.tsx:69-81 | the avatar is always a picture (the default fills in), so the initials are never shown; its text is the user's name |
| Layout.AdminTab | app/app/layout.tsx:48-138 | both tab rows hold the five customer tabs, plus the accented admin tab last exactly for an admin; the subtitle names the administrator exactly for an admin |
| Layout.DesktopRow | app/app/layout.tsx:48-57 | the desktop row has the admin tab exactly for an admin |
| Layout.MobileRow | app/app/layout.tsx:128-138 | the mobile row has the admin tab exactly for an admin |
| Layout.CustomerTabs | app/app/layout.tsx:48-57 | five customer tabs plus, for an admin only, an accented "/admin" tab make a row as required |
| Layout.AppLayout | app/app/layout.tsx:10-14 | without a session the area redirects to the login page, and only then |
| Carousel.JsRem | components/LoanCarouselSection.tsx:15-17 | the `%` of the page: Dafny's remainder for a non-negative dividend, always strictly between -n and n |
| Carousel.StepsStayInRange | components/LoanCarouselSection.tsx:15-17 | both buttons keep the index on a slide; next wraps from the last to the first, previous from the first to the last |
| Carousel.PrevUndoesNext | components/LoanCarouselSection.tsx:15-17 | each button undoes the other |
| Carousel.FourNextsCycle | components/LoanCarouselSection.tsx:15 | four presses of next return to the same slide, and no fewer do |
| Carousel.Carousel.constructor | components/LoanCarouselSection.tsx:13 | the first slide is shown |
| Carousel.Carousel.Next | components/LoanCarouselSection.tsx:15 | the index steps forward and stays on a slide |
| Carousel.Carousel.Prev | components/LoanCarouselSection.tsx:16-17 | the index steps back and stays on a slide |
| Carousel.OrderValue | components/LoanCarouselSection.tsx:51 | a slide's place counts forward from the index, wrapping past the last slide |
| Carousel.OrderInRange | components/LoanCarouselSection.tsx:51 | every slide gets a place in the stack, and only the current slide is in front |
| Carousel.OrderOnto | components/LoanCarouselSection.tsx:51 | every place is taken by some slide |
| Carousel.OrderInjective | components/LoanCarouselSection.tsx:51 | no two slides share a place |
| Carousel.BehindPlace | components/LoanCarouselSection.tsx:51 | the slide o places behind the index has place o |
| Carousel.OrderDistinct | components/LoanCarouselSection.tsx:51 | two different slides have different places |
| Carousel.StyleByOrder | components/LoanCarouselSection.tsx:57-112 | the front slide alone is on top, opaque and unveiled; the others step back at three-quarters opacity under the veil |
| Carousel.ActiveSlide | components/LoanCarouselSection.tsx:50-115 | exactly the slide at the index is on top and unveiled, and the four stacking levels differ |
| Carousel.SlideStyle | components/LoanCarouselSection.tsx:50-112 | a slide's level and veil follow from its place |
| Carousel.CounterText | components/LoanCarouselSection.tsx:128-130 | the counter reads "1/4" to "4/4" |
| Common.OrElse | app/app/transfer/TransferForm.tsx:90 | JavaScript's `or` on an optional string: the string when non-empty, else the fallback |
| Common.Prefix | app/admin/transactions/AdminTransactionsTable.tsx:98 | `slice(0, n)`: the first n characters, or the whole text when it is shorter |
| Common.Trim | app/api/auth/register/route.ts:35 | String.prototype.trim: no whitespace at either end, empty exactly for whitespace-only text, untouched text without whitespace |
| Common.StripSpaces | app/api/transactions/transfer/route.ts:186 | every whitespace character removed, the rest kept |
| Common.ToUpper | app/api/transactions/transfer/route.ts:186 | each character upper-cased in place |
| Common.ToLower | app/api/auth/register/route.ts:35 | each character lower-cased in place |
| Common.IndexOf | app/admin/transactions/AdminTransactionsTable.tsx:136 | the first occurrence, found exactly when there is one |
| Common.IndexOfAt | app/admin/transactions/AdminTransactionsTable.tsx:136 | the first occurrence is found where it is |
| Common.ReplaceFirst | app/admin/transactions/AdminTransactionsTable.tsx:136 | replacing a character that is absent changes nothing |
| Common.Split | lib/i18n.ts:105 | splitting on a character gives at least one piece, none containing it |
| Common.JoinSplit | lib/i18n.ts:105 | joining the pieces back gives the path |
| Common.SplitJoin | lib/i18n.ts:105 | splitting pieces that were joined gives them back |
| Common.NatToStringValue | components/LoanCarouselSection.tsx:129 | the decimal text of a number reads back as the number |
| Common.PadStart | app/api/auth/register/route.ts:10-12 | padStart: the text at the end, the padding character before it, length at least n |
| Common.ParseIntOfInt | app/api/admin/transactions/admin-transfer/route.ts:40-45 | parseInt reads back every integer's decimal text |
| Common.DigitStringParses | app/app/transfer/TransferForm.tsx:52 | a plain digit string reads as its value under both parseFloat and Number |

## Findings

| source | as written | input that shows it | evidently intended | confidence | as-written member | corrected member |
|---|---|---|---|---|---|---|
| app/admin/transactions/AdminTransactionsTable.tsx:195 | the table posts `{ id: tx.id }` to the delete route, which reads `transactionId` | any record, e.g. a delete of record 7: the route finds no id and answers 400 "transactionId non valido" | the body carries the record's id under the name the route reads | high, not executed | TableWiring.DeleteAsSentRefused | TableWiring.DeleteIntendedCancels |
| app/admin/transactions/AdminTransactionsTable.tsx:146-155 | the edit dialog posts the record's id as `id` to the update route, which reads `transactionId` | any edit, e.g. of record 7 with a new description: the route answers 400 "transactionId non valido" | the body carries the record's id under the name the route reads | high, not executed | TableWiring.EditAsSentRefused | TableWiring.EditIntendedApplies |
| app/admin/transactions/AdminTransactionsTable.tsx:157-181 | after a successful edit the table gives mapUpdatedTx the whole answer of the update route, which is `{ transaction: record }` | any edit that succeeds once the body carries `transactionId`: the row gets null accounts, a NaN amount and an undefined type, status, description and date | read the record under `transaction`, as the adjust handler does | high, not executed | TableWiring.EditReplyAsWritten | TableWiring.EditReplyUnwrapped |
| app/api/transactions/transfer/route.ts:51-95 | the amount checks are `!amount`, `amount <= 0`, then `numericAmount <= 0` and `currentBalance < numericAmount`; none asks for a finite number, and every comparison with NaN is false | a transfer with amount "abc": it passes every check and reaches the writes with `Number("abc")`, which is NaN | refuse an amount that is not a finite number, as the admin transfer route does with `Number.isFinite` | high, not executed | LedgerOps.AbcPassesAsWritten | LedgerOps.AmountIntendedIff |

## Left out

- The routes and the code are followed where they differ from the intended design. The adjust route rewrites an existing record's amount and leaves every balance as it was. The update route changes only the description and the status. The delete route marks the record CANCELLED and reverses no balance, although the table's confirmation says balances will be recalculated.
- The credit/debit request the table sends (`accountId`, `amount`, `direction`) matches none of the fields of the adjust route it is posted to. The table model takes the reply as a parameter and does not connect the two.
- Database transactions, concurrency and isolation are not modelled. Each route is one atomic step from one state to the next.
- `fetch`, `window.confirm`, the bcrypt hash and check, `Math.random()`, the session update, the page navigation and the validity test of `new Date(dateOfBirth)` become parameters. The timers of the code page (the 600 ms delay and the 700 ms redirect) and the redirect itself are left out.
- Money on the server is integer cents, and an amount that does not parse is `None`. Only the fourth finding's members model the raw JSON amount. The Prisma decimal type, JavaScript floating-point arithmetic and `toString` of a number are not modelled.
- On the client, amounts are exact reals read by a decimal scanner. Exponents, hexadecimal, `Infinity` and the rounding of binary floating point are left out.
- `toLocaleString` and `toLocaleDateString` (the amount and date columns) are not modelled.
- Creation times are not modelled: records are kept in creation order, and "newest first" means reverse creation order.
- Whitespace is JavaScript's whitespace and line-terminator set, as `trim` and `\s` use it.
- Common.ToUpper: maps ASCII letters only, while `toUpperCase` also maps non-ASCII letters.
- Common.ToLower: maps ASCII letters only, while `toLowerCase` also maps non-ASCII letters.
- Otp.MaskEmailShape: the masking pattern's `.` does not match line terminators. The model assumes the address has none, and does not model the mask for an address containing a line break.
- I18n.Texts: the two translation tables are stored as the declared key lists plus one Italian/English text per key. JavaScript string indexing and inherited object properties, which the lookup would also reach, are left out.
- The edit dialog's field-by-field `onChange` handler and the form's `onChange` setters are left out. Only the values they produce enter the model.
- The carousel's pictures, texts and marketing copy, and the layout's links, logo and logout button, are not modelled.
- LedgerOps.RawNumberOf: reads text with the decimal scanner only. JavaScript's `Number` also reads exponents ("1e9"), hexadecimal, octal and binary prefixes ("0x10") and "Infinity"/"-Infinity"; the model calls these NaN, so LedgerOps.NaNAmountPassesAsWritten requires text none of these forms can match. Array amounts (`[]` is 0, `[5]` is 5) are not modelled.
- LedgerOps.TransferBy: follows the corrected amount check. An amount that is not a finite number (text such as "abc" or "10,5") is `None` in the request and is refused with 400. The route as written lets such an amount through to the writes with a NaN value (see Findings), and what the database then does with NaN is not modelled.
- LedgerOps.AdminTransfer: the record's `userId` is modelled as the session's id taken as an integer. In the source the session's id is the user's id turned into text at sign-in (lib/auth.ts:43), copied unchanged into the token (lib/auth.ts:59) and the session (lib/auth.ts:84). The `as number` at app/api/admin/transactions/admin-transfer/route.ts:22 is a compile-time cast only, so the route hands the database a text id. How the database layer treats that text is outside this model.
- A JSON `null` body makes the admin routes' destructuring throw, and they answer with the generic 500. The model's missing body stands only for a body that is not JSON (400), and the `null` case is left out.
- The default status of an account created at registration is ACTIVE. The database schema that sets it is not part of this model.
