# banka ledger core in Dafny

This project models the account ledger behind the banka backend.

- **Store and log.** The store holds accounts keyed by id. The transaction log is append-only.
- **Routes.** The model covers the routes that open, re-status, delete, list and fetch accounts, plus the routes that credit, debit and read the log.
- **Allocation.** Account numbers come from the pre-save hook of the Account record.
- **Guards.** Two request guards check the bearer token and the caller's role.
- **Records.** The User record comes with its password validator and its hash-on-save hook. The Transaction record is modelled too.
- **Schemas.** The sign-up and account-opening Yup schemas of the frontend are modelled, so what they accept can be compared with what the backend accepts.

Requests are taken one at a time. Each route runs its guards, its validators and its handler to the end.

Modules:

- `Common`: option and reply wrappers and the HTTP status codes.
  - A reply is `Ok`, or `Fail(code, message)` for a response the handler writes itself.
  - It may also be `Unhandled`, for something that throws inside an async handler with no catch: a storage call, or reading a field of a null `req.user`. In that case nothing is stored and the handler writes no response.
- `Patterns`: the parts of JavaScript regular expressions that the password rules use. Each part is a scanning matcher, proved equal to the plain meaning of the pattern.
- `UserModel`: the User record, the role enum, the password validator, and a `UserDocument` class. The class tracks whether the password was modified, and its `Save` runs validation, the hash hook and the unique e-mail index.
- `AccountModel`: the Account record, enums and defaults, and the number-allocation rule with its uniqueness, monotonicity and reuse lemmas.
- `TransactionModel`: the Transaction record. It also proves how the records of one account chain balances together, and defines the log filter by account number.
- `Auth`: `authenticateUser` and `authorizeRole`, and the two ways they read the token from the header.
- `Ledger`: the `Bank` class, holding the accounts map, the log and the id counter.
  - Every route is a method or a function of this class, proved against the store invariant `Consistent`.
  - `Consistent` says ids are counted, account numbers are unique, and every balance is its opening balance carried through records that are all in the log.
  - Every logged record is sound and has no cashier.
  - Scenario methods at the end replay short request sequences.
- `FormSchemas`: the two Yup schemas, and how they relate to the backend validators.

Money is in integer cents. The smallest amount, `isFloat({ min: 0.01 })`, is 1 cent; the account schema's minimum deposit of 100 is 10000 cents. Tokens that verify are a map from token text to user id, and hashing is a function parameter. The current time is a parameter `now`.

Behaviours of the code that the model keeps as written:

- **Cashier.** The cashier of every record is absent. It is read from `req.userId`, which no guard sets.
- **No admin role.** `save()` admits only the roles `client` and `staff`, and the model keeps only users with those roles. Over those two roles the `role !== 'admin'` conditions never decide anything, and the 403 branch of the list query cannot be reached (`BuildQuery`).
- **Body overrides.** Because the body is spread last on create, it can set the owner, the status (even `active`) and the account number.
- **Owner parameter.** A client who passes an `owner` query parameter lists that owner's accounts. A malformed owner answers 500.
- **Number reuse.** A number that is 0 counts as missing and is allocated again. Records follow numbers, and numbers are reused: when the highest-numbered account is deleted and the number just below it is still in use, or the store empties and that account held 100000000, the next allocation gives the deleted account's number again. With numbers 100000000 and 100000005 in use, deleting 100000005 makes the next number 100000001 instead. So a new account can inherit the history of a deleted one (`ReusedNumberInheritsHistory`), and a transaction of a deleted account is unreachable until its number is reused.
- **Token reading.** `authenticateUser` removes the first `Bearer `, while `authorizeRole` takes the second space-separated field. The two agree on a well-formed header and disagree on one with a second space.
- **Role checks.** `isAdmin` alone opens the admin routes, and the staff role alone opens the staff routes.
- **Password specials.** The sign-up schema and the backend password validator use different special characters. The schema allows `?` and the backend does not count it; the backend counts `^` and the schema refuses it.

Where the code's intent and its behaviour part, the model follows the behaviour:

- **Cashier.** The `cashier` field refers to a user and is meant for the acting staff member (Transaction.js:9). The code never fills it.
- **Roles.** The routes test for a role `admin` (accounts.js:98, transactions.js:106). The `role` enum holds only `client` and `staff`.
- **Balances.** Balances are JavaScript numbers in the code. The model uses integer cents.

## Model

| member | source | states |
|---|---|---|
| Patterns.Search | banka/frontend/src/utils/validationSchemas.js:15-18 | an unanchored one-character-class test is true exactly when some code unit of the string is in the class |
| Patterns.LookaheadDotStar | banka/backend/models/User.js:16 | the lookahead `(?=.*k)` at the start succeeds exactly when a code unit of class k occurs before any line terminator |
| Patterns.LookaheadStep | banka/backend/models/User.js:16 | one scan step: a leading code unit outside k that is not a line terminator shifts a lookahead match by one |
| Patterns.RunToEnd | banka/backend/models/User.js:16 | `k{min,}$` matches from the start exactly when the string has at least min code units, all of class k |
| Patterns.LookaheadIsSearch | banka/backend/models/User.js:16 | on a string without line terminators, the lookahead is the same test as an unanchored search |
| UserModel.RoleName | banka/backend/models/User.js:11 | the stored role names are `client` and `staff`, one per role, and never `admin` |
| UserModel.NewUser | banka/backend/models/User.js:6-13 | a new user keeps the given fields; role defaults to client and isAdmin to false |
| UserModel.PasswordValid | banka/backend/models/User.js:15-18 | a password passes exactly when it has at least 8 code units, no line terminator, one of `!@#$%^&*` and a digit |
| UserModel.HashPassesValidator | banka/backend/models/User.js:15-22 | a bcrypt hash of cost 12 passes the password validator, so re-validating a stored hash never fails |
| UserModel.UserDocument.constructor | banka/backend/models/User.js:20-21 | a new document holds the given user, with the password counted as modified |
| UserModel.UserDocument.SetPassword | banka/backend/models/User.js:21 | setting the password changes only the password and marks it modified |
| UserModel.UserDocument.SetName | banka/backend/test/auth-user.test.js:253-258 | renaming changes only the names and leaves the password's modified flag as it was |
| UserModel.UserDocument.Save | banka/backend/models/User.js:7-25 | validation fails exactly on a missing required field or a password the validator refuses, and then nothing changes; otherwise the password is replaced by its hash exactly when it was modified; the write is refused exactly when another user has the e-mail; a completed save clears the modified flag |
| UserModel.RenameKeepsHash | banka/backend/test/auth-user.test.js:253-258 | after a create-and-save, a rename and a second save both succeed; the second leaves the stored hash equal to the first one and stores the new name |
| AccountModel.ParseType | banka/backend/models/Account.js:9 | exactly `savings` and `current` parse, each back to its own name |
| AccountModel.ParseStatus | banka/backend/models/Account.js:10 | exactly `active`, `dormant` and `pending` parse, each back to its own name |
| AccountModel.ParseNames | banka/backend/models/Account.js:9-10 | every type and status name parses back to its value |
| AccountModel.NewAccount | banka/backend/models/Account.js:5-12 | each given field is kept; type defaults to savings, status to pending, balance to 0, and the number is unset |
| AccountModel.NextNumberUnique | banka/backend/models/Account.js:16-17 | the allocated number is determined by the set of numbers in use |
| AccountModel.NextNumberMonotone | banka/backend/models/Account.js:16-17 | a non-empty store holding more numbers never allocates a smaller one (an empty store allocates 100000000, a store holding only 5 allocates 6) |
| AccountModel.TopNumberIsReused | banka/backend/models/Account.js:16-17 | after the highest-numbered record is deleted, the next allocation gives its number again, provided the number just below it is still in use or the store becomes empty and it was 100000000 |
| TransactionModel.ChainAppend | banka/backend/models/Transaction.js:10-12 | a sound record starting at the chain's end balance extends the chain to its new balance |
| TransactionModel.ChainEnd | banka/backend/models/Transaction.js:10-12 | a chain ends at its last record's new balance (or its start when empty), which is the start plus the net movement |
| TransactionModel.RecordsOf | banka/backend/routes/transactions.js:110 | the records with number n are exactly the log records carrying n, no more than the log |
| TransactionModel.RecordsOfCount | banka/backend/routes/transactions.js:110 | a record occurs in its own number's history exactly as often as in the log, and in no other history |
| TransactionModel.RecordsOfAppend | banka/backend/routes/transactions.js:110 | appending a record extends its own number's history by it and leaves every other history alone |
| TransactionModel.RecordsOfUnused | banka/backend/routes/transactions.js:110 | a number that no record carries has an empty history |
| Auth.IndexFrom | banka/backend/middleware/auth.js:9 | a found position lies in the string, at or after the start |
| Auth.ReplaceFirst | banka/backend/middleware/auth.js:9 | `String.replace` with a string pattern and a replacement holding no `$` (the code replaces by the empty string) leaves the text unchanged or replaces exactly one occurrence of the pattern |
| Auth.ReplaceFirstOccurrence | banka/backend/middleware/auth.js:9 | the text is unchanged when the pattern does not occur, and otherwise only its first occurrence is replaced |
| Auth.IndexFromFirst | banka/backend/middleware/auth.js:9 | the position found is the first occurrence at or after the start, and none means no occurrence |
| Auth.FirstIndex | banka/backend/middleware/auth.js:23 | the position of the first separator in the string |
| Auth.Fields | banka/backend/middleware/auth.js:23 | splitting gives at least one field |
| Auth.FieldsFree | banka/backend/middleware/auth.js:23 | no field holds the separator |
| Auth.SplitJoin | banka/backend/middleware/auth.js:23 | joining the fields with the separator gives back the text |
| Auth.JoinCons | banka/backend/middleware/auth.js:23 | joining a field in front of others puts one separator between them |
| Auth.ReplacedToken | banka/backend/middleware/auth.js:9 | `authenticateUser`'s token is absent exactly when the header is, and never longer than the header |
| Auth.ReplacedTokenReads | banka/backend/middleware/auth.js:9 | the token is the header without its leading `Bearer `, or the whole header when it holds no `Bearer ` |
| Auth.SplitToken | banka/backend/middleware/auth.js:23 | `authorizeRole`'s token is present exactly when the header holds a space, and holds no space itself |
| Auth.SplitTokenReads | banka/backend/middleware/auth.js:23 | that token is the text after the first space, up to the next space or the end |
| Auth.FieldsHead | banka/backend/middleware/auth.js:23 | the first field is the text up to the first separator, or all of it |
| Auth.ReplacePrefix | banka/backend/middleware/auth.js:9 | replacing the first occurrence of a prefix by nothing leaves the rest |
| Auth.FieldsAfter | banka/backend/middleware/auth.js:23 | a separator-free field, then the separator, splits into that field followed by the fields of the rest |
| Auth.BearerHeaderReadsAlike | banka/backend/middleware/auth.js:9-23 | on `Bearer <t>` with t non-empty and free of spaces, both guards read the token t |
| Auth.SpacedHeaderReadsDifferently | banka/backend/middleware/auth.js:9-23 | on `Bearer a b`, authenticateUser reads `a b` and authorizeRole reads `a` |
| Auth.SecondField | banka/backend/middleware/auth.js:23 | the second space field of `Bearer a b` is a |
| Auth.Authenticate | banka/backend/middleware/auth.js:7-19 | a missing token gives 401 Access denied; a token that does not verify gives 401 Invalid or expired token; otherwise it passes with the token's user, or null when that user is unknown |
| Auth.Admits | banka/backend/middleware/auth.js:31-39 | requiring admin admits exactly isAdmin users, staff exactly the staff role, client exactly the client role, and any other string everyone |
| Auth.AdminAndStaffAreSeparate | banka/backend/middleware/auth.js:31-36 | isAdmin does not open a staff route and the staff role does not open an admin route |
| Auth.AuthorizeRole | banka/backend/middleware/auth.js:21-46 | 401 for a missing or unverified token, 404 User not found for an unknown user, 403 when the role decision refuses, otherwise it passes with the stored user, who is admitted |
| Auth.Guard | banka/backend/server.js:41-42 | a role-guarded route answers authenticateUser's 401 first, and otherwise whatever authorizeRole answers |
| Auth.GuardOnBearerHeader | banka/backend/server.js:41-42 | with a well-formed bearer header the first guard changes nothing: the route answers as authorizeRole alone |
| Ledger.CreateCheck | banka/backend/routes/accounts.js:20-26 | a create body passes exactly when its type is savings or current and its balance is a number of at least 0; a bad type answers the type message whatever the balance, and a good type with a bad balance the balance message |
| Ledger.AmountValid | banka/backend/routes/transactions.js:13 | in whole cents, `isFloat({ min: 0.01 })` admits exactly the present, positive amounts |
| Ledger.Requested | banka/backend/routes/accounts.js:28 | the new account's owner is the requester and its status pending unless the body names them; type, balance and number come from the body |
| Ledger.BuildQuery | banka/backend/routes/accounts.js:84-101 | the status is kept; an owner parameter is used as given; without one a client gets its own id and staff gets every owner; a null user throws; the 403 answer never happens |
| Ledger.Matches | banka/backend/routes/accounts.js:104 | `find(query)` keeps an account exactly when it agrees with every field the query sets; a query with no field keeps all |
| Ledger.MayView | banka/backend/routes/transactions.js:106-108 | a caller may read an account's records exactly when it owns the account or has the staff role |
| Ledger.Record | banka/backend/routes/transactions.js:30-37 | the record written is sound, has the requested kind and amount, carries the account's number and balance before the change, and no cashier |
| Ledger.SaveKeepsUnique | banka/backend/models/Account.js:6 | a save keeps account numbers unique when the record keeps its number, takes a free one, or is allocated one |
| Ledger.ConsistentAfterSave | banka/backend/routes/accounts.js:59-60 | a save that leaves the balance as it was keeps the store invariant |
| Ledger.ConsistentAfterOpen | banka/backend/routes/accounts.js:28-31 | opening an account under the next id with no records keeps the store invariant |
| Ledger.ConsistentAfterRemove | banka/backend/routes/accounts.js:67 | removing an account keeps the store invariant, and its records stay in the log |
| Ledger.ConsistentAfterPost | banka/backend/routes/transactions.js:39-41 | saving the account with a sound record's new balance and appending the record keeps the store invariant |
| Ledger.Bank.NextAccountNumber | banka/backend/models/Account.js:16-17 | the scan yields one more than the largest number in use, or 100000000 on an empty store |
| Ledger.Bank.FindByNumber | banka/backend/routes/accounts.js:56 | it finds an account carrying the number, and none exactly when no account does |
| Ledger.Bank.Store | banka/backend/models/Account.js:14-20 | the saved record keeps its number, or is given the next number when it has none; only that id's entry changes |
| Ledger.Bank.Post | banka/backend/routes/transactions.js:39-41 | the account is saved with the record's new balance and the record is appended; the invariant holds, and the record is added to the account's traced history while every other history and every opening balance stays as it was |
| Ledger.Bank.Create | banka/backend/routes/accounts.js:19-45 | 401 from the token guard; 400 with the first validator message; a throw (no reply) for a null user, a body status outside the enum or a body number already in use; an opening succeeds exactly when the user exists, the body passes, the status is in the enum and the number is free; then exactly one account is added under a new id, with the number allocated, and the reply carries the user's names and the stored type and balance; nothing is logged, and the new account's traced history starts empty at its stored balance |
| Ledger.Bank.UpdateStatus | banka/backend/routes/accounts.js:48-62 | the guard's answer; 400 for a status outside the enum; 404 for an unknown number; otherwise the account with that number gets the new status from any status, nothing else changes (traced histories included), and the reply shows the stored number and status |
| Ledger.Bank.Delete | banka/backend/routes/accounts.js:65-72 | admins only; 404 for an unknown number; otherwise exactly the account with that number is removed, with its traced history, and the log is unchanged |
| Ledger.Bank.GetAccount | banka/backend/routes/accounts.js:113-119 | staff only; 404 for an unknown number; otherwise a stored account with that number |
| Ledger.Bank.ListAccounts | banka/backend/routes/accounts.js:75-110 | 401; 400 for a status outside the enum; 500 for a malformed owner; a throw when there is no owner parameter and the user is null; otherwise exactly the stored accounts matching the status, the owner parameter, and for a client without one, the client's own id |
| Ledger.Bank.Debit | banka/backend/routes/transactions.js:12-54 | the guard's answer, then 400 for an amount below one cent, a missing or non-active account, or a balance below the amount, each changing nothing (traced histories included); otherwise the balance drops by the amount, exactly one debit record from the old to the new balance is appended to the log and to the account's traced history, nothing else changes, and the reply's balance is the record's new balance |
| Ledger.Bank.Credit | banka/backend/routes/transactions.js:57-94 | the same checks without the funds check, each changing nothing; otherwise the balance grows by the amount with no upper bound, exactly one credit record is appended to the log and to the account's traced history, and the reply's balance is the record's new balance |
| Ledger.Bank.History | banka/backend/routes/transactions.js:97-112 | 404 for an unknown account; 403 unless the caller owns it or is staff; otherwise the account number's history `RecordsOf`: every log record carrying the number, each as often as in the log, in log order |
| Ledger.Bank.GetTransaction | banka/backend/routes/transactions.js:115-133 | 404 for an unknown record; 404 Account not found when no account carries its number; a throw for a null user once the account is found; 403 Forbidden when the caller neither owns an account carrying it nor is staff; otherwise that record |
| Ledger.Bank.BalanceTracesEntries | banka/backend/routes/transactions.js:30-41 | every balance is the new balance of the last record written for the account, or its opening balance, and equals the opening balance plus the net movement of records that are all in the log; the traced history is the one the mutators' contracts fix: empty at opening, extended by exactly the record each debit or credit appends, unchanged by every other call |
| Ledger.OpenActive | banka/backend/routes/accounts.js:28 | a client opening an account with status active in the body gets an active account, with number 100000000 on an empty store, an opening balance of 0 and an empty traced history |
| Ledger.OpenAndCredit | banka/backend/routes/transactions.js:70-81 | crediting that account logs one credit from 0 to the amount and leaves the account active at the amount, with that credit as its whole traced history |
| Ledger.DebitWholeBalance | banka/backend/routes/transactions.js:26-41 | debiting exactly the balance succeeds and leaves 0, with a debit record from the amount to 0 |
| Ledger.OpenCreditDelete | banka/backend/routes/accounts.js:65-72 | deleting the account empties the store while the log keeps the credit |
| Ledger.ReusedNumberInheritsHistory | banka/backend/models/Account.js:15-17 | the next account, opened by another client, gets number 100000000 again, and its history is the deleted account's credit |
| FormSchemas.AllowedIsDot | banka/frontend/src/utils/validationSchemas.js:9 | no code unit the pattern allows is a line terminator |
| FormSchemas.PatternMatches | banka/frontend/src/utils/validationSchemas.js:8-11 | the pattern matches exactly when the password has at least 8 code units, all letters, digits or `@$!%*#?&`, with a letter, a digit and one of those specials |
| FormSchemas.StrongEnough | banka/frontend/src/utils/validationSchemas.js:13-19 | the strength test passes exactly with at least 8 code units, an upper-case letter, a lower-case letter, a digit and a special |
| FormSchemas.SignupPasswordValid | banka/frontend/src/utils/validationSchemas.js:6-19 | the password rules together: at least 8 allowed code units with an upper-case letter, a lower-case letter, a digit and a special |
| FormSchemas.UpperIsLetter | banka/frontend/src/utils/validationSchemas.js:9-15 | an upper-case letter is a letter, so the strength test implies the pattern's letter lookahead |
| FormSchemas.SignupValid | banka/frontend/src/utils/validationSchemas.js:3-25 | the sign-up schema passes exactly with a name, a well-formed e-mail, a valid password and a confirmation equal to it |
| FormSchemas.SignupPasswordAtBackend | banka/frontend/src/utils/validationSchemas.js:6-19 | a password the sign-up schema accepts passes the backend validator exactly when it holds one of the specials both rules share |
| FormSchemas.SpecialAlike | banka/frontend/src/utils/validationSchemas.js:9 | among the code units the sign-up schema allows, the backend's specials are the shared ones |
| FormSchemas.QuestionMarkPassword | banka/frontend/src/utils/validationSchemas.js:9 | `Abcdefg1?` passes the sign-up schema and fails the backend validator |
| FormSchemas.QuestionMarkShape | banka/frontend/src/utils/validationSchemas.js:9 | `Abcdefg1?` has the shape the sign-up schema asks for and none of the shared specials |
| FormSchemas.NotShared | banka/frontend/src/utils/validationSchemas.js:9 | letters, digits and `?` are not shared specials |
| FormSchemas.AccountFormValid | banka/frontend/src/utils/validationSchemas.js:27-32 | the account schema passes exactly with type savings or current and a deposit of at least 100 dollars |
| FormSchemas.AsCreateBody | banka/frontend/src/components/common/AccountForm.jsx:14 | the account form posts its type and deposit with status pending, and no owner or number |
| FormSchemas.AccountFormWithinBackend | banka/frontend/src/utils/validationSchemas.js:29-31 | whatever the account schema accepts, posted as the form posts it, passes the backend validators with status pending; a deposit between 0 and 100 dollars is refused by the schema but accepted by the backend |

## Left out

- Signing and verifying JWTs is foreign code. It is replaced by a map from the token texts that verify to user ids. `jwt.verify` throwing becomes a token that is not in the map.
- bcrypt is foreign code and is a function parameter of `Save`. The e-mail format test of the sign-up schema is a parameter too.
- The rate limiter on account creation (accounts.js:13-17) depends on time and client addresses.
- The `auditLog` middleware writes to a separate sink and does not affect the ledger.
- There is no concurrency: the read-then-write races in credit and debit and in number allocation are not modelled. Every request runs alone and to the end.
- Storage failures are not modelled, so the balance save and the record save (transactions.js:40-41) either both happen or neither does.
- JavaScript numbers are not modelled: money is integer cents and there is no floating-point rounding.
- Amounts sent as JSON strings are not modelled. `isFloat` accepts them, and credit would then concatenate rather than add.
- `populate` of owner and cashier changes only the shape of responses.
- Ids are typed. Malformed ObjectIds and account-number parameters that are not numbers, which would throw a cast error, are not modelled.
- The `isMongoId` checks of the two read routes of the log are never inspected by the handlers, so they have no effect.
- A body's `createdOn` and `_id` fields are not modelled. They would be spread over the defaults just as owner, status and number are; only those three and type and balance are fields of the create body here.
- The order of a list or history result is not fixed: `ListAccounts` returns a map. History keeps log order.
- `Ledger.Bank.ListAccounts`: the 500 for a malformed owner is the only storage error it models.
- `Ledger.Bank.Create`: `User.findById` after the save is assumed to find the same user that the token guard loaded.
- The create route answers 201 and the read routes 200. Status codes of successful replies are not part of the reply values.
- `Patterns` treats a `char` as one UTF-16 code unit. Surrogate pairs and other Unicode behaviour of JavaScript strings are not modelled.
- Yup error texts are not modelled: each schema is modelled by whether it accepts.
- The user routes (users.js), the auth routes (sign-in, OTP, e-mail) and the React views are not part of this model.
- Roles are limited to what `save()` admits, `client` and `staff`. The admin route that updates a user (users.js:52) writes `role` with `findByIdAndUpdate`, which runs no validators, so any text can be stored there. With such a role the `role !== 'admin'` tests of accounts.js:98 and transactions.js:106 do decide, and the list query can answer 403. That route is outside this model.
- The validators are express-validator's `check(field)`, which looks for the field in the body, the query string, the route parameters, the headers and the cookies. When the field occurs anywhere, it tests only the places where it occurs. The model gives each validator only the place its handler reads: the body for create, status update, debit and credit, and the query string for the list. A field sent in another place is not modelled. The lines below name what this changes.
- `Ledger.CreateCheck`: `POST /accounts?type=savings&balance=5` with an empty body passes both validators in the code. The spread then keeps the defaults, savings and 0, and the route answers 201. The model answers 400 with the type message.
- `Ledger.Bank.UpdateStatus`: `PATCH /accounts/N?status=active` with an empty body passes in the code. It then assigns an undefined `req.body.status`; the field is neither required nor checked against its enum when unset, so the save removes the status and the route answers 200. The model answers 400.
- `Ledger.AmountValid`: a debit or credit with `?amount=5` and no amount in the body passes in the code. The new balance is then NaN, which Mongoose refuses to cast, so the save throws and nothing is stored. The model answers 400 with the amount message. The same holds for `Ledger.Bank.Debit` and `Ledger.Bank.Credit`.
- `Ledger.Bank.ListAccounts`: its status test reads only the query string, which is also where the handler reads the status. A `status` header or cookie would be tested as well in the code.
- No component of the frontend applies the two Yup schemas. The sign-up form checks only that the password equals its confirmation, and the account form posts its fields unchecked (AccountForm.jsx:14). `FormSchemas` therefore relates the schemas to the backend, not a path the program takes.
