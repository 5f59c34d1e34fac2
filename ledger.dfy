/** The account store and the transaction log behind the routes of
    banka/backend/routes/accounts.js and banka/backend/routes/transactions.js.
    Requests are taken one at a time; each route method runs its guards, its
    validators and its handler to the end. Money is in integer cents. */
module Ledger {
  import opened Common
  import opened UserModel
  import opened AccountModel
  import opened TransactionModel
  import opened Auth

  /** `isFloat({ min: 0.01 })`: one cent. */
  const MinAmount := 1

  const AmountMessage := "Amount must be a positive number"
  const NotActiveMessage := "Account not active"
  const InsufficientMessage := "Insufficient funds"
  const AccountNotFound := "Account not found"
  const TransactionNotFound := "Transaction not found"
  const TypeMessage := "Account type must be savings or current"
  const BalanceMessage := "Opening balance must be a positive number"
  const StatusMessage := "Status must be pending, active or dormant"
  const RoleMessage := "Forbidden: Insufficient role"
  const FetchFailed := "Internal server error fetching accounts"
  const DeletedMessage := "Account successfully deleted"

  /** A request amount: absent or not a number is `None`. In whole cents, a minimum of
      0.01 admits exactly the positive amounts. */
  function AmountValid(amount: Option<int>): (b: bool)
    ensures b <==> amount.Some? && amount.value > 0
  {
    amount.Some? && amount.value >= MinAmount
  }

  /** The body of `POST /accounts`. Every field is spread over the defaults, so a body
      may also name the owner, the status and the account number. */
  datatype CreateBody = CreateBody(
    accountType: Option<string>,
    balance: Option<int>,
    owner: Option<UserId>,
    status: Option<string>,
    accountNumber: Option<int>)

  /** The validators of `POST /accounts`, in their order: the first failing one's message. */
  function CreateCheck(body: CreateBody): (r: Option<string>)
    ensures r == None <==> body.accountType.Some? && ParseType(body.accountType.value).Some?
                           && body.balance.Some? && body.balance.value >= 0
    ensures r.Some? ==> r.value == TypeMessage || r.value == BalanceMessage
    ensures (body.accountType.None? || ParseType(body.accountType.value).None?) ==> r == Some(TypeMessage)
    ensures (body.accountType.Some? && ParseType(body.accountType.value).Some?
             && (body.balance.None? || body.balance.value < 0)) ==> r == Some(BalanceMessage)
  {
    if body.accountType.None? || ParseType(body.accountType.value).None? then Some(TypeMessage)
    else if body.balance.None? || body.balance.value < 0 then Some(BalanceMessage)
    else None
  }

  /** `{ owner: req.user.id, status: 'pending', ...req.body }` before the save: body
      fields win over both. Requires a body that passed `CreateCheck`. */
  function Requested(requester: UserId, body: CreateBody, now: int): (a: Account)
    requires CreateCheck(body) == None
    requires body.status.None? || ParseStatus(body.status.value).Some?
    ensures a.owner == if body.owner.Some? then body.owner.value else requester
    ensures a.status == if body.status.Some? then ParseStatus(body.status.value).value else Pending
    ensures TypeName(a.accountType) == body.accountType.value
    ensures a.balance == body.balance.value && a.balance >= 0
    ensures a.accountNumber == if body.accountNumber.Some? then body.accountNumber.value else 0
  {
    NewAccount(if body.owner.Some? then body.owner.value else requester,
               now,
               body.accountNumber,
               ParseType(body.accountType.value),
               Some(if body.status.Some? then ParseStatus(body.status.value).value else Pending),
               body.balance)
  }

  /** The `owner` query parameter: absent or empty, a well-formed id, or a text that
      is not an ObjectId (the query then throws when it is cast). */
  datatype OwnerParam = NoOwner | OwnerId(id: UserId) | BadOwner

  datatype OwnerTerm = AnyOwner | OwnedBy(id: UserId) | MalformedOwner

  /** The query object of `GET /accounts`. */
  datatype Query = Query(status: Option<Status>, owner: OwnerTerm)

  /** The query built field by field from the parameters and the caller's role. Over
      the two roles that `save()` admits, the test `role !== 'staff' && role !== 'admin'`
      cannot decide, so the 403 answer never happens. */
  function BuildQuery(status: Option<Status>, owner: OwnerParam, caller: Option<User>): (r: Reply<Query>)
    ensures !r.Fail?
    ensures r.Ok? ==> r.value.status == status
    ensures owner.OwnerId? ==> r == Ok(Query(status, OwnedBy(owner.id)))
    ensures owner.BadOwner? ==> r == Ok(Query(status, MalformedOwner))
    ensures owner.NoOwner? && caller.None? ==> r.Unhandled?
    ensures owner.NoOwner? && caller.Some? && caller.value.role == Client
            ==> r == Ok(Query(status, OwnedBy(caller.value.id)))
    ensures owner.NoOwner? && caller.Some? && caller.value.role == Staff
            ==> r == Ok(Query(status, AnyOwner))
  {
    var q := Query(status, AnyOwner);
    match owner
    case OwnerId(id) => Ok(q.(owner := OwnedBy(id)))
    case BadOwner => Ok(q.(owner := MalformedOwner))
    case NoOwner =>
      if caller.None? then Unhandled("req.user is null")
      else
        var role := RoleName(caller.value.role);
        if role == "client" then Ok(q.(owner := OwnedBy(caller.value.id)))
        else if role != "staff" && role != "admin" then Fail(Forbidden, RoleMessage)
        else Ok(q)
  }

  /** `Account.find(query)` keeps an account when it agrees with every field the query
      sets; a query that sets no field keeps every account. */
  function Matches(q: Query, a: Account): (b: bool)
    ensures q.status.Some? && a.status != q.status.value ==> !b
    ensures q.owner.OwnedBy? && a.owner != q.owner.id ==> !b
    ensures (q.status.None? || a.status == q.status.value) && (!q.owner.OwnedBy? || a.owner == q.owner.id) ==> b
  {
    && (q.status.Some? ==> a.status == q.status.value)
    && (q.owner.OwnedBy? ==> a.owner == q.owner.id)
  }

  /** The ownership test of the two read routes of the log: the owner, or a caller
      whose role is staff or admin. Of the two roles that `save()` admits neither is
      admin, so that half never decides. */
  function MayView(u: User, owner: UserId): (b: bool)
    ensures b <==> owner == u.id || u.role == Staff
  {
    !(owner != u.id && RoleName(u.role) != "admin" && RoleName(u.role) != "staff")
  }

  /** The record a movement of `amount` writes for account `a` at time `now`: it is
      built before the save, from the account's number and balance as they were, and
      its cashier is the unset `req.userId`. */
  function Record(kind: TxType, a: Account, amount: int, now: int): (t: Transaction)
    ensures Sound(t) && t.transactionType == kind && t.amount == amount && t.createdOn == now
    ensures t.accountNumber == a.accountNumber && t.oldBalance == a.balance && t.cashier == None
  {
    Transaction(now, kind, a.accountNumber, None, amount,
                a.balance, if kind == TxType.Credit then a.balance + amount else a.balance - amount)
  }

  datatype CreateReply = CreateReply(
    accountNumber: int, firstName: string, lastName: string, email: string,
    accountType: AccountType, openingBalance: int)

  datatype StatusReply = StatusReply(accountNumber: int, status: Status)

  datatype MovementReply = MovementReply(
    transactionId: nat, accountNumber: int, amount: int, cashier: Option<UserId>,
    transactionType: TxType, accountBalance: int)

  ghost function NumbersOf(accounts: map<AccountId, Account>): set<int> {
    set k | k in accounts :: accounts[k].accountNumber
  }

  /** The unique index on `accountNumber`. */
  ghost predicate NumbersUnique(accounts: map<AccountId, Account>) {
    forall j, k :: j in accounts && k in accounts && j != k ==> accounts[j].accountNumber != accounts[k].accountNumber
  }

  /** Saving keeps the account numbers unique when the record keeps its own number,
      takes a free one, or has none and is given the next one. */
  lemma SaveKeepsUnique(m: map<AccountId, Account>, id: AccountId, a: Account, saved: Account)
    requires NumbersUnique(m)
    requires SavedForm(a, saved, NumbersOf(m))
    requires a.accountNumber == 0 || a.accountNumber !in NumbersOf(m)
             || (id in m && a.accountNumber == m[id].accountNumber)
    ensures NumbersUnique(m[id := saved])
  {
    forall k | k in m && k != id ensures m[k].accountNumber != saved.accountNumber {
      assert m[k].accountNumber in NumbersOf(m);
    }
  }

  /** Every account's balance, never negative, is its opening balance carried through
      the records written for it. */
  ghost predicate Traced(accounts: map<AccountId, Account>, opening: map<AccountId, int>,
                         entries: map<AccountId, seq<Transaction>>) {
    && opening.Keys == accounts.Keys && entries.Keys == accounts.Keys
    && forall k :: k in accounts ==>
         0 <= opening[k] && 0 <= accounts[k].balance && Chain(opening[k], entries[k], accounts[k].balance)
  }

  /** The store's invariant: ids are below `nextId`; numbers are unique; every
      balance is traced from its opening balance through records that are all in the
      log; and every logged record is sound, moves at least one cent and names no
      cashier. */
  ghost predicate Consistent(accounts: map<AccountId, Account>, log: seq<Transaction>, nextId: nat,
                      opening: map<AccountId, int>, entries: map<AccountId, seq<Transaction>>) {
    && (forall k :: k in accounts ==> k < nextId)
    && NumbersUnique(accounts)
    && Traced(accounts, opening, entries)
    && (forall k, t :: k in entries && t in entries[k] ==> t in log)
    && (forall i :: 0 <= i < |log| ==> Sound(log[i]) && log[i].amount >= MinAmount && log[i].cashier == None)
  }

  /** Saving an account with its balance unchanged keeps the invariant. */
  lemma ConsistentAfterSave(accounts: map<AccountId, Account>, log: seq<Transaction>, nextId: nat,
                      opening: map<AccountId, int>, entries: map<AccountId, seq<Transaction>>,
                            id: AccountId, saved: Account)
    requires Consistent(accounts, log, nextId, opening, entries)
    requires id in accounts && saved.balance == accounts[id].balance && NumbersUnique(accounts[id := saved])
    ensures Consistent(accounts[id := saved], log, nextId, opening, entries)
  {
  }

  /** Opening an account under the next id, with no records yet, keeps the invariant. */
  lemma ConsistentAfterOpen(accounts: map<AccountId, Account>, log: seq<Transaction>, nextId: nat,
                      opening: map<AccountId, int>, entries: map<AccountId, seq<Transaction>>,
                            saved: Account)
    requires Consistent(accounts, log, nextId, opening, entries)
    requires saved.balance >= 0 && NumbersUnique(accounts[nextId := saved])
    ensures Consistent(accounts[nextId := saved], log, nextId + 1, opening[nextId := saved.balance], entries[nextId := []])
  {
  }

  /** Deleting an account keeps the invariant; its records stay in the log. */
  lemma ConsistentAfterRemove(accounts: map<AccountId, Account>, log: seq<Transaction>, nextId: nat,
                      opening: map<AccountId, int>, entries: map<AccountId, seq<Transaction>>,
                              k: AccountId)
    requires Consistent(accounts, log, nextId, opening, entries)
    ensures Consistent(accounts - {k}, log, nextId, opening - {k}, entries - {k})
  {
  }

  /** Posting a sound record that starts at the account's balance, saving the account
      with the record's new balance, keeps the invariant. */
  lemma ConsistentAfterPost(accounts: map<AccountId, Account>, log: seq<Transaction>, nextId: nat,
                      opening: map<AccountId, int>, entries: map<AccountId, seq<Transaction>>,
                            id: AccountId, t: Transaction, saved: Account)
    requires Consistent(accounts, log, nextId, opening, entries)
    requires id in accounts && Sound(t) && t.amount >= MinAmount && t.cashier == None
    requires t.newBalance >= 0 && t.oldBalance == accounts[id].balance && saved.balance == t.newBalance
    requires NumbersUnique(accounts[id := saved])
    ensures Consistent(accounts[id := saved], log + [t], nextId, opening, entries[id := entries[id] + [t]])
  {
    ChainAppend(opening[id], entries[id], accounts[id].balance, t);
  }

  /** The database: accounts by id and the append-only transaction log (a record's id
      is its position). The ghost fields keep, for every account, its opening balance
      and the records written for it, so that its balance can be traced. */
  class Bank {
    var accounts: map<AccountId, Account>
    var log: seq<Transaction>
    var nextId: nat
    ghost var opening: map<AccountId, int>
    ghost var entries: map<AccountId, seq<Transaction>>

    ghost predicate Valid()
      reads this
    {
      Consistent(accounts, log, nextId, opening, entries)
    }

    constructor ()
      ensures Valid() && accounts == map[] && log == [] && nextId == 0
      ensures opening == map[] && entries == map[]
    {
      accounts, log, nextId := map[], [], 0;
      opening, entries := map[], map[];
    }

    /** The pre-save hook's query for the largest number in use, as a scan of the store. */
    method NextAccountNumber() returns (n: int)
      requires Valid()
      ensures Valid()
      ensures IsNextNumber(NumbersOf(accounts), n)
    {
      var found, top := false, 0;
      for id := 0 to nextId
        invariant !found ==> forall k :: k in accounts ==> k >= id
        invariant found ==> top in NumbersOf(accounts)
        invariant found ==> forall k :: k in accounts && k < id ==> accounts[k].accountNumber <= top
      {
        if id in accounts {
          if !found || accounts[id].accountNumber > top {
            top := accounts[id].accountNumber;
          }
          found := true;
        }
      }
      if found {
        n := top + 1;
      } else {
        n := FirstAccountNumber;
        assert accounts == map[];
      }
    }

    /** `findOne({ accountNumber: n })`, as a scan of the store. */
    method FindByNumber(n: int) returns (r: Option<AccountId>)
      requires Valid()
      ensures Valid()
      ensures r.Some? ==> r.value in accounts && accounts[r.value].accountNumber == n
      ensures r.None? <==> n !in NumbersOf(accounts)
    {
      for id := 0 to nextId
        invariant forall k :: k in accounts && k < id ==> accounts[k].accountNumber != n
      {
        if id in accounts && accounts[id].accountNumber == n {
          return Some(id);
        }
      }
      return None;
    }

    /** `save()`: the pre-save hook, then the write of the record under `id`. */
    method Store(id: AccountId, a: Account) returns (saved: Account)
      requires Valid()
      modifies this`accounts
      ensures SavedForm(a, saved, NumbersOf(old(accounts)))
      ensures accounts == old(accounts)[id := saved]
    {
      saved := a;
      if a.accountNumber == 0 {
        var n := NextAccountNumber();
        saved := a.(accountNumber := n);
      }
      accounts := accounts[id := saved];
    }

    /** What the two money routes share once their checks have passed: the account is
        saved with the record's new balance and the record is appended to the log. */
    method Post(id: AccountId, t: Transaction) returns (saved: Account)
      requires Valid() && id in accounts
      requires Sound(t) && t.amount >= MinAmount && t.cashier == None && t.newBalance >= 0
      requires t.oldBalance == accounts[id].balance && t.accountNumber == accounts[id].accountNumber
      modifies this
      ensures Valid()
      ensures SavedForm(old(accounts)[id].(balance := t.newBalance), saved, NumbersOf(old(accounts)))
      ensures accounts == old(accounts)[id := saved]
      ensures log == old(log) + [t]
      ensures nextId == old(nextId)
      ensures opening == old(opening) && entries == old(entries)[id := old(entries)[id] + [t]]
    {
      saved := Store(id, accounts[id].(balance := t.newBalance));
      SaveKeepsUnique(old(accounts), id, old(accounts)[id].(balance := t.newBalance), saved);
      ConsistentAfterPost(old(accounts), log, nextId, opening, entries, id, t, saved);
      log := log + [t];
      entries := entries[id := entries[id] + [t]];
    }

    /** `POST /accounts`: guarded by `authenticateUser` only. */
    method Create(c: Credentials, body: CreateBody, now: int) returns (r: Reply<CreateReply>)
      requires Valid()
      modifies this
      ensures Valid()
      ensures nextId == if r.Ok? then old(nextId) + 1 else old(nextId)
      ensures log == old(log)
      ensures !r.Ok? ==> accounts == old(accounts) && opening == old(opening) && entries == old(entries)
      ensures r.Ok? ==> old(nextId) in accounts
                        && opening == old(opening)[old(nextId) := accounts[old(nextId)].balance]
                        && entries == old(entries)[old(nextId) := []]
      ensures Authenticate(c).Deny? ==> r == Fail(Authenticate(c).code, Authenticate(c).message)
      ensures Authenticate(c).Pass? && CreateCheck(body).Some? ==> r == Fail(BadRequest, CreateCheck(body).value)
      ensures Authenticate(c).Pass? && CreateCheck(body) == None && Authenticate(c).value.None? ==> r.Unhandled?
      ensures Authenticate(c).Pass? && Authenticate(c).value.Some? && CreateCheck(body) == None
              && body.status.Some? && ParseStatus(body.status.value).None?
              ==> r.Unhandled?
      ensures Authenticate(c).Pass? && Authenticate(c).value.Some? && CreateCheck(body) == None
              && (body.status.None? || ParseStatus(body.status.value).Some?)
              && body.accountNumber.Some? && body.accountNumber.value != 0
              && body.accountNumber.value in NumbersOf(old(accounts))
              ==> r.Unhandled?
      ensures r.Ok? <==>
                && Authenticate(c).Pass? && Authenticate(c).value.Some? && CreateCheck(body) == None
                && (body.status.None? || ParseStatus(body.status.value).Some?)
                && (body.accountNumber.None? || body.accountNumber.value == 0
                    || body.accountNumber.value !in NumbersOf(old(accounts)))
      ensures r.Ok? ==>
                var id := old(nextId);
                var u := Authenticate(c).value.value;
                && id !in old(accounts)
                && id in accounts && accounts == old(accounts)[id := accounts[id]]
                && SavedForm(Requested(u.id, body, now), accounts[id], NumbersOf(old(accounts)))
                && r.value == CreateReply(accounts[id].accountNumber, u.firstName, u.lastName, u.email,
                                          accounts[id].accountType, accounts[id].balance)
    {
      var auth := Authenticate(c);
      if auth.Deny? {
        return Fail(auth.code, auth.message);
      }
      var problem := CreateCheck(body);
      if problem.Some? {
        return Fail(BadRequest, problem.value);
      }
      if auth.value.None? {
        return Unhandled("req.user is null");
      }
      var u := auth.value.value;
      if body.status.Some? && ParseStatus(body.status.value).None? {
        return Unhandled("status is not in the enum");
      }
      var draft := Requested(u.id, body, now);
      if draft.accountNumber != 0 {
        var holder := FindByNumber(draft.accountNumber);
        if holder.Some? {
          return Unhandled("duplicate accountNumber");
        }
      }
      var id := nextId;
      var saved := Store(id, draft);
      SaveKeepsUnique(old(accounts), id, draft, saved);
      ConsistentAfterOpen(old(accounts), log, nextId, opening, entries, saved);
      nextId := nextId + 1;
      opening := opening[id := saved.balance];
      entries := entries[id := []];
      r := Ok(CreateReply(saved.accountNumber, u.firstName, u.lastName, u.email, saved.accountType, saved.balance));
    }

    /** `PATCH /accounts/:accountNumber`: any of the three statuses, from any status. */
    method UpdateStatus(c: Credentials, number: int, status: Option<string>) returns (r: Reply<StatusReply>)
      requires Valid()
      modifies this
      ensures Valid()
      ensures nextId == old(nextId)
      ensures log == old(log)
      ensures !r.Ok? ==> accounts == old(accounts)
      ensures opening == old(opening) && entries == old(entries)
      ensures Guard("staff", c).Deny? ==> r == Fail(Guard("staff", c).code, Guard("staff", c).message)
      ensures Guard("staff", c).Pass? && (status.None? || ParseStatus(status.value).None?)
              ==> r == Fail(BadRequest, StatusMessage)
      ensures Guard("staff", c).Pass? && status.Some? && ParseStatus(status.value).Some?
              && number !in NumbersOf(old(accounts))
              ==> r == Fail(NotFound, AccountNotFound)
      ensures r.Ok? <==> Guard("staff", c).Pass? && status.Some? && ParseStatus(status.value).Some?
                         && number in NumbersOf(old(accounts))
      ensures r.Ok? ==> exists k :: k in old(accounts) && old(accounts)[k].accountNumber == number
                          && k in accounts && accounts == old(accounts)[k := accounts[k]]
                          && SavedForm(old(accounts)[k].(status := ParseStatus(status.value).value),
                                       accounts[k], NumbersOf(old(accounts)))
                          && r.value == StatusReply(accounts[k].accountNumber, accounts[k].status)
    {
      var g := Guard("staff", c);
      if g.Deny? {
        return Fail(g.code, g.message);
      }
      if status.None? || ParseStatus(status.value).None? {
        return Fail(BadRequest, StatusMessage);
      }
      var s := ParseStatus(status.value).value;
      var found := FindByNumber(number);
      if found.None? {
        return Fail(NotFound, AccountNotFound);
      }
      var k := found.value;
      var saved := Store(k, accounts[k].(status := s));
      SaveKeepsUnique(old(accounts), k, old(accounts)[k].(status := s), saved);
      ConsistentAfterSave(old(accounts), log, nextId, opening, entries, k, saved);
      r := Ok(StatusReply(saved.accountNumber, saved.status));
    }

    /** `DELETE /accounts/:accountNumber`: admin only; the log is left as it is. */
    method Delete(c: Credentials, number: int) returns (r: Reply<string>)
      requires Valid()
      modifies this
      ensures Valid()
      ensures nextId == old(nextId)
      ensures log == old(log)
      ensures !r.Ok? ==> accounts == old(accounts) && opening == old(opening) && entries == old(entries)
      ensures Guard("admin", c).Deny? ==> r == Fail(Guard("admin", c).code, Guard("admin", c).message)
      ensures Guard("admin", c).Pass? && number !in NumbersOf(old(accounts)) ==> r == Fail(NotFound, AccountNotFound)
      ensures r.Ok? <==> Guard("admin", c).Pass? && number in NumbersOf(old(accounts))
      ensures r.Ok? ==> r.value == DeletedMessage
                        && exists k :: k in old(accounts) && old(accounts)[k].accountNumber == number
                                       && accounts == old(accounts) - {k}
                                       && opening == old(opening) - {k} && entries == old(entries) - {k}
    {
      var g := Guard("admin", c);
      if g.Deny? {
        return Fail(g.code, g.message);
      }
      var found := FindByNumber(number);
      if found.None? {
        return Fail(NotFound, AccountNotFound);
      }
      var k := found.value;
      assert k in old(accounts) && old(accounts)[k].accountNumber == number;
      ConsistentAfterRemove(accounts, log, nextId, opening, entries, k);
      accounts := accounts - {k};
      opening := opening - {k};
      entries := entries - {k};
      r := Ok(DeletedMessage);
    }

    /** `GET /accounts/:accountNumber`: staff only. */
    method GetAccount(c: Credentials, number: int) returns (r: Reply<Account>)
      requires Valid()
      ensures Guard("staff", c).Deny? ==> r == Fail(Guard("staff", c).code, Guard("staff", c).message)
      ensures Guard("staff", c).Pass? && number !in NumbersOf(accounts) ==> r == Fail(NotFound, AccountNotFound)
      ensures r.Ok? <==> Guard("staff", c).Pass? && number in NumbersOf(accounts)
      ensures r.Ok? ==> r.value in accounts.Values && r.value.accountNumber == number
    {
      var g := Guard("staff", c);
      if g.Deny? {
        return Fail(g.code, g.message);
      }
      var found := FindByNumber(number);
      if found.None? {
        return Fail(NotFound, AccountNotFound);
      }
      r := Ok(accounts[found.value]);
    }

    /** `GET /accounts`: every account that matches the query built from the
        parameters and the caller. */
    function ListAccounts(c: Credentials, status: Option<string>, owner: OwnerParam): (r: Reply<map<AccountId, Account>>)
      reads this
      ensures Authenticate(c).Deny? ==> r == Fail(Authenticate(c).code, Authenticate(c).message)
      ensures Authenticate(c).Pass? && status.Some? && ParseStatus(status.value).None?
              ==> r == Fail(BadRequest, StatusMessage)
      ensures Authenticate(c).Pass? && (status.None? || ParseStatus(status.value).Some?) && owner.BadOwner?
              ==> r == Fail(ServerError, FetchFailed)
      ensures Authenticate(c).Pass? && (status.None? || ParseStatus(status.value).Some?)
              && owner.NoOwner? && Authenticate(c).value.None?
              ==> r.Unhandled?
      ensures r.Ok? <==> Authenticate(c).Pass? && (status.None? || ParseStatus(status.value).Some?)
                         && !owner.BadOwner? && (owner.NoOwner? ==> Authenticate(c).value.Some?)
      ensures r.Ok? ==> forall k :: k in r.value ==> k in accounts && r.value[k] == accounts[k]
      ensures r.Ok? ==> forall k :: k in accounts ==>
                (k in r.value <==>
                   && (status.Some? ==> StatusName(accounts[k].status) == status.value)
                   && (owner.OwnerId? ==> accounts[k].owner == owner.id)
                   && (owner.NoOwner? && Authenticate(c).value.value.role == Client
                       ==> accounts[k].owner == Authenticate(c).value.value.id))
    {
      match Authenticate(c)
      case Deny(code, msg) => Fail(code, msg)
      case Pass(caller) =>
        if status.Some? && ParseStatus(status.value).None? then Fail(BadRequest, StatusMessage)
        else
          var wanted := if status.Some? then ParseStatus(status.value) else None;
          match BuildQuery(wanted, owner, caller)
          case Fail(code, msg) => Fail(code, msg)
          case Unhandled(why) => Unhandled(why)
          case Ok(q) =>
            if q.owner.MalformedOwner? then Fail(ServerError, FetchFailed)
            else Ok(map k | k in accounts && Matches(q, accounts[k]) :: accounts[k])
    }

    /** `POST /transactions/:accountId/debit`. The cashier is read from a request field
        that no guard sets, so it is always absent. */
    method Debit(c: Credentials, id: AccountId, amount: Option<int>, now: int) returns (r: Reply<MovementReply>)
      requires Valid()
      modifies this
      ensures Valid()
      ensures nextId == old(nextId)
      ensures !r.Ok? ==> accounts == old(accounts) && log == old(log)
                         && opening == old(opening) && entries == old(entries)
      ensures Guard("staff", c).Deny? ==> r == Fail(Guard("staff", c).code, Guard("staff", c).message)
      ensures Guard("staff", c).Pass? && !AmountValid(amount) ==> r == Fail(BadRequest, AmountMessage)
      ensures Guard("staff", c).Pass? && AmountValid(amount)
              && (id !in old(accounts) || old(accounts)[id].status != Active)
              ==> r == Fail(BadRequest, NotActiveMessage)
      ensures Guard("staff", c).Pass? && AmountValid(amount) && id in old(accounts)
              && old(accounts)[id].status == Active && old(accounts)[id].balance < amount.value
              ==> r == Fail(BadRequest, InsufficientMessage)
      ensures r.Ok? <==> Guard("staff", c).Pass? && AmountValid(amount) && id in old(accounts)
                         && old(accounts)[id].status == Active && old(accounts)[id].balance >= amount.value
      ensures r.Ok? ==>
                var t := Record(TxType.Debit, old(accounts)[id], amount.value, now);
                && t.newBalance == old(accounts)[id].balance - amount.value
                && log == old(log) + [t]
                && opening == old(opening) && entries == old(entries)[id := old(entries)[id] + [t]]
                && id in accounts && accounts == old(accounts)[id := accounts[id]]
                && SavedForm(old(accounts)[id].(balance := t.newBalance), accounts[id], NumbersOf(old(accounts)))
                && r.value == MovementReply(|old(log)|, accounts[id].accountNumber, amount.value, None,
                                            TxType.Debit, accounts[id].balance)
                && r.value.accountBalance == t.newBalance
    {
      var g := Guard("staff", c);
      if g.Deny? {
        return Fail(g.code, g.message);
      }
      if !AmountValid(amount) {
        return Fail(BadRequest, AmountMessage);
      }
      if id !in accounts || accounts[id].status != Active {
        return Fail(BadRequest, NotActiveMessage);
      }
      var a := amount.value;
      var account := accounts[id];
      if account.balance < a {
        return Fail(BadRequest, InsufficientMessage);
      }
      var t := Record(TxType.Debit, account, a, now);
      var txId := |log|;
      var saved := Post(id, t);
      r := Ok(MovementReply(txId, saved.accountNumber, a, None, TxType.Debit, saved.balance));
    }

    /** `POST /transactions/:accountId/credit`: the same checks but the funds check,
        and no upper bound. */
    method Credit(c: Credentials, id: AccountId, amount: Option<int>, now: int) returns (r: Reply<MovementReply>)
      requires Valid()
      modifies this
      ensures Valid()
      ensures nextId == old(nextId)
      ensures !r.Ok? ==> accounts == old(accounts) && log == old(log)
                         && opening == old(opening) && entries == old(entries)
      ensures Guard("staff", c).Deny? ==> r == Fail(Guard("staff", c).code, Guard("staff", c).message)
      ensures Guard("staff", c).Pass? && !AmountValid(amount) ==> r == Fail(BadRequest, AmountMessage)
      ensures Guard("staff", c).Pass? && AmountValid(amount)
              && (id !in old(accounts) || old(accounts)[id].status != Active)
              ==> r == Fail(BadRequest, NotActiveMessage)
      ensures r.Ok? <==> Guard("staff", c).Pass? && AmountValid(amount) && id in old(accounts)
                         && old(accounts)[id].status == Active
      ensures r.Ok? ==>
                var t := Record(TxType.Credit, old(accounts)[id], amount.value, now);
                && t.newBalance == old(accounts)[id].balance + amount.value
                && log == old(log) + [t]
                && opening == old(opening) && entries == old(entries)[id := old(entries)[id] + [t]]
                && id in accounts && accounts == old(accounts)[id := accounts[id]]
                && SavedForm(old(accounts)[id].(balance := t.newBalance), accounts[id], NumbersOf(old(accounts)))
                && r.value == MovementReply(|old(log)|, accounts[id].accountNumber, amount.value, None,
                                            TxType.Credit, accounts[id].balance)
                && r.value.accountBalance == t.newBalance
    {
      var g := Guard("staff", c);
      if g.Deny? {
        return Fail(g.code, g.message);
      }
      if !AmountValid(amount) {
        return Fail(BadRequest, AmountMessage);
      }
      if id !in accounts || accounts[id].status != Active {
        return Fail(BadRequest, NotActiveMessage);
      }
      var a := amount.value;
      var account := accounts[id];
      var t := Record(TxType.Credit, account, a, now);
      var txId := |log|;
      var saved := Post(id, t);
      r := Ok(MovementReply(txId, saved.accountNumber, a, None, TxType.Credit, saved.balance));
    }

    /** `GET /transactions/:accountId/transactions`: the records carrying the account's
        number, for its owner or a staff caller. */
    function History(c: Credentials, id: AccountId): (r: Reply<seq<Transaction>>)
      reads this
      ensures Authenticate(c).Deny? ==> r == Fail(Authenticate(c).code, Authenticate(c).message)
      ensures Authenticate(c).Pass? && id !in accounts ==> r == Fail(NotFound, AccountNotFound)
      ensures Authenticate(c).Pass? && id in accounts && Authenticate(c).value.None? ==> r.Unhandled?
      ensures Authenticate(c).Pass? && id in accounts && Authenticate(c).value.Some?
              && !MayView(Authenticate(c).value.value, accounts[id].owner)
              ==> r == Fail(Forbidden, ForbiddenMessage)
      ensures r.Ok? <==> Authenticate(c).Pass? && id in accounts && Authenticate(c).value.Some?
                         && (accounts[id].owner == Authenticate(c).value.value.id || Authenticate(c).value.value.role == Staff)
      ensures r.Ok? ==> r.value == RecordsOf(log, accounts[id].accountNumber)
    {
      match Authenticate(c)
      case Deny(code, msg) => Fail(code, msg)
      case Pass(caller) =>
        if id !in accounts then Fail(NotFound, AccountNotFound)
        else if caller.None? then Unhandled("req.user is null")
        else if !MayView(caller.value, accounts[id].owner) then Fail(Forbidden, ForbiddenMessage)
        else Ok(RecordsOf(log, accounts[id].accountNumber))
    }

    /** `GET /transactions/:transactionId`: the record, reachable only while an account
        carries its number, for that account's owner or a staff caller. */
    method GetTransaction(c: Credentials, txId: nat) returns (r: Reply<Transaction>)
      requires Valid()
      ensures Authenticate(c).Deny? ==> r == Fail(Authenticate(c).code, Authenticate(c).message)
      ensures Authenticate(c).Pass? && txId >= |log| ==> r == Fail(NotFound, TransactionNotFound)
      ensures Authenticate(c).Pass? && txId < |log| && log[txId].accountNumber !in NumbersOf(accounts)
              ==> r == Fail(NotFound, AccountNotFound)
      ensures Authenticate(c).Pass? && txId < |log| && Authenticate(c).value.Some?
              && log[txId].accountNumber in NumbersOf(accounts)
              && (forall k :: k in accounts && accounts[k].accountNumber == log[txId].accountNumber
                              ==> !MayView(Authenticate(c).value.value, accounts[k].owner))
              ==> r == Fail(Forbidden, ForbiddenMessage)
      ensures Authenticate(c).Pass? && txId < |log| && log[txId].accountNumber in NumbersOf(accounts)
              && Authenticate(c).value.None?
              ==> r.Unhandled?
      ensures r.Ok? <==> Authenticate(c).Pass? && txId < |log| && Authenticate(c).value.Some?
                         && exists k :: k in accounts && accounts[k].accountNumber == log[txId].accountNumber
                                        && MayView(Authenticate(c).value.value, accounts[k].owner)
      ensures r.Ok? ==> r.value == log[txId]
    {
      var auth := Authenticate(c);
      if auth.Deny? {
        return Fail(auth.code, auth.message);
      }
      if txId >= |log| {
        return Fail(NotFound, TransactionNotFound);
      }
      var t := log[txId];
      var found := FindByNumber(t.accountNumber);
      if found.None? {
        return Fail(NotFound, AccountNotFound);
      }
      if auth.value.None? {
        return Unhandled("req.user is null");
      }
      var k := found.value;
      if !MayView(auth.value.value, accounts[k].owner) {
        return Fail(Forbidden, ForbiddenMessage);
      }
      r := Ok(t);
    }

    /** The balance of every account is the new balance of the last record written for
        it, or its opening balance when there is none, and it is the opening balance
        plus the net movement of those records. */
    lemma BalanceTracesEntries(k: AccountId)
      requires Valid() && k in accounts
      ensures accounts[k].balance == if entries[k] == [] then opening[k] else entries[k][|entries[k]| - 1].newBalance
      ensures accounts[k].balance == opening[k] + Net(entries[k])
      ensures forall t :: t in entries[k] ==> t in log
    {
      ChainEnd(opening[k], entries[k], accounts[k].balance);
    }
  }

  /** The body of an opening that chooses its own status. */
  const ActiveOpening := CreateBody(Some("savings"), Some(0), None, Some("active"), None)

  /** On an empty store a client opens an account, choosing the status `active` in the
      body: it is active at once, with the first account number. */
  method OpenActive(first: Credentials) returns (bank: Bank)
    requires Authenticate(first).Pass? && Authenticate(first).value.Some?
    ensures fresh(bank) && bank.Valid() && bank.log == [] && bank.nextId == 1 && bank.accounts.Keys == {0}
    ensures bank.accounts[0].accountNumber == FirstAccountNumber
    ensures bank.accounts[0].status == Active && bank.accounts[0].balance == 0
    ensures bank.opening[0] == 0 && bank.entries[0] == []
  {
    assert CreateCheck(ActiveOpening) == None && ParseStatus("active") == Some(Active);
    bank := new Bank();
    assert NumbersOf(bank.accounts) == {};
    var made := bank.Create(first, ActiveOpening, 0);
  }

  /** A cashier who is staff credits that account. */
  method OpenAndCredit(first: Credentials, cashier: Credentials, amount: int) returns (bank: Bank)
    requires Authenticate(first).Pass? && Authenticate(first).value.Some?
    requires Guard("staff", cashier).Pass? && amount >= MinAmount
    ensures fresh(bank) && bank.Valid() && bank.nextId == 1 && bank.accounts.Keys == {0}
    ensures bank.accounts[0].accountNumber == FirstAccountNumber
    ensures bank.accounts[0].status == Active && bank.accounts[0].balance == amount
    ensures bank.log == [Transaction(1, TxType.Credit, FirstAccountNumber, None, amount, 0, amount)]
    ensures bank.entries[0] == bank.log
  {
    bank := OpenActive(first);
    var t := Record(TxType.Credit, bank.accounts[0], amount, 1);
    assert t == Transaction(1, TxType.Credit, FirstAccountNumber, None, amount, 0, amount);
    var credit := bank.Credit(cashier, 0, Some(amount), 1);
    assert bank.log == [] + [t];
  }

  /** Debiting exactly the balance succeeds and leaves 0. */
  method DebitWholeBalance(first: Credentials, cashier: Credentials, amount: int) returns (bank: Bank)
    requires Authenticate(first).Pass? && Authenticate(first).value.Some?
    requires Guard("staff", cashier).Pass? && amount >= MinAmount
    ensures fresh(bank) && bank.Valid() && bank.accounts.Keys == {0} && bank.accounts[0].balance == 0
    ensures |bank.log| == 2 && bank.log[1] == Transaction(2, TxType.Debit, FirstAccountNumber, None, amount, amount, 0)
  {
    bank := OpenAndCredit(first, cashier, amount);
    assert Record(TxType.Debit, bank.accounts[0], amount, 2)
        == Transaction(2, TxType.Debit, FirstAccountNumber, None, amount, amount, 0);
    var debit := bank.Debit(cashier, 0, Some(amount), 2);
  }

  /** The same cashier, who is also an admin, then deletes the account: the store is
      empty again and the log keeps the credit. */
  method OpenCreditDelete(first: Credentials, cashier: Credentials, amount: int) returns (bank: Bank)
    requires Authenticate(first).Pass? && Authenticate(first).value.Some?
    requires Guard("staff", cashier).Pass? && Guard("admin", cashier).Pass?
    requires amount >= MinAmount
    ensures fresh(bank) && bank.Valid() && bank.accounts == map[] && bank.nextId == 1
    ensures bank.log == [Transaction(1, TxType.Credit, FirstAccountNumber, None, amount, 0, amount)]
  {
    bank := OpenAndCredit(first, cashier, amount);
    assert FirstAccountNumber in NumbersOf(bank.accounts);
    var gone := bank.Delete(cashier, FirstAccountNumber);
  }

  /** Account numbers are reused and records follow numbers, not accounts: after
      `OpenCreditDelete`, the next account, opened by another client, gets the same
      number and shows the first client's credit as its own history. */
  method ReusedNumberInheritsHistory(first: Credentials, cashier: Credentials, second: Credentials, amount: int)
    returns (inherited: seq<Transaction>)
    requires Authenticate(first).Pass? && Authenticate(first).value.Some?
    requires Guard("staff", cashier).Pass? && Guard("admin", cashier).Pass?
    requires Authenticate(second).Pass? && Authenticate(second).value.Some?
    requires amount >= MinAmount
    ensures inherited == [Transaction(1, TxType.Credit, FirstAccountNumber, None, amount, 0, amount)]
  {
    var bank := OpenCreditDelete(first, cashier, amount);
    assert CreateCheck(ActiveOpening) == None && ParseStatus("active") == Some(Active);
    assert NumbersOf(bank.accounts) == {};
    var again := bank.Create(second, ActiveOpening, 2);
    assert bank.accounts.Keys == {1} && bank.accounts[1].accountNumber == FirstAccountNumber;
    var history := bank.History(second, 1);
    assert history.Ok?;
    inherited := history.value;
    assert bank.log == [Transaction(1, TxType.Credit, FirstAccountNumber, None, amount, 0, amount)];
    assert bank.log == [] + [bank.log[0]];
    RecordsOfAppend([], bank.log[0], FirstAccountNumber);
  }
}
