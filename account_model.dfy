/** The Account record (banka/backend/models/Account.js): fields, enums, defaults and
    the account number that the pre-save hook allocates. Money is in integer cents. */
module AccountModel {
  import opened Common
  import opened UserModel

  /** Stands for an account document's ObjectId. */
  type AccountId = nat

  datatype AccountType = Savings | Current
  datatype Status = Active | Dormant | Pending

  function TypeName(t: AccountType): string {
    match t
    case Savings => "savings"
    case Current => "current"
  }

  function StatusName(s: Status): string {
    match s
    case Active => "active"
    case Dormant => "dormant"
    case Pending => "pending"
  }

  /** The `type` enum: exactly the two names parse, each back to its own value. */
  function ParseType(s: string): (r: Option<AccountType>)
    ensures r.Some? <==> s == "savings" || s == "current"
    ensures r.Some? ==> TypeName(r.value) == s
  {
    if s == "savings" then Some(Savings)
    else if s == "current" then Some(Current)
    else None
  }

  /** The `status` enum: exactly the three names parse, each back to its own value. */
  function ParseStatus(s: string): (r: Option<Status>)
    ensures r.Some? <==> s == "active" || s == "dormant" || s == "pending"
    ensures r.Some? ==> StatusName(r.value) == s
  {
    if s == "active" then Some(Active)
    else if s == "dormant" then Some(Dormant)
    else if s == "pending" then Some(Pending)
    else None
  }

  lemma ParseNames(t: AccountType, s: Status)
    ensures ParseType(TypeName(t)) == Some(t)
    ensures ParseStatus(StatusName(s)) == Some(s)
  {
  }

  /** The schema's `type` field is `accountType` here. `accountNumber` is 0 while the record has none (0 is falsy, like a missing number). */
  datatype Account = Account(
    accountNumber: int,
    createdOn: int,
    owner: UserId,
    accountType: AccountType,
    status: Status,
    balance: int)

  /** A new record built from the fields it is given: the defaults are type savings,
      status pending and balance 0; no account number until it is saved. */
  function NewAccount(owner: UserId, createdOn: int, number: Option<int>, accountType: Option<AccountType>,
                      status: Option<Status>, balance: Option<int>): (a: Account)
    ensures accountType == None ==> a.accountType == Savings
    ensures status == None ==> a.status == Pending
    ensures balance == None ==> a.balance == 0
    ensures number == None ==> a.accountNumber == 0
    ensures accountType.Some? ==> a.accountType == accountType.value
    ensures status.Some? ==> a.status == status.value
    ensures balance.Some? ==> a.balance == balance.value
    ensures number.Some? ==> a.accountNumber == number.value
    ensures a.owner == owner && a.createdOn == createdOn
  {
    Account(match number case Some(n) => n case None => 0,
            createdOn, owner,
            match accountType case Some(t) => t case None => Savings,
            match status case Some(s) => s case None => Pending,
            match balance case Some(b) => b case None => 0)
  }

  const FirstAccountNumber := 100000000

  /** `next` is the number the pre-save hook gives a record that has none, given the
      numbers `nums` in the store: one more than the largest of them, or 100000000
      when the store is empty. */
  ghost predicate IsNextNumber(nums: set<int>, next: int) {
    && (forall n :: n in nums ==> n < next)
    && (nums == {} ==> next == FirstAccountNumber)
    && (nums != {} ==> next - 1 in nums)
  }

  /** The allocation is a function of the numbers in use. */
  lemma NextNumberUnique(nums: set<int>, a: int, b: int)
    requires IsNextNumber(nums, a) && IsNextNumber(nums, b)
    ensures a == b
  {
    if nums != {} {
      assert a - 1 in nums && b - 1 in nums;
    }
  }

  /** Allocation is monotone: a store holding more numbers never gets a smaller next number. */
  lemma NextNumberMonotone(small: set<int>, large: set<int>, a: int, b: int)
    requires small <= large && small != {}
    requires IsNextNumber(small, a) && IsNextNumber(large, b)
    ensures a <= b
  {
    assert a - 1 in large;
  }

  /** Numbers are not kept aside after a delete: when the record holding the largest
      number goes and the number just below it is still in use (or the store becomes
      empty and that record held the first number), the next record gets the same
      number again. */
  lemma TopNumberIsReused(nums: set<int>, top: int, next: int)
    requires top in nums && forall n :: n in nums ==> n <= top
    requires top - 1 in nums || (nums == {top} && top == FirstAccountNumber)
    requires IsNextNumber(nums - {top}, next)
    ensures next == top
  {
    var rest := nums - {top};
    if top - 1 in nums {
      assert top - 1 in rest;
      assert next - 1 in rest;
    } else {
      assert rest == {};
    }
  }

  /** The pre-save hook relates the record before and after a save: a record without
      a number (0) is given the next number for `nums`, any other record keeps its
      number; nothing else changes. */
  ghost predicate SavedForm(before: Account, after: Account, nums: set<int>) {
    if before.accountNumber == 0 then
      after == before.(accountNumber := after.accountNumber) && IsNextNumber(nums, after.accountNumber)
    else
      after == before
  }
}
