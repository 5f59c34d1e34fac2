/** The Transaction record (banka/backend/models/Transaction.js) and the facts about a
    log of them: what one record promises, how records of one account chain
    together, and the filter by account number. */
module TransactionModel {
  import opened Common
  import opened UserModel

  datatype TxType = Credit | Debit

  /** A record refers to its account by `accountNumber`, not by the account's id;
      `cashier` is an optional reference to a user. */
  datatype Transaction = Transaction(
    createdOn: int,
    transactionType: TxType,
    accountNumber: int,
    cashier: Option<UserId>,
    amount: int,
    oldBalance: int,
    newBalance: int)

  /** The signed movement a record stands for. */
  function Movement(t: Transaction): int {
    match t.transactionType
    case Credit => t.amount
    case Debit => -t.amount
  }

  /** A record whose snapshots differ by its amount, in the direction of its type. */
  predicate Sound(t: Transaction) {
    t.newBalance == t.oldBalance + Movement(t)
  }

  /** The records `rs` of one account, in order, take its balance from `start` to
      `end`: each record's old balance is the previous record's new balance. */
  predicate Chain(start: int, rs: seq<Transaction>, end: int)
    decreases |rs|
  {
    if rs == [] then start == end
    else Sound(rs[0]) && rs[0].oldBalance == start && Chain(rs[0].newBalance, rs[1..], end)
  }

  function Net(rs: seq<Transaction>): int
    decreases |rs|
  {
    if rs == [] then 0 else Movement(rs[0]) + Net(rs[1..])
  }

  /** Appending a sound record that starts where the chain ends extends the chain. */
  lemma {:induction false} ChainAppend(start: int, rs: seq<Transaction>, end: int, t: Transaction)
    requires Chain(start, rs, end) && Sound(t) && t.oldBalance == end
    ensures Chain(start, rs + [t], t.newBalance)
    decreases |rs|
  {
    if rs == [] {
      assert rs + [t] == [t];
      assert [t][1..] == [];
    } else {
      ChainAppend(rs[0].newBalance, rs[1..], end, t);
      assert (rs + [t])[1..] == rs[1..] + [t];
    }
  }

  /** The balance a chain reaches is the new balance of its last record, or the starting
      balance when there is no record, and it is the start plus the net movement. */
  lemma {:induction false} ChainEnd(start: int, rs: seq<Transaction>, end: int)
    requires Chain(start, rs, end)
    ensures end == if rs == [] then start else rs[|rs| - 1].newBalance
    ensures end == start + Net(rs)
    decreases |rs|
  {
    if rs != [] {
      ChainEnd(rs[0].newBalance, rs[1..], end);
    }
  }

  /** `Transaction.find({ accountNumber: n })`: the records of the log with number `n`,
      in log order. */
  function RecordsOf(log: seq<Transaction>, n: int): (r: seq<Transaction>)
    ensures |r| <= |log|
    ensures forall t :: t in r <==> t in log && t.accountNumber == n
    decreases |log|
  {
    if log == [] then []
    else
      var init := log[..|log| - 1];
      var last := log[|log| - 1];
      assert forall t :: t in log <==> t in init || t == last;
      RecordsOf(init, n) + if last.accountNumber == n then [last] else []
  }

  /** Appending one record extends the history of its own number by that record
      and leaves every other number's history as it was. */
  lemma RecordsOfAppend(log: seq<Transaction>, t: Transaction, n: int)
    ensures RecordsOf(log + [t], n) == RecordsOf(log, n) + if t.accountNumber == n then [t] else []
  {
    assert (log + [t])[..|log|] == log;
  }

  /** The filter keeps every copy of a matching record: a record occurs in the history
      of its own number as often as in the log, and in no other history. */
  lemma {:induction false} RecordsOfCount(log: seq<Transaction>, n: int, t: Transaction)
    ensures multiset(RecordsOf(log, n))[t] == if t.accountNumber == n then multiset(log)[t] else 0
    decreases |log|
  {
    if log != [] {
      var init := log[..|log| - 1];
      var last := log[|log| - 1];
      assert log == init + [last];
      RecordsOfCount(init, n, t);
    }
  }

  /** The history of a number no record carries is empty. */
  lemma {:induction false} RecordsOfUnused(log: seq<Transaction>, n: int)
    requires forall i :: 0 <= i < |log| ==> log[i].accountNumber != n
    ensures RecordsOf(log, n) == []
    decreases |log|
  {
    if log != [] {
      RecordsOfUnused(log[..|log| - 1], n);
    }
  }
}
