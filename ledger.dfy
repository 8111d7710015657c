/**
 * The value-level view of one ATM account: its PIN, its balance and its
 * transaction log, and what each of the three account-changing operations
 * (cash withdrawal, cash deposit, PIN change) does to them.
 *
 * Amounts are exact `real`s: the binary floating point of the original is
 * not modelled. A log entry keeps the kind of transaction and its amount;
 * the timestamp and the formatted text of the original's log line are not
 * part of this model.
 */
module Ledger {

  /** One line of the transaction log. */
  datatype Transaction = Withdrawal(amount: real) | Deposit(amount: real) | PinChanged

  /** A request to change the account, as the menu issues it. */
  datatype Op = CashWithdrawal(amount: real) | CashDeposit(amount: real) | PinChangeTo(newPin: string)

  /** The mutable part of an account: PIN, balance and log. */
  datatype Snapshot = Snapshot(pin: string, balance: real, history: seq<Transaction>)

  /** The guard an operation checks before it changes anything. */
  predicate Accepts(balance: real, op: Op) {
    match op
    case CashWithdrawal(a) => 0.0 < a && a <= balance
    case CashDeposit(a) => 0.0 < a
    case PinChangeTo(_) => true
  }

  /** The log entry that an accepted operation appends. */
  function Record(op: Op): Transaction {
    match op
    case CashWithdrawal(a) => Withdrawal(a)
    case CashDeposit(a) => Deposit(a)
    case PinChangeTo(_) => PinChanged
  }

  /** What one log entry did to the balance. */
  function Delta(t: Transaction): real {
    match t
    case Withdrawal(a) => -a
    case Deposit(a) => a
    case PinChanged => 0.0
  }

  /** The net effect on the balance of every entry of a log. */
  function Net(h: seq<Transaction>): real {
    if h == [] then 0.0 else Net(h[..|h| - 1]) + Delta(h[|h| - 1])
  }

  lemma NetSnoc(h: seq<Transaction>, t: Transaction)
    ensures Net(h + [t]) == Net(h) + Delta(t)
  {
  }

  /** The net effect of two logs one after the other is the sum of their effects. */
  lemma {:induction false} NetAppend(h: seq<Transaction>, k: seq<Transaction>)
    ensures Net(h + k) == Net(h) + Net(k)
    decreases |k|
  {
    if k != [] {
      var k', t := k[..|k| - 1], k[|k| - 1];
      assert k == k' + [t];
      assert h + k == (h + k') + [t];
      NetSnoc(h + k', t);
      NetSnoc(k', t);
      NetAppend(h, k');
    } else {
      assert h + k == h;
    }
  }

  /**
   * One operation on the account. A withdrawal goes through when its
   * amount is positive and covered by the balance, a deposit when its
   * amount is positive, a PIN change always; an operation that goes
   * through appends exactly one log entry, one that is refused changes
   * nothing.
   */
  function Apply(s: Snapshot, op: Op): (r: Snapshot)
    ensures Accepts(s.balance, op) ==> r.history == s.history + [Record(op)]
    ensures !Accepts(s.balance, op) ==> r == s
    ensures r.pin == if op.PinChangeTo? then op.newPin else s.pin
    // the opening balance that the log explains never changes
    ensures r.balance - Net(r.history) == s.balance - Net(s.history)
    ensures s.balance >= 0.0 ==> r.balance >= 0.0
  {
    NetSnoc(s.history, Record(op));
    match op
    case CashWithdrawal(a) =>
      if 0.0 < a && a <= s.balance
      then s.(balance := s.balance - a, history := s.history + [Withdrawal(a)])
      else s
    case CashDeposit(a) =>
      if 0.0 < a
      then s.(balance := s.balance + a, history := s.history + [Deposit(a)])
      else s
    case PinChangeTo(p) =>
      s.(pin := p, history := s.history + [PinChanged])
  }

  /** A sequence of operations, applied in order. */
  function Run(s: Snapshot, ops: seq<Op>): Snapshot
    decreases |ops|
  {
    if ops == [] then s else Run(Apply(s, ops[0]), ops[1..])
  }

  /** A balance that starts non-negative stays non-negative, whatever is asked of the account. */
  lemma {:induction false} RunKeepsBalanceNonNegative(s: Snapshot, ops: seq<Op>)
    requires s.balance >= 0.0
    ensures Run(s, ops).balance >= 0.0
    decreases |ops|
  {
    if ops != [] {
      RunKeepsBalanceNonNegative(Apply(s, ops[0]), ops[1..]);
    }
  }

  /** The log is append-only: the old log is a prefix of the new one, and each operation adds at most one entry. */
  lemma {:induction false} RunAppendOnly(s: Snapshot, ops: seq<Op>)
    ensures s.history <= Run(s, ops).history
    ensures |Run(s, ops).history| <= |s.history| + |ops|
    decreases |ops|
  {
    if ops != [] {
      RunAppendOnly(Apply(s, ops[0]), ops[1..]);
    }
  }

  /** The balance after a run is the balance before it plus the net effect of the entries the run logged. */
  lemma {:induction false} RunConservesBalance(s: Snapshot, ops: seq<Op>)
    ensures |s.history| <= |Run(s, ops).history|
    ensures Run(s, ops).balance == s.balance + Net(Run(s, ops).history[|s.history|..])
    decreases |ops|
  {
    if ops != [] {
      var t := Apply(s, ops[0]);
      RunConservesBalance(t, ops[1..]);
      RunAppendOnly(s, ops);
      RunAppendOnly(t, ops[1..]);
      var h := Run(s, ops).history;
      assert h == s.history + h[|s.history|..];
      NetAppend(s.history, h[|s.history|..]);
      assert h == t.history + h[|t.history|..];
      NetAppend(t.history, h[|t.history|..]);
    }
  }

  /** After a run the PIN is the one set by the last PIN change, or the old PIN when there was none. */
  lemma {:induction false} RunPinIsLatest(s: Snapshot, ops: seq<Op>)
    ensures (forall i :: 0 <= i < |ops| ==> !ops[i].PinChangeTo?) ==> Run(s, ops).pin == s.pin
    ensures forall i :: 0 <= i < |ops| && ops[i].PinChangeTo? &&
                        (forall j :: i < j < |ops| ==> !ops[j].PinChangeTo?)
                        ==> Run(s, ops).pin == ops[i].newPin
    decreases |ops|
  {
    if ops != [] {
      var t := Apply(s, ops[0]);
      RunPinIsLatest(t, ops[1..]);
      forall i | 0 <= i < |ops| && ops[i].PinChangeTo? &&
                 (forall j :: i < j < |ops| ==> !ops[j].PinChangeTo?)
        ensures Run(s, ops).pin == ops[i].newPin
      {
        if i > 0 {
          assert ops[1..][i - 1] == ops[i];
          assert forall j :: i - 1 < j < |ops| - 1 ==> ops[1..][j] == ops[j + 1];
        } else {
          assert forall j :: 0 <= j < |ops| - 1 ==> ops[1..][j] == ops[j + 1];
        }
      }
      assert forall j :: 0 <= j < |ops| - 1 ==> ops[1..][j] == ops[j + 1];
    }
  }
}
