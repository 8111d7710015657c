/**
 * The account object of the ATM (the class `ATM` of the original): an
 * account number fixed at creation, a PIN, a balance and an append-only
 * transaction log, the last three updated in place by the operations.
 */
module Accounts {
  import opened Ledger

  class Account {
    const number: string
    var pin: string
    var balance: real
    var history: seq<Transaction>

    /** The balance the account was opened with. */
    ghost const opening: real

    /**
     * The object invariant: the log explains the balance, and an account
     * opened with a non-negative balance never goes below zero.
     */
    ghost predicate Valid()
      reads this
    {
      && balance == opening + Net(history)
      && (opening >= 0.0 ==> balance >= 0.0)
    }

    /** The PIN, balance and log as one value. */
    function State(): Snapshot
      reads this
    {
      Snapshot(pin, balance, history)
    }

    /** Opens an account; the balance defaults to zero and the log starts empty. */
    constructor (number: string, pin: string, balance: real := 0.0)
      ensures Valid()
      ensures this.number == number && this.pin == pin && this.balance == balance
      ensures history == [] && opening == balance
    {
      this.number := number;
      this.pin := pin;
      this.balance := balance;
      this.history := [];
      this.opening := balance;
    }

    /** Whether the PIN typed at the terminal is the account's PIN. */
    function CheckPin(entered: string): (ok: bool)
      reads this
      ensures ok <==> entered == pin
    {
      entered == pin
    }

    /** The current balance, which the log accounts for in full. */
    function GetBalance(): (b: real)
      reads this
      ensures b == State().balance
      ensures Valid() ==> b == opening + Net(history)
      ensures Valid() && opening >= 0.0 ==> b >= 0.0
    {
      balance
    }

    /** The transaction log, oldest entry first; reading it changes nothing. */
    function GetTransactionHistory(): (h: seq<Transaction>)
      reads this
      ensures h == State().history
      ensures Valid() ==> opening + Net(h) == balance
    {
      history
    }

    /**
     * Takes `amount` out of the account when it is positive and covered by
     * the balance, logging one withdrawal; otherwise refuses and changes
     * nothing.
     */
    method Withdraw(amount: real) returns (ok: bool)
      requires Valid()
      modifies this
      ensures Valid()
      ensures ok <==> 0.0 < amount <= old(balance)
      ensures balance == if ok then old(balance) - amount else old(balance)
      ensures history == if ok then old(history) + [Withdrawal(amount)] else old(history)
      ensures pin == old(pin)
      ensures State() == Apply(old(State()), CashWithdrawal(amount))
    {
      if 0.0 < amount && amount <= balance {
        NetSnoc(history, Withdrawal(amount));
        balance := balance - amount;
        history := history + [Withdrawal(amount)];
        ok := true;
      } else {
        ok := false;
      }
    }

    /**
     * Adds `amount` to the account when it is positive, logging one
     * deposit; otherwise refuses and changes nothing.
     */
    method Deposit(amount: real) returns (ok: bool)
      requires Valid()
      modifies this
      ensures Valid()
      ensures ok <==> 0.0 < amount
      ensures balance == if ok then old(balance) + amount else old(balance)
      ensures history == if ok then old(history) + [Ledger.Deposit(amount)] else old(history)
      ensures pin == old(pin)
      ensures State() == Apply(old(State()), CashDeposit(amount))
    {
      if 0.0 < amount {
        NetSnoc(history, Ledger.Deposit(amount));
        balance := balance + amount;
        history := history + [Ledger.Deposit(amount)];
        ok := true;
      } else {
        ok := false;
      }
    }

    /**
     * Replaces the PIN, without any check on the new one, and logs the
     * change; from then on only the new PIN is accepted.
     */
    method ChangePin(newPin: string)
      requires Valid()
      modifies this
      ensures Valid()
      ensures pin == newPin
      ensures forall p :: CheckPin(p) <==> p == newPin
      ensures balance == old(balance)
      ensures history == old(history) + [PinChanged]
      ensures State() == Apply(old(State()), PinChangeTo(newPin))
    {
      NetSnoc(history, PinChanged);
      pin := newPin;
      history := history + [PinChanged];
    }
  }
}
