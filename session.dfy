/**
 * The ATM session (the function `atm_simulation` of the original): look the
 * account number up in the directory, allow at most three PIN entries, and
 * then serve menu choices until the customer exits.
 *
 * The console is abstracted away: what the customer types arrives as
 * already-read values (the account number, the sequence of PINs typed, the
 * sequence of menu requests with their amounts already parsed), and what
 * the original prints is returned as a `Reply` that says which message
 * would be shown and with which figures.
 */
module Session {
  import opened Ledger
  import opened Accounts

  /** The number of PIN entries allowed before the account is locked. */
  const MaxAttempts: nat := 3

  /** The choice that ends the menu loop. */
  const Exit: string := "6"

  datatype Option<T> = None | Some(value: T)

  /** How the log-in phase of a session ends. */
  datatype LoginResult =
    | UnknownAccount            // the number is not in the directory; no PIN was read
    | Verified(attempts: nat)   // the PIN typed at entry `attempts` (counting from 1) was right
    | Locked                    // three wrong PINs in a row
    | InputEnded(attempts: nat) // the input ran out after `attempts` wrong PINs

  /**
   * The PIN entries from number `k` on (counting from 0) against the stored
   * `pin`, stopping at the first match, after the third entry, or when the
   * input runs out.
   */
  function Attempts(pin: string, entered: seq<string>, k: nat): (r: LoginResult)
    requires k <= MaxAttempts && k <= |entered|
    decreases MaxAttempts - k
    ensures !r.UnknownAccount?
    ensures r.Verified? <==> exists j :: k <= j < MaxAttempts && j < |entered| && entered[j] == pin
    ensures r.Verified? ==> && k < r.attempts <= MaxAttempts && r.attempts <= |entered|
                            && entered[r.attempts - 1] == pin
                            && forall j :: k <= j < r.attempts - 1 ==> entered[j] != pin
    ensures r.Locked? <==> MaxAttempts <= |entered| && forall j :: k <= j < MaxAttempts ==> entered[j] != pin
    ensures r.InputEnded? ==> && r.attempts == |entered| < MaxAttempts
                              && forall j :: k <= j < |entered| ==> entered[j] != pin
  {
    if k == MaxAttempts then Locked
    else if k == |entered| then InputEnded(k)
    else if entered[k] == pin then Verified(k + 1)
    else Attempts(pin, entered, k + 1)
  }

  /**
   * The outcome of logging in to account `number` with the PINs `entered`:
   * an unknown number is refused before any PIN is read; otherwise the
   * session is verified exactly when one of the first three PINs typed is
   * the account's PIN, and locked when all three are wrong.
   */
  function LoginOutcome(directory: map<string, Account>, number: string, entered: seq<string>): (r: LoginResult)
    reads directory.Values
    ensures r.UnknownAccount? <==> number !in directory
    ensures r.Verified? <==> (number in directory &&
      exists j :: 0 <= j < MaxAttempts && j < |entered| && entered[j] == directory[number].pin)
    ensures r.Verified? ==> && 0 < r.attempts <= MaxAttempts && r.attempts <= |entered|
                            && entered[r.attempts - 1] == directory[number].pin
                            && forall j :: 0 <= j < r.attempts - 1 ==> entered[j] != directory[number].pin
    ensures r.Locked? <==> && number in directory && MaxAttempts <= |entered|
                           && forall j :: 0 <= j < MaxAttempts ==> entered[j] != directory[number].pin
  {
    if number !in directory then UnknownAccount
    else Attempts(directory[number].pin, entered, 0)
  }

  /** The log-in phase as the original runs it: a look-up, then a bounded loop of PIN checks. */
  method Login(directory: map<string, Account>, number: string, entered: seq<string>) returns (r: LoginResult)
    ensures r == LoginOutcome(directory, number, entered)
  {
    if number !in directory {
      return UnknownAccount;
    }
    var account := directory[number];
    for attempt := 0 to MaxAttempts
      invariant attempt <= |entered|
      invariant Attempts(account.pin, entered, attempt) == Attempts(account.pin, entered, 0)
    {
      if attempt == |entered| {
        return InputEnded(attempt);
      }
      if account.CheckPin(entered[attempt]) {
        return Verified(attempt + 1);
      }
    }
    return Locked;
  }

  /**
   * One line typed at the menu, with what is typed after it: `amount` is
   * the already-parsed amount that follows choice "2" or "3", `newPin` the
   * line that follows choice "4"; each is ignored by every other choice.
   */
  datatype Request = Request(choice: string, amount: real, newPin: string)

  /** Which message the ATM shows in answer to one request. */
  datatype Reply =
    | ShowBalance(balance: real)
    | WithdrawalDone(newBalance: real)
    | WithdrawalRefused
    | DepositDone(newBalance: real)
    | DepositRefused
    | PinChangeDone
    | ShowHistory(entries: seq<Transaction>)
    | NoHistory
    | Farewell
    | InvalidChoice

  /** The menu choices the ATM understands. */
  const Choices: set<string> := {"1", "2", "3", "4", "5", "6"}

  /** The account operation a request asks for, if any. */
  function Operation(q: Request): Option<Op> {
    if q.choice == "2" then Some(CashWithdrawal(q.amount))
    else if q.choice == "3" then Some(CashDeposit(q.amount))
    else if q.choice == "4" then Some(PinChangeTo(q.newPin))
    else None
  }

  /**
   * One pass of the menu loop: the new account state and the reply.
   * Only choices 2, 3 and 4 change the account, and they change it exactly
   * as the ledger operation they ask for; an unknown choice is a no-op
   * answered with an error message.
   */
  function Step(s: Snapshot, q: Request): (r: (Snapshot, Reply))
    ensures r.0 == if Operation(q).Some? then Apply(s, Operation(q).value) else s
    ensures r.1 == InvalidChoice <==> q.choice !in Choices
    ensures r.1 == Farewell <==> q.choice == Exit
    ensures r.1.WithdrawalDone? || r.1.DepositDone? ==> r.1.newBalance == r.0.balance
    ensures (r.1 == WithdrawalRefused || r.1 == DepositRefused) ==> r.0 == s
    ensures r.1.ShowHistory? ==> r.1.entries == s.history != []
    ensures q.choice == "1" ==> r.1 == ShowBalance(s.balance)
    ensures r.1.WithdrawalDone? <==> q.choice == "2" && Accepts(s.balance, CashWithdrawal(q.amount))
    ensures r.1.DepositDone? <==> q.choice == "3" && Accepts(s.balance, CashDeposit(q.amount))
    ensures q.choice == "2" ==> r.1.WithdrawalDone? || r.1 == WithdrawalRefused
    ensures q.choice == "3" ==> r.1.DepositDone? || r.1 == DepositRefused
    ensures q.choice == "4" ==> r.1 == PinChangeDone
    ensures q.choice == "5" ==> (r.1.ShowHistory? || r.1 == NoHistory) && (r.1 == NoHistory <==> s.history == [])
  {
    if q.choice == "1" then (s, ShowBalance(s.balance))
    else if q.choice == "2" then
      var t := Apply(s, CashWithdrawal(q.amount));
      (t, if Accepts(s.balance, CashWithdrawal(q.amount)) then WithdrawalDone(t.balance) else WithdrawalRefused)
    else if q.choice == "3" then
      var t := Apply(s, CashDeposit(q.amount));
      (t, if Accepts(s.balance, CashDeposit(q.amount)) then DepositDone(t.balance) else DepositRefused)
    else if q.choice == "4" then (Apply(s, PinChangeTo(q.newPin)), PinChangeDone)
    else if q.choice == "5" then (s, if s.history != [] then ShowHistory(s.history) else NoHistory)
    else if q.choice == Exit then (s, Farewell)
    else (s, InvalidChoice)
  }

  /**
   * The menu loop over the requests typed, up to and including the first
   * exit; when the input ends without an exit the loop ends there too.
   */
  function Serve(s: Snapshot, qs: seq<Request>): (r: (Snapshot, seq<Reply>))
    decreases |qs|
  {
    if qs == [] then (s, [])
    else
      var (t, reply) := Step(s, qs[0]);
      if qs[0].choice == Exit then (t, [reply])
      else
        var (u, replies) := Serve(t, qs[1..]);
        (u, [reply] + replies)
  }

  /** One pass of the menu loop that is not an exit, followed by the rest of the loop. */
  lemma ServeUnfold(s: Snapshot, qs: seq<Request>)
    requires qs != [] && qs[0].choice != Exit
    ensures Serve(s, qs) == (Serve(Step(s, qs[0]).0, qs[1..]).0, [Step(s, qs[0]).1] + Serve(Step(s, qs[0]).0, qs[1..]).1)
  {
  }

  /** The ledger operations asked for by the requests the menu loop serves. */
  function Operations(qs: seq<Request>): seq<Op>
    decreases |qs|
  {
    if qs == [] then []
    else
      var here := if Operation(qs[0]).Some? then [Operation(qs[0]).value] else [];
      if qs[0].choice == Exit then here else here + Operations(qs[1..])
  }

  /** The menu loop changes the account exactly as running its operations through the ledger does. */
  lemma {:induction false} ServeFollowsLedger(s: Snapshot, qs: seq<Request>)
    ensures Serve(s, qs).0 == Run(s, Operations(qs))
    decreases |qs|
  {
    if qs != [] {
      var q := qs[0];
      var t := Step(s, q).0;
      if q.choice == Exit {
        assert Operation(q) == None;
        assert Operations(qs) == [];
      } else {
        ServeUnfold(s, qs);
        ServeFollowsLedger(t, qs[1..]);
        if Operation(q).Some? {
          var op := Operation(q).value;
          assert Operations(qs) == [op] + Operations(qs[1..]);
          assert Operations(qs)[1..] == Operations(qs[1..]);
          assert Run(s, Operations(qs)) == Run(Apply(s, op), Operations(qs[1..]));
        } else {
          assert Operations(qs) == Operations(qs[1..]);
        }
      }
    }
  }

  /** With the first exit at request `i`, the loop serves requests 0 to `i`, one reply each, the farewell last. */
  lemma {:induction false} ServeRepliesOncePerRequest(s: Snapshot, qs: seq<Request>, i: nat)
    requires i < |qs| && qs[i].choice == Exit
    requires forall j :: 0 <= j < i ==> qs[j].choice != Exit
    ensures |Serve(s, qs).1| == i + 1
    ensures Serve(s, qs).1[i] == Farewell
    ensures forall j :: 0 <= j < i ==> Serve(s, qs).1[j] != Farewell
    ensures Serve(s, qs) == Serve(s, qs[..i + 1])
    decreases i
  {
    if i > 0 {
      var t := Step(s, qs[0]).0;
      assert qs[0].choice != Exit;
      forall j | 0 <= j < i - 1 ensures qs[1..][j].choice != Exit {
        assert qs[1..][j] == qs[j + 1];
      }
      ServeRepliesOncePerRequest(t, qs[1..], i - 1);
      assert qs[1..][..i] == qs[..i + 1][1..];
    } else {
      assert qs[..1] == [qs[0]];
      assert qs[..1][1..] == [];
    }
  }

  /** Without an exit, every request typed is served and gets exactly one reply, none of them a farewell. */
  lemma {:induction false} ServeWithoutExit(s: Snapshot, qs: seq<Request>)
    requires forall j :: 0 <= j < |qs| ==> qs[j].choice != Exit
    ensures |Serve(s, qs).1| == |qs|
    ensures forall j :: 0 <= j < |qs| ==> Serve(s, qs).1[j] != Farewell
    decreases |qs|
  {
    if qs != [] {
      forall j | 0 <= j < |qs| - 1 ensures qs[1..][j].choice != Exit {
        assert qs[1..][j] == qs[j + 1];
      }
      ServeUnfold(s, qs);
      ServeWithoutExit(Step(s, qs[0]).0, qs[1..]);
    }
  }

  /** No session can drive a non-negative balance below zero. */
  lemma SessionKeepsBalanceNonNegative(s: Snapshot, qs: seq<Request>)
    requires s.balance >= 0.0
    ensures Serve(s, qs).0.balance >= 0.0
  {
    ServeFollowsLedger(s, qs);
    RunKeepsBalanceNonNegative(s, Operations(qs));
  }

  /** A session only appends to the log, and what it appends accounts for the change of balance. */
  lemma SessionAppendsToLog(s: Snapshot, qs: seq<Request>)
    ensures s.history <= Serve(s, qs).0.history
    ensures Serve(s, qs).0.balance == s.balance + Net(Serve(s, qs).0.history[|s.history|..])
  {
    ServeFollowsLedger(s, qs);
    RunAppendOnly(s, Operations(qs));
    RunConservesBalance(s, Operations(qs));
  }

  /** One pass of the original's menu loop body, on the account object. */
  method Dispatch(account: Account, q: Request) returns (reply: Reply)
    requires account.Valid()
    modifies account
    ensures account.Valid()
    ensures (account.State(), reply) == Step(old(account.State()), q)
  {
    if q.choice == "1" {
      reply := ShowBalance(account.GetBalance());
    } else if q.choice == "2" {
      var ok := account.Withdraw(q.amount);
      reply := if ok then WithdrawalDone(account.GetBalance()) else WithdrawalRefused;
    } else if q.choice == "3" {
      var ok := account.Deposit(q.amount);
      reply := if ok then DepositDone(account.GetBalance()) else DepositRefused;
    } else if q.choice == "4" {
      account.ChangePin(q.newPin);
      reply := PinChangeDone;
    } else if q.choice == "5" {
      var h := account.GetTransactionHistory();
      reply := if h != [] then ShowHistory(h) else NoHistory;
    } else if q.choice == Exit {
      reply := Farewell;
    } else {
      reply := InvalidChoice;
    }
  }

  /** The menu loop as the original runs it, over the account found at log-in. */
  method MenuLoop(account: Account, requests: seq<Request>) returns (replies: seq<Reply>)
    requires account.Valid()
    modifies account
    ensures account.Valid()
    ensures (account.State(), replies) == Serve(old(account.State()), requests)
  {
    replies := [];
    var i := 0;
    assert requests[i..] == requests;
    assert Serve(account.State(), requests).1 == replies + Serve(account.State(), requests).1;
    while i < |requests|
      invariant 0 <= i <= |requests|
      invariant account.Valid()
      invariant Serve(old(account.State()), requests)
                == (Serve(account.State(), requests[i..]).0, replies + Serve(account.State(), requests[i..]).1)
    {
      var q := requests[i];
      ghost var before := account.State();
      var reply := Dispatch(account, q);
      assert requests[i..][0] == q && requests[i..][1..] == requests[i + 1..];
      if q.choice == Exit {
        assert Serve(before, requests[i..]) == (account.State(), [reply]);
        replies := replies + [reply];
        break;
      }
      ServeUnfold(before, requests[i..]);
      assert replies + ([reply] + Serve(account.State(), requests[i + 1..]).1)
             == (replies + [reply]) + Serve(account.State(), requests[i + 1..]).1;
      replies := replies + [reply];
      i := i + 1;
    }
    if i == |requests| {
      assert requests[i..] == [] && replies + [] == replies;
    }
  }

  /**
   * A whole session: log in, and serve the menu only when the PIN was
   * verified. A session that does not get past the log-in leaves every
   * account as it was.
   */
  method RunSession(directory: map<string, Account>, number: string, entered: seq<string>, requests: seq<Request>)
    returns (login: LoginResult, replies: seq<Reply>)
    requires number in directory ==> directory[number].Valid()
    modifies if number in directory then {directory[number]} else {}
    ensures login == old(LoginOutcome(directory, number, entered))
    ensures !login.Verified? ==> replies == [] && (number in directory ==> unchanged(directory[number]))
    ensures login.Verified? ==> && number in directory && directory[number].Valid()
                                && (directory[number].State(), replies) == Serve(old(directory[number].State()), requests)
  {
    login := Login(directory, number, entered);
    if !login.Verified? {
      return login, [];
    }
    replies := MenuLoop(directory[number], requests);
  }

  /** The sample accounts of the original, put through a short session. */
  method SampleSession()
  {
    var a := new Account("1234567890", "1234", 1000.0);
    var b := new Account("9876543210", "5678", 500.0);
    var directory := map["1234567890" := a, "9876543210" := b];

    var unknown := Login(directory, "0000000000", ["1234"]);
    assert unknown == UnknownAccount;

    var locked := Login(directory, "1234567890", ["1111", "2222", "3333", "1234"]);
    assert locked == Locked;

    var third := Login(directory, "1234567890", ["1111", "2222", "1234"]);
    assert third == Verified(3);

    var ok := a.Withdraw(200.0);
    assert ok && a.balance == 800.0 && a.history == [Withdrawal(200.0)];
    ok := a.Deposit(50.0);
    assert ok && a.balance == 850.0;
    ok := a.Withdraw(900.0);
    assert !ok && a.balance == 850.0 && |a.history| == 2;
    assert b.balance == 500.0;
  }
}
