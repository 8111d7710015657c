# ATM simulation, modelled in Dafny

A model of a teaching-scale ATM program. An account (the Python class `ATM`)
holds an account number, a PIN, a balance and a transaction log. It offers a
PIN check, a balance read, cash withdrawal, cash deposit, PIN change and a
read of the log. A session (the function `atm_simulation`) looks an account
number up in a directory of accounts and allows at most three PIN entries.
After a correct PIN it serves menu choices 1 to 6 until the customer picks 6.

The project has three modules:

- `Ledger` (`ledger.dfy`): the account state as a value (`Snapshot`), a log
  entry (`Transaction`: `Withdrawal(amount)`, `Deposit(amount)`,
  `PinChanged`) and the three state-changing operations as one function
  `Apply`. `Run` folds `Apply` over a sequence of operations. The lemmas
  about `Run` hold for any sequence of operations.
- `Accounts` (`account.dfy`): the class `Account`. Its methods update `pin`,
  `balance` and `history` in place, as the original does. Each method is
  tied to `Ledger.Apply`. The object invariant `Valid()` says two things.
  The balance equals the opening balance plus the net effect of the log.
  An account opened with a non-negative balance stays non-negative.
- `Session` (`session.dfy`): the log-in rule as a function (`LoginOutcome`)
  and as the original's bounded loop (`Login`). One menu pass is a function
  (`Step`), the menu loop is a function (`Serve`) and the original's
  `while True` loop is a method (`MenuLoop`, with its body in `Dispatch`).
  `RunSession` puts the two phases together.

Amounts are exact `real` numbers. The source uses Python floats, and
rounding is not modelled. Console input arrives as already-read values: the
account number, the sequence of PINs typed, and the menu requests with
their amounts already parsed. Console output is a `Reply` value naming the
message shown and the figures in it. In the original, the PIN lines and
the menu lines come from one `input()` stream. The caller of `RunSession`
splits that stream at the point where the log-in stops reading. PIN lines
typed after a correct PIN belong to the menu requests.

Notes on how the code behaves:

- The code does not check the opening balance, so an account can be opened
  with a negative balance. The model allows it too. Non-negativity is proved
  for accounts whose opening balance is non-negative.
- An amount that does not parse makes the code raise. It is not turned into
  a refused operation. Parsing is outside the model (see below).
- Withdrawal refusal does not say whether the amount was non-positive or
  larger than the balance. The model has one `WithdrawalRefused` reply, as
  the code does.

## Model

| member | source | states |
|---|---|---|
| `Accounts.Account.constructor` | atm_simulation.py:4-16 | The new account has the given number, PIN and balance (zero by default) and an empty log. The invariant holds from the start. |
| `Accounts.Account.CheckPin` | atm_simulation.py:18-28 | True exactly when the entered PIN equals the stored PIN. As a function it changes no field. |
| `Accounts.Account.GetBalance` | atm_simulation.py:30-37 | Returns the balance without changing anything. Under the invariant it equals the opening balance plus the net of the log, and it is non-negative when the opening balance was. |
| `Accounts.Account.Withdraw` | atm_simulation.py:39-56 | Succeeds exactly when 0 < amount <= old balance. On success the balance drops by the amount and exactly one `Withdrawal(amount)` entry is appended. On failure balance, log and PIN are unchanged. The PIN never changes. The new state is `Apply` of the old one. |
| `Accounts.Account.Deposit` | atm_simulation.py:58-72 | Succeeds exactly when amount > 0. On success the balance grows by the amount and exactly one `Deposit(amount)` entry is appended. Otherwise nothing changes. The new state is `Apply` of the old one. |
| `Accounts.Account.ChangePin` | atm_simulation.py:74-84 | Always sets the PIN to the new value and appends exactly one `PinChanged` entry, with the balance unchanged. Afterwards `CheckPin` accepts the new PIN and rejects every other value. |
| `Accounts.Account.GetTransactionHistory` | atm_simulation.py:86-93 | Returns the log as stored, oldest entry first, without changing it. Under the invariant, the opening balance plus the net of the returned log is the current balance. |
| `Ledger.Apply` | atm_simulation.py:39-84 | A withdrawal goes through iff 0 < a <= balance, a deposit iff a > 0, and a PIN change always. An accepted operation appends exactly its one log entry. A refused one leaves the whole state unchanged. Only a PIN change changes the PIN. Balance minus the net of the log is preserved. A non-negative balance stays non-negative. |
| `Ledger.RunKeepsBalanceNonNegative` | atm_simulation.py:39-72 | After any sequence of withdrawals, deposits and PIN changes, a balance that started at zero or above is still at zero or above. |
| `Ledger.RunAppendOnly` | atm_simulation.py:49-84 | After any sequence of operations the old log is a prefix of the new log. The log grows by at most one entry per operation. |
| `Ledger.RunConservesBalance` | atm_simulation.py:49-72 | After any sequence of operations the balance is the old balance plus the net effect (deposits minus withdrawals) of the entries appended. |
| `Ledger.RunPinIsLatest` | atm_simulation.py:74-84 | After any sequence of operations the PIN is the one set by the last PIN change. With no PIN change it is the old PIN. |
| `Session.Attempts` | atm_simulation.py:113-122 | From entry k on, the PIN entries are checked in order, stopping at the first match. Verified at entry n iff entry n-1 matches and no earlier one does. Locked iff all entries up to the third are wrong. The input may also end before three wrong entries. |
| `Session.LoginOutcome` | atm_simulation.py:104-122 | An unknown account number is refused before any PIN is read. Otherwise the session is verified iff one of the first three PINs typed matches, and locked iff all three are wrong. |
| `Session.Login` | atm_simulation.py:104-122 | The original's look-up and `for attempt in range(3)` loop with `break`/`else` give exactly `LoginOutcome`. |
| `Session.Step` | atm_simulation.py:133-167 | Choices 2, 3 and 4 change the account exactly as the matching ledger operation does. Every other choice leaves it unchanged. An unknown choice gets the invalid-choice reply, and only choice 6 gets the farewell. Choice 1 gets the balance. Choice 2 gets the withdrawal-success reply (with the new balance) exactly when the withdrawal is accepted, and the refusal reply otherwise; choice 3 likewise for deposits. A refused operation changes nothing. Choice 4 always gets the PIN-changed reply. Choice 5 shows the log when it is non-empty and the no-history reply exactly when it is empty. |
| `Session.ServeFollowsLedger` | atm_simulation.py:124-167 | The account state after the menu loop is the state after running, through the ledger, the operations of the requests served up to the first exit. |
| `Session.ServeWithoutExit` | atm_simulation.py:124-167 | When no request is an exit, every request is served and gets exactly one reply, and none of the replies is the farewell. |
| `Session.ServeRepliesOncePerRequest` | atm_simulation.py:163-165 | With the first exit at request i, the loop gives exactly i+1 replies, the last of them the farewell. Requests after the exit are never served. |
| `Session.SessionKeepsBalanceNonNegative` | atm_simulation.py:124-167 | No menu session can take a non-negative balance below zero. |
| `Session.SessionAppendsToLog` | atm_simulation.py:124-167 | A menu session only appends to the log. The entries it appends explain the change of balance. |
| `Session.Dispatch` | atm_simulation.py:133-167 | One pass of the loop body on the account object: calls the account's methods for the choice and leaves the account and the reply exactly as `Step` says. The invariant is kept. |
| `Session.MenuLoop` | atm_simulation.py:124-167 | The original's `while True` dispatch loop, run on the account object, leaves it in the state given by `Serve` and returns the replies given by `Serve`. The invariant is kept. |
| `Session.RunSession` | atm_simulation.py:97-167 | The log-in result is `LoginOutcome` of the directory before the session. A session that is not verified (unknown number, locked, input ended) serves nothing and leaves the account unchanged. A verified one leaves the account as `Serve` says. |

## Left out

- Console input and output and all message text. Prompts and printed lines
  are replaced by the already-read inputs and the `Reply` values.
- Parsing amounts from text with `float(...)`, which raises on bad input.
  Requests carry already-parsed amounts.
- Binary floating-point rounding of the balance. Amounts are exact reals.
- Non-finite floats. `float(...)` accepts "inf" and "nan", and large
  deposits can overflow to infinity. A deposit of infinity followed by a
  withdrawal of infinity leaves a NaN balance, which then refuses every
  withdrawal and is not non-negative. Exact reals have no such values. So
  `Accounts.Account.Valid`, `Ledger.RunKeepsBalanceNonNegative` and
  `Ledger.RunConservesBalance` describe finite amounts only.
- Log-entry timestamps from the system clock and the formatting of log
  lines. A log entry keeps only its kind and amount.
- Aliasing of the log list returned by `get_transaction_history`. The model
  returns the log as a value.
- The end of input. In the original, `input()` raises when the input runs
  out. The model ends the log-in with `InputEnded` and ends the menu loop
  at the last request.
- The sample accounts of the `__main__` block appear only in the client
  method `Session.SampleSession`.
