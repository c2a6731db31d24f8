# Account transfers, modelled in Dafny

This project models the transfer service of a small banking application, the
Java class `AccountsService`. The service keeps accounts in a store keyed by
account id. It moves money between two accounts. It guards the debit with a
global withdraw lock and the credit with a global deposit lock, each tried
once without waiting. It tells both parties about the result through a
notification sink.

The model is sequential. It describes one call at a time. A lock held by
another thread is a flag that is already set when the call starts. The
deposit lock is taken only inside the withdraw lock's critical section
(:73-104) and released before it (:84), so whoever holds the deposit lock
also holds the withdraw lock. `Ledger.LocksNested` states this, and every
state a call can start in satisfies it.

The deposit lock is released at :84 even when the `tryLock` at :80 failed.
Two versions of `transferAmount` exist in the model because of this:
- `Ledger.TransferAsWritten` is the code as written: the release would
  throw IllegalMonitorStateException.
- `Ledger.Transfer` releases the deposit lock only when it was acquired.
  It then returns false with the two error notices, as the method's own
  comment at :48-59 describes.

The two agree on every state that satisfies `Ledger.LocksNested`
(`Ledger.AsWrittenAgreesWhenNested`), so the difference is latent; see
Findings.

- `decimal.dfy` (module `Decimal`): how a whole amount is printed in the
  notification texts, and a reader that proves the printing loses nothing.
- `ledger.dfy` (module `Ledger`): the state as a value (`Bank`: the store, the
  two lock flags and the notifications sent so far). It defines
  `createAccount`/`getAccount` over the store and both versions of
  `transferAmount`, each as a function from a state to an outcome and a new
  state. It also holds the lemmas about each exit path of `Transfer`.
- `accounts_service.dfy` (module `Service`): the class `AccountsService`. Its
  fields are the store, the two lock flags and the notification log. Its
  methods update them step by step: validate, try lock, check, withdraw, try
  lock, add money, notify, unlock. `TransferAmount` follows the guarded
  release. It is proved equal to `Ledger.Transfer` on every state, and equal
  to `Ledger.TransferAsWritten` on every object whose `Valid()` invariant
  (the lock nesting) holds. `CreateAccount` and `GetAccount` are proved
  against `Ledger.Create` and `Ledger.Get`. The lock, notify, withdraw and
  add-money steps state their own effect on the fields.
- `runs.dfy` (module `Runs`): sequences of calls to `Ledger.Transfer`. Money
  among existing accounts is conserved. No balance goes negative. The lock
  flags survive. It also shows where the tests' two-transfer scenarios end
  when the calls run one after the other.

Balances and amounts are `int`. `BigDecimal` arithmetic is exact, so integer
addition and subtraction are the same operations on whole amounts.

An unknown source id fails at :116 before anything changes. An unknown
destination id fails at :131, after the debit at :146 has already run, so
that amount is lost (`Ledger.UnknownDestinationKeepsDebit`,
`Runs.UnknownDestinationLosesAmount`). This is the only way a call can debit
without crediting.

## Model

| member | source | states |
|---|---|---|
| `Decimal.Show` | src/main/java/com/db/awmd/challenge/service/AccountsService.java:89 | a whole amount prints as a non-empty string of digits with no leading zero |
| `Decimal.ValueOfShow` | src/main/java/com/db/awmd/challenge/service/AccountsService.java:89 | reading the printed amount back gives the amount |
| `Decimal.ShowInjective` | src/main/java/com/db/awmd/challenge/service/AccountsService.java:89 | different amounts never print alike |
| `Ledger.Get` | src/main/java/com/db/awmd/challenge/service/AccountsService.java:44-46 | getAccount finds a record exactly when the id is in the store, with that id and its current balance; `Ledger.CreateThenGet` and `Ledger.CreateKeepsOthers` relate it to createAccount |
| `Ledger.Create` | src/main/java/com/db/awmd/challenge/service/AccountsService.java:40-42 | createAccount fails exactly when the id is already present, with DuplicateAccountId "Account id <id> already exists!"; otherwise the store gains exactly that id |
| `Ledger.CreateThenGet` | src/main/java/com/db/awmd/challenge/service/AccountsService.java:40-46 | getAccount after createAccount of a new id returns the account that was created |
| `Ledger.CreateKeepsOthers` | src/main/java/com/db/awmd/challenge/service/AccountsService.java:40-46 | creating an account leaves every other id's record as it was |
| `Ledger.ValidateTransferAmount` | src/main/java/com/db/awmd/challenge/service/AccountsService.java:108-113 | passes exactly the positive amounts and otherwise gives InValidAmount with the source's message; `Ledger.InvalidAmountChangesNothing` shows the call then changes nothing |
| `Ledger.ValidateTransfer` | src/main/java/com/db/awmd/challenge/service/AccountsService.java:115-120 | passes exactly when the source balance covers the amount and otherwise gives InsufficientBalance "Insufficient balance."; `Ledger.InsufficientBalanceChangesNothing` shows the call then changes nothing |
| `Ledger.Debit` | src/main/java/com/db/awmd/challenge/service/AccountsService.java:145-146 | withdraw lowers the source by the amount and leaves every other balance and the set of accounts as they were; `Ledger.SuccessMovesAmount` and `Ledger.UnknownDestinationKeepsDebit` state its effect inside a transfer |
| `Ledger.Credit` | src/main/java/com/db/awmd/challenge/service/AccountsService.java:131-132 | addMoney raises the destination by the amount and leaves every other balance and the set of accounts as they were; `Ledger.SuccessMovesAmount` states its effect inside a transfer |
| `Ledger.SentMessage` | src/main/java/com/db/awmd/challenge/service/AccountsService.java:89 | the source's success text opens with "Successfully transfered Rs. " and ends with the destination id; `Ledger.SentMessageNamesAmount` shows it determines the amount |
| `Ledger.ReceivedMessage` | src/main/java/com/db/awmd/challenge/service/AccountsService.java:91 | the destination's success text opens with "Successfully recevied Rs. " and ends with the source id; `Ledger.NoticesDistinguishOutcome` separates it from the error text |
| `Ledger.SendErrorMessage` | src/main/java/com/db/awmd/challenge/service/AccountsService.java:95 | the source's error text opens with "Error!! occurred while transferring Rs. " and ends with the destination id; `Ledger.NoticesDistinguishOutcome` separates it from the success text |
| `Ledger.ReceiveErrorMessage` | src/main/java/com/db/awmd/challenge/service/AccountsService.java:97 | the destination's error text opens with "Error!! occurred while receiving Rs. " and ends with the source id; `Ledger.NoticesDistinguishOutcome` separates it from the success text |
| `Ledger.Transfer` | src/main/java/com/db/awmd/challenge/service/AccountsService.java:68-106 | on every exit both lock flags are as before and the set of accounts is unchanged; accounts other than source and destination keep their balances; the result is true exactly when the amount is positive, both locks are free, both accounts exist and the source holds at least the amount; a false result changes balances only when the deposit lock was busy; the log is unchanged or grows by two |
| `Ledger.TransferAsWritten` | src/main/java/com/db/awmd/challenge/service/AccountsService.java:79-85 | as the code is written: the locks are restored; a false result changes nothing at all; IllegalMonitorState is raised exactly when the debit ran with the withdraw lock free and the deposit lock busy, and then the state is the old one with only the debit applied |
| `Ledger.InvalidAmountChangesNothing` | src/main/java/com/db/awmd/challenge/service/AccountsService.java:108-113 | a non-positive amount raises InValidAmount with the source's message; balances, locks and log are untouched |
| `Ledger.BusyWithdrawLockReturnsFalse` | src/main/java/com/db/awmd/challenge/service/AccountsService.java:71-105 | a withdraw lock held elsewhere gives false with no change to balances, locks or log |
| `Ledger.UnknownSourceChangesNothing` | src/main/java/com/db/awmd/challenge/service/AccountsService.java:75-76 | an unknown source id is dereferenced before any change: the null dereference ends the call with balances, locks and log untouched |
| `Ledger.InsufficientBalanceChangesNothing` | src/main/java/com/db/awmd/challenge/service/AccountsService.java:115-120 | a source balance below the amount raises InsufficientBalance "Insufficient balance."; nothing changes and the withdraw lock is free again |
| `Ledger.SuccessMovesAmount` | src/main/java/com/db/awmd/challenge/service/AccountsService.java:77-92 | on success the source loses and the destination gains exactly the amount, their sum is kept, a self-transfer changes nothing, and exactly the two success notices are appended |
| `Ledger.BusyDepositLockKeepsDebit` | src/main/java/com/db/awmd/challenge/service/AccountsService.java:77-98 | with the guarded release, a busy deposit lock after the debit would return false with the debit kept, the destination uncredited and the two error notices appended; the state this needs breaks the lock nesting, so the service never reaches it |
| `Ledger.UnknownDestinationKeepsDebit` | src/main/java/com/db/awmd/challenge/service/AccountsService.java:122-135 | an unknown destination with the deposit lock free fails with a null dereference after the debit; the debit stays and nothing is notified |
| `Ledger.NoticesDistinguishOutcome` | src/main/java/com/db/awmd/challenge/service/AccountsService.java:87-97 | each success notice differs from the matching error notice |
| `Ledger.SentMessageNamesAmount` | src/main/java/com/db/awmd/challenge/service/AccountsService.java:88-89 | the "Successfully transfered" text determines the amount |
| `Ledger.AsWrittenNeverSendsErrorNotices` | src/main/java/com/db/awmd/challenge/service/AccountsService.java:93-98 | as written, no input ever appends the two error notices: that branch is dead |
| `Ledger.BusyDepositLockExample` | src/main/java/com/db/awmd/challenge/service/AccountsService.java:79-85 | in the one kind of state where the versions part (A=100, B=100, deposit lock busy, withdraw lock free, 30 from A to B), the code as written throws with A at 70 and no notice, and the guarded release returns false with A at 70 and the error notices |
| `Ledger.TransferKeepsLocksNested` | src/main/java/com/db/awmd/challenge/service/AccountsService.java:73-104 | both versions of the transfer keep the deposit lock nested inside the withdraw lock |
| `Ledger.AsWrittenAgreesWhenNested` | src/main/java/com/db/awmd/challenge/service/AccountsService.java:79-85 | on every state where the deposit lock is held only with the withdraw lock, the code as written and the guarded release give the same outcome and state |
| `Ledger.NestedNeverSendsErrorNotices` | src/main/java/com/db/awmd/challenge/service/AccountsService.java:93-98 | on those states no call ever appends the two error notices |
| `Service.AccountsService.constructor` | src/main/java/com/db/awmd/challenge/service/AccountsService.java:33-38 | a service over a given store starts with both locks free, no notices, and its lock-nesting invariant holding |
| `Service.AccountsService.CreateAccount` | src/main/java/com/db/awmd/challenge/service/AccountsService.java:40-42 | the store becomes the result of `Ledger.Create`; on a duplicate id the error is returned and the store is untouched |
| `Service.AccountsService.GetAccount` | src/main/java/com/db/awmd/challenge/service/AccountsService.java:44-46 | returns `Ledger.Get` of the store: the account with that id and its current balance, or nothing when the id is unknown |
| `Service.AccountsService.TryLockFrom` | src/main/java/com/db/awmd/challenge/service/AccountsService.java:73 | tryLock succeeds exactly when the withdraw lock was free; the lock is held afterwards |
| `Service.AccountsService.UnlockFrom` | src/main/java/com/db/awmd/challenge/service/AccountsService.java:101-104 | the withdraw lock is free afterwards |
| `Service.AccountsService.TryLockTo` | src/main/java/com/db/awmd/challenge/service/AccountsService.java:80 | tryLock succeeds exactly when the deposit lock was free; the lock is held afterwards |
| `Service.AccountsService.ReleaseDepositLock` | src/main/java/com/db/awmd/challenge/service/AccountsService.java:83-85 | the deposit lock is released only if this call acquired it |
| `Service.AccountsService.Notify` | src/main/java/com/db/awmd/challenge/service/AccountsService.java:88-97 | appends exactly one (account, message) notice |
| `Service.AccountsService.Withdraw` | src/main/java/com/db/awmd/challenge/service/AccountsService.java:137-150 | debits the source in place by the amount and reports success |
| `Service.AccountsService.AddMoney` | src/main/java/com/db/awmd/challenge/service/AccountsService.java:122-135 | credits the destination in place and reports success, or raises the null dereference and changes nothing when the id is unknown |
| `Service.AccountsService.TransferAmount` | src/main/java/com/db/awmd/challenge/service/AccountsService.java:68-106 | the outcome and the whole new state (store, both locks, log) are those of `Ledger.Transfer` on the old state; from a state with the locks nested, the nesting holds afterwards and the result also equals `Ledger.TransferAsWritten` |
| `Service.CreateTwiceKeepsFirst` | src/test/java/com/db/awmd/challenge/AccountsServiceTest.java:292-305 | through the object, a second create of "Id-123" fails with "Account id Id-123 already exists!" and the first record reads back intact |
| `Service.TransferAfterRefusal` | src/main/java/com/db/awmd/challenge/service/AccountsService.java:101-104 | after a transfer refused for insufficient balance, the next transfer from the same account succeeds, so the withdraw lock was released |
| `Runs.TransferConservesTotal` | src/main/java/com/db/awmd/challenge/service/AccountsService.java:77-81 | from any state with the locks nested, a transfer between listed existing accounts keeps their total, whatever its outcome |
| `Runs.UnknownDestinationLosesAmount` | src/main/java/com/db/awmd/challenge/service/AccountsService.java:122-135 | an unknown destination after the debit makes the listed total drop by the amount |
| `Runs.RunConservesTotal` | src/test/java/com/db/awmd/challenge/AccountsServiceTest.java:119-139 | any sequence of transfers among listed existing accounts, from a state with the locks nested, keeps their total |
| `Runs.TransferKeepsNonNegative` | src/main/java/com/db/awmd/challenge/service/AccountsService.java:115-120 | one call never overdraws an account that starts non-negative, whatever the other balances are |
| `Runs.RunKeepsInvariants` | src/main/java/com/db/awmd/challenge/service/AccountsService.java:68-106 | any sequence of calls keeps each non-negative balance non-negative (and so an all-non-negative store stays so), and leaves the set of accounts and both lock flags as they were |
| `Runs.TwoDebitsFromOneAccount` | src/test/java/com/db/awmd/challenge/AccountsServiceTest.java:71-140 | A=100, B=100, transfers of 30 and 80 from A one after the other end at (70, 130) or (20, 180), never at A=-10 |
| `Runs.OpposingTransfers` | src/test/java/com/db/awmd/challenge/AccountsServiceTest.java:143-217 | C=100, D=100, 40 from C to D and 60 from D to C one after the other, in either order, end at (120, 80) |

## Findings

| source | as written | input that shows it | evidently intended | confidence | as-written member | corrected member |
|---|---|---|---|---|---|---|
| src/main/java/com/db/awmd/challenge/service/AccountsService.java:79-85 | `toLock.unlock()` in the `finally` also runs when `toLock.tryLock()` failed. `ReentrantLock.unlock` would then throw IllegalMonitorStateException after the debit, with no notice, and the error-notice branch at :93-98 can never run. The defect is latent: the deposit lock is only taken inside the withdraw lock's section, so `tryLock` at :80 cannot fail while that holds | a state with the deposit lock held and the withdraw lock free, e.g. A=100, B=100, transfer of 30 from A to B: throws with A at 70. No call of the service can produce this state today; it would arise as soon as the deposit lock were taken anywhere else | release the deposit lock only when it was acquired, then return false with the two error notices, as the method's comment at :48-59 describes | high for the reading of the code; the input is unreachable in the current class; not executed | `Ledger.TransferAsWritten` (shown by `Ledger.BusyDepositLockExample` and `Ledger.AsWrittenNeverSendsErrorNotices`) | `Ledger.Transfer` (proved by `Ledger.BusyDepositLockKeepsDebit`; agrees with the code on reachable states by `Ledger.AsWrittenAgreesWhenNested`; used by `Service.AccountsService.TransferAmount` and `Runs`) |

## Left out

- Threads and real lock contention: the model is sequential. A busy lock is a flag already set by another thread when the call starts. No interleaving of two calls is modelled; the test scenarios are covered only for calls that do not overlap.
- ReentrantLock reentrancy: a thread that already holds a lock is not modelled, because in a sequential model a set flag always belongs to another thread.
- `Thread.sleep`, `InterruptedException` handling, logging and console output in `withdraw` and `addMoney`: they have no effect on balances, locks or notices.
- Fractional and scaled `BigDecimal` amounts: amounts are whole numbers, and `Decimal.Show` prints them as `BigDecimal.toString` prints a value of scale zero.
- The account repository is not part of this model. The store is a map from id to balance. Looking up an unknown id yields no account, and using that account is the `NullAccount` failure. Account objects are not modelled as shared references: both `withdraw` through the fetched source object and `addMoney` through a fresh lookup update the one map entry.
- The notification service is not part of this model. A notice is recorded as (account id, message). Under a busy deposit lock with an unknown destination, the notice is addressed by id although the code passes a null account; what the sink does with null is not modelled.
- The re-read of the destination account at :86 is not modelled separately: notices carry ids, so the re-read changes nothing in the model.
- Spring wiring, Lombok getters and the injected dependencies: the constructor takes the initial store instead.
