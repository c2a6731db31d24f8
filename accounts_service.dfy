/** AccountsService as an object: the account store, the two global locks
    and the notifications sent are its fields, and each operation updates
    them step by step, as the service does. CreateAccount, GetAccount and
    TransferAmount are proved against Ledger.Create, Ledger.Get and
    Ledger.Transfer; the lock, notify, withdraw and addMoney steps state
    their own effect on the fields. */
module Service {
  import opened Ledger

  class AccountsService {
    var accounts: Store
    var fromLocked: bool
    var toLocked: bool
    var notifications: seq<Notification>

    /** The abstract state the Ledger functions speak about. */
    function State(): Bank
      reads this
    {
      Bank(accounts, fromLocked, toLocked, notifications)
    }

    /** The deposit lock is held only together with the withdraw lock. */
    ghost predicate Valid()
      reads this
    {
      LocksNested(State())
    }

    /** A service over the given store, with both locks free and nothing
        sent yet. */
    constructor (store: Store)
      ensures Valid()
      ensures State() == Bank(store, false, false, [])
    {
      accounts := store;
      fromLocked, toLocked := false, false;
      notifications := [];
    }

    method CreateAccount(account: Account) returns (error: Option<Exception>)
      modifies this`accounts
      ensures error.None? <==> account.accountId !in old(accounts)
      ensures error.Some? ==> Create(old(accounts), account) == Failure(error.value) && accounts == old(accounts)
      ensures error.None? ==> Create(old(accounts), account) == Success(accounts)
    {
      match Create(accounts, account)
      case Failure(e) =>
        error := Some(e);
      case Success(s) =>
        accounts := s;
        error := None;
    }

    method GetAccount(id: AccountId) returns (r: Option<Account>)
      ensures r == Get(accounts, id)
      ensures r.Some? <==> id in accounts
      ensures r.Some? ==> r.value.accountId == id && r.value.balance == accounts[id]
    {
      if id in accounts {
        r := Some(Account(id, accounts[id]));
      } else {
        r := None;
      }
    }

    /** ReentrantLock.tryLock on the withdraw lock: succeeds only when no
        other thread holds it; afterwards the lock is held either way. */
    method TryLockFrom() returns (acquired: bool)
      modifies this`fromLocked
      ensures acquired == !old(fromLocked) && fromLocked
    {
      acquired := !fromLocked;
      fromLocked := true;
    }

    method UnlockFrom()
      modifies this`fromLocked
      ensures !fromLocked
    {
      fromLocked := false;
    }

    method TryLockTo() returns (acquired: bool)
      modifies this`toLocked
      ensures acquired == !old(toLocked) && toLocked
    {
      acquired := !toLocked;
      toLocked := true;
    }

    /** Releases the deposit lock when this call acquired it; otherwise the
        lock stays with the thread that holds it. */
    method ReleaseDepositLock(acquired: bool)
      modifies this`toLocked
      ensures toLocked == (old(toLocked) && !acquired)
    {
      if acquired {
        toLocked := false;
      }
    }

    method Notify(id: AccountId, message: string)
      modifies this`notifications
      ensures notifications == old(notifications) + [Notification(id, message)]
    {
      notifications := notifications + [Notification(id, message)];
    }

    /** withdraw: debits the source in place; always reports success. */
    method Withdraw(amount: int, fromId: AccountId) returns (ok: bool)
      requires fromId in accounts
      modifies this`accounts
      ensures ok && accounts == Debit(old(accounts), fromId, amount)
    {
      accounts := accounts[fromId := accounts[fromId] - amount];
      ok := true;
    }

    /** addMoney: fetches the destination and credits it in place; an
        unknown destination is a null dereference and changes nothing. */
    method AddMoney(toId: AccountId, amount: int) returns (r: Outcome)
      modifies this`accounts
      ensures toId in old(accounts) ==> r == Returned(true) && accounts == Credit(old(accounts), toId, amount)
      ensures toId !in old(accounts) ==> r == Raised(NullAccount) && accounts == old(accounts)
    {
      var toAccount := GetAccount(toId);
      if toAccount.None? {
        return Raised(NullAccount);
      }
      accounts := accounts[toId := toAccount.value.balance + amount];
      r := Returned(true);
    }

    /** transferAmount: validate, take the withdraw lock, check and debit,
        take the deposit lock, credit, notify, release. On a valid object
        the guarded release and the code as written agree. */
    method TransferAmount(fromId: AccountId, toId: AccountId, amount: int) returns (outcome: Outcome)
      modifies this
      ensures Effect(outcome, State()) == Transfer(old(State()), fromId, toId, amount)
      ensures old(Valid()) ==> Valid()
      ensures old(Valid()) ==> Effect(outcome, State()) == TransferAsWritten(old(State()), fromId, toId, amount)
    {
      if Valid() {
        AsWrittenAgreesWhenNested(State(), fromId, toId, amount);
      }
      var invalid := ValidateTransferAmount(amount);
      if invalid.Some? {
        return Raised(invalid.value);
      }
      var lockHeld := TryLockFrom();
      if !lockHeld {
        return Returned(false);
      }
      var fromAccount := GetAccount(fromId);
      if fromAccount.None? {
        UnlockFrom();
        return Raised(NullAccount);
      }
      var insufficient := ValidateTransfer(amount, fromAccount.value);
      if insufficient.Some? {
        UnlockFrom();
        return Raised(insufficient.value);
      }
      var withdrawSuccess := Withdraw(amount, fromId);
      var addSuccess := false;
      var depositLockHeld := TryLockTo();
      if depositLockHeld {
        var added := AddMoney(toId, amount);
        if added.Raised? {
          ReleaseDepositLock(depositLockHeld);
          UnlockFrom();
          return added;
        }
        addSuccess := added.success;
      }
      ReleaseDepositLock(depositLockHeld);
      if withdrawSuccess && addSuccess {
        Notify(fromId, SentMessage(amount, toId));
        Notify(toId, ReceivedMessage(amount, fromId));
        outcome := Returned(true);
      } else {
        Notify(fromId, SendErrorMessage(amount, toId));
        Notify(toId, ReceiveErrorMessage(amount, fromId));
        outcome := Returned(false);
      }
      UnlockFrom();
    }
  }

  /** The create/get round trip and the duplicate-id refusal, through the
      object: the second create of the same id fails with the duplicate
      message and the first record reads back intact. */
  method CreateTwiceKeepsFirst() returns (first: Option<Exception>, second: Option<Exception>, got: Option<Account>)
    ensures first == None
    ensures second == Some(DuplicateAccountId("Account id Id-123 already exists!"))
    ensures got == Some(Account("Id-123", 1000))
  {
    var service := new AccountsService(map[]);
    first := service.CreateAccount(Account("Id-123", 1000));
    second := service.CreateAccount(Account("Id-123", 5));
    got := service.GetAccount("Id-123");
    assert DuplicateMessage("Id-123") == "Account id Id-123 already exists!";
  }

  /** A refused transfer leaves the withdraw lock free: the next transfer
      from the same account goes through. */
  method TransferAfterRefusal() returns (refused: Outcome, accepted: Outcome, a: Option<Account>, b: Option<Account>)
    ensures refused == Raised(InsufficientBalance(InsufficientBalanceMessage))
    ensures accepted == Returned(true)
    ensures a == Some(Account("A", 20)) && b == Some(Account("B", 30))
  {
    var service := new AccountsService(map["A" := 50, "B" := 0]);
    refused := service.TransferAmount("A", "B", 80);
    accepted := service.TransferAmount("A", "B", 30);
    a := service.GetAccount("A");
    b := service.GetAccount("B");
  }
}
