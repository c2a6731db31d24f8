/** The account store and the transfer coordinator of AccountsService, taken
    one call at a time: each operation maps the state before the call to its
    outcome and the state after it. Lock contention is a lock already held by
    another thread when the call starts. */
module Ledger {
  import Decimal

  type AccountId = string

  /** The account store: account id to balance. */
  type Store = map<AccountId, int>

  datatype Option<T> = None | Some(value: T)

  datatype Account = Account(accountId: AccountId, balance: int)

  /** One call of notifyAboutTransfer: the account addressed and the text. */
  datatype Notification = Notification(accountId: AccountId, message: string)

  datatype Exception =
    | InValidAmount(message: string)
    | InsufficientBalance(message: string)
    | DuplicateAccountId(message: string)
      // dereferencing the null the store returns for an unknown id
    | NullAccount
      // ReentrantLock.unlock by a thread that does not hold the lock
    | IllegalMonitorState

  /** How a call ends: a returned boolean or a thrown exception. */
  datatype Outcome = Returned(success: bool) | Raised(error: Exception)

  datatype Result<T> = Success(value: T) | Failure(error: Exception)

  /** Everything one transfer can read or change: the store, the two global
      locks (true = held when the call starts) and the notifications sent. */
  datatype Bank = Bank(accounts: Store, fromLocked: bool, toLocked: bool, log: seq<Notification>)

  datatype Effect = Effect(outcome: Outcome, after: Bank)

  /** The deposit lock is only ever taken while the withdraw lock is held,
      and released before it, so a thread that holds the deposit lock also
      holds the withdraw lock. Every state a call can start in has this
      shape. */
  predicate LocksNested(b: Bank) {
    b.toLocked ==> b.fromLocked
  }

  const InvalidAmountMessage := "Amount provided should be positive integer, non positive integers are not allowed."
  const InsufficientBalanceMessage := "Insufficient balance."

  function DuplicateMessage(id: AccountId): (text: string) {
    "Account id " + id + " already exists!"
  }

  // ---------------------------------------------------------------- store

  /** getAccount: the record under that id, or none for an unknown id. */
  function Get(store: Store, id: AccountId): (r: Option<Account>)
    ensures r.Some? <==> id in store
    ensures r.Some? ==> r.value.accountId == id && r.value.balance == store[id]
  {
    if id in store then Some(Account(id, store[id])) else None
  }

  /** createAccount: adds the record, or fails on an id already present. */
  function Create(store: Store, account: Account): (r: Result<Store>)
    ensures r.Failure? <==> account.accountId in store
    ensures r.Failure? ==> r.error == DuplicateAccountId(DuplicateMessage(account.accountId))
    ensures r.Success? ==> r.value.Keys == store.Keys + {account.accountId}
  {
    if account.accountId in store then Failure(DuplicateAccountId(DuplicateMessage(account.accountId)))
    else Success(store[account.accountId := account.balance])
  }

  /** Reading back a freshly created account gives that account. */
  lemma CreateThenGet(store: Store, account: Account)
    requires account.accountId !in store
    ensures Create(store, account).Success?
    ensures Get(Create(store, account).value, account.accountId) == Some(account)
  {
  }

  /** Creating an account changes no other record. */
  lemma CreateKeepsOthers(store: Store, account: Account, id: AccountId)
    requires Create(store, account).Success? && id != account.accountId
    ensures Get(Create(store, account).value, id) == Get(store, id)
  {
  }

  // ----------------------------------------------------- transfer pieces

  /** validateTransferAmount: only a positive amount passes. */
  function ValidateTransferAmount(amount: int): (r: Option<Exception>)
    ensures r.None? <==> amount > 0
    ensures r.Some? ==> r.value == InValidAmount(InvalidAmountMessage)
  {
    if amount <= 0 then Some(InValidAmount(InvalidAmountMessage)) else None
  }

  /** validateTransfer: the source must hold at least the amount. */
  function ValidateTransfer(amount: int, fromAccount: Account): (r: Option<Exception>)
    ensures r.None? <==> fromAccount.balance >= amount
    ensures r.Some? ==> r.value == InsufficientBalance(InsufficientBalanceMessage)
  {
    if fromAccount.balance < amount then Some(InsufficientBalance(InsufficientBalanceMessage)) else None
  }

  /** withdraw: the source balance less the amount. */
  function Debit(store: Store, id: AccountId, amount: int): (r: Store)
    requires id in store
    ensures r.Keys == store.Keys && r[id] == store[id] - amount
    ensures forall other :: other in store && other != id ==> r[other] == store[other]
  {
    store[id := store[id] - amount]
  }

  /** addMoney: the destination balance plus the amount. */
  function Credit(store: Store, id: AccountId, amount: int): (r: Store)
    requires id in store
    ensures r.Keys == store.Keys && r[id] == store[id] + amount
    ensures forall other :: other in store && other != id ==> r[other] == store[other]
  {
    store[id := store[id] + amount]
  }

  // The notification texts: a fixed opening, the amount as printed, and the
  // counterparty's id at the end.
  const SentPrefix := "Successfully transfered Rs. "
  const ReceivedPrefix := "Successfully recevied Rs. "
  const SendErrorPrefix := "Error!! occurred while transferring Rs. "
  const ReceiveErrorPrefix := "Error!! occurred while receiving Rs. "

  function SentMessage(amount: nat, toId: AccountId): (text: string)
    ensures |text| > |SentPrefix| + |toId| && text[..|SentPrefix|] == SentPrefix
    ensures text[|text| - |toId|..] == toId
  {
    SentPrefix + Decimal.Show(amount) + " to " + toId
  }

  function ReceivedMessage(amount: nat, fromId: AccountId): (text: string)
    ensures |text| > |ReceivedPrefix| + |fromId| && text[..|ReceivedPrefix|] == ReceivedPrefix
    ensures text[|text| - |fromId|..] == fromId
  {
    ReceivedPrefix + Decimal.Show(amount) + " from " + fromId
  }

  function SendErrorMessage(amount: nat, toId: AccountId): (text: string)
    ensures |text| > |SendErrorPrefix| + |toId| && text[..|SendErrorPrefix|] == SendErrorPrefix
    ensures text[|text| - |toId|..] == toId
  {
    SendErrorPrefix + Decimal.Show(amount) + " to " + toId
  }

  function ReceiveErrorMessage(amount: nat, fromId: AccountId): (text: string)
    ensures |text| > |ReceiveErrorPrefix| + |fromId| && text[..|ReceiveErrorPrefix|] == ReceiveErrorPrefix
    ensures text[|text| - |fromId|..] == fromId
  {
    ReceiveErrorPrefix + Decimal.Show(amount) + " from " + fromId
  }

  function SuccessNotices(fromId: AccountId, toId: AccountId, amount: nat): (notices: seq<Notification>) {
    [Notification(fromId, SentMessage(amount, toId)), Notification(toId, ReceivedMessage(amount, fromId))]
  }

  function ErrorNotices(fromId: AccountId, toId: AccountId, amount: nat): (notices: seq<Notification>) {
    [Notification(fromId, SendErrorMessage(amount, toId)), Notification(toId, ReceiveErrorMessage(amount, fromId))]
  }

  /** True when the transfer can run both halves: a valid amount, both locks
      free, both accounts present, and enough money at the source. */
  predicate CanComplete(b: Bank, fromId: AccountId, toId: AccountId, amount: int) {
    && amount > 0
    && !b.fromLocked && !b.toLocked
    && fromId in b.accounts && toId in b.accounts
    && b.accounts[fromId] >= amount
  }

  // ------------------------------------------------------------ transfer

  /** transferAmount, with the deposit lock released only when it was
      acquired: a busy deposit lock leads to the false result and the two
      error notifications. Every exit leaves both locks as they were. */
  function Transfer(b: Bank, fromId: AccountId, toId: AccountId, amount: int): (r: Effect)
    ensures r.after.fromLocked == b.fromLocked && r.after.toLocked == b.toLocked
    ensures r.after.accounts.Keys == b.accounts.Keys
    ensures forall id :: id in b.accounts && id != fromId && id != toId ==> r.after.accounts[id] == b.accounts[id]
    ensures r.outcome == Returned(true) <==> CanComplete(b, fromId, toId, amount)
    ensures r.outcome.Raised? || r.outcome.success || r.after.accounts == b.accounts || b.toLocked
    ensures r.after.log == b.log || |r.after.log| == |b.log| + 2
  {
    match ValidateTransferAmount(amount)
    case Some(e) => Effect(Raised(e), b)
    case None =>
      if b.fromLocked then Effect(Returned(false), b)
      else if fromId !in b.accounts then Effect(Raised(NullAccount), b)
      else match ValidateTransfer(amount, Account(fromId, b.accounts[fromId]))
      case Some(e) => Effect(Raised(e), b)
      case None =>
        var debited := Debit(b.accounts, fromId, amount);
        if b.toLocked then
          Effect(Returned(false), b.(accounts := debited, log := b.log + ErrorNotices(fromId, toId, amount)))
        else if toId !in debited then
          Effect(Raised(NullAccount), b.(accounts := debited))
        else
          Effect(Returned(true), b.(accounts := Credit(debited, toId, amount),
                                    log := b.log + SuccessNotices(fromId, toId, amount)))
  }

  /** transferAmount exactly as written: toLock.unlock() also runs after a
      failed toLock.tryLock() and would throw, ending the call in
      IllegalMonitorState with the debit kept and nothing notified. That
      needs a busy deposit lock with a free withdraw lock, which
      LocksNested rules out. */
  function TransferAsWritten(b: Bank, fromId: AccountId, toId: AccountId, amount: int): (r: Effect)
    ensures r.after.fromLocked == b.fromLocked && r.after.toLocked == b.toLocked
    ensures r.outcome == Returned(false) ==> r.after == b
    ensures r.outcome == Raised(IllegalMonitorState) <==> amount > 0 && !b.fromLocked && b.toLocked && fromId in b.accounts && b.accounts[fromId] >= amount
    ensures r.outcome == Raised(IllegalMonitorState) ==>
      fromId in b.accounts && r.after == b.(accounts := Debit(b.accounts, fromId, amount))
  {
    if CanStartCredit(b, fromId, amount) && b.toLocked then
      Effect(Raised(IllegalMonitorState), b.(accounts := Debit(b.accounts, fromId, amount)))
    else
      Transfer(b, fromId, toId, amount)
  }

  /** The debit has happened and the deposit lock is about to be tried. */
  predicate CanStartCredit(b: Bank, fromId: AccountId, amount: int) {
    amount > 0 && !b.fromLocked && fromId in b.accounts && b.accounts[fromId] >= amount
  }

  // ------------------------------------------------ properties of Transfer

  /** A non-positive amount is rejected before any lock is tried; nothing
      changes. */
  lemma InvalidAmountChangesNothing(b: Bank, fromId: AccountId, toId: AccountId, amount: int)
    requires amount <= 0
    ensures Transfer(b, fromId, toId, amount) == Effect(Raised(InValidAmount(InvalidAmountMessage)), b)
  {
  }

  /** A withdraw lock held elsewhere gives false with no mutation and no
      notification. */
  lemma BusyWithdrawLockReturnsFalse(b: Bank, fromId: AccountId, toId: AccountId, amount: int)
    requires amount > 0 && b.fromLocked
    ensures Transfer(b, fromId, toId, amount) == Effect(Returned(false), b)
  {
  }

  /** An unknown source is dereferenced by validateTransfer before any
      change: the null dereference ends the call, the withdraw lock is free
      again and nothing is notified. */
  lemma UnknownSourceChangesNothing(b: Bank, fromId: AccountId, toId: AccountId, amount: int)
    requires amount > 0 && !b.fromLocked && fromId !in b.accounts
    ensures Transfer(b, fromId, toId, amount) == Effect(Raised(NullAccount), b)
  {
  }

  /** Too little money at the source: InsufficientBalance, nothing changes,
      nothing is notified, and the withdraw lock is free again. */
  lemma InsufficientBalanceChangesNothing(b: Bank, fromId: AccountId, toId: AccountId, amount: int)
    requires amount > 0 && !b.fromLocked && fromId in b.accounts && b.accounts[fromId] < amount
    ensures Transfer(b, fromId, toId, amount) == Effect(Raised(InsufficientBalance(InsufficientBalanceMessage)), b)
  {
  }

  /** A successful transfer moves exactly the amount, keeps the sum of the
      two balances, sends the two success notices and nothing else. */
  lemma SuccessMovesAmount(b: Bank, fromId: AccountId, toId: AccountId, amount: int)
    requires Transfer(b, fromId, toId, amount).outcome == Returned(true)
    ensures amount > 0 && fromId in b.accounts && toId in b.accounts
    ensures var after := Transfer(b, fromId, toId, amount).after;
      && after.log == b.log + SuccessNotices(fromId, toId, amount)
      && (fromId != toId ==>
            && after.accounts[fromId] == b.accounts[fromId] - amount
            && after.accounts[toId] == b.accounts[toId] + amount
            && after.accounts[fromId] + after.accounts[toId] == b.accounts[fromId] + b.accounts[toId])
      && (fromId == toId ==> after.accounts == b.accounts)
  {
  }

  /** With the release guarded, a busy deposit lock would leave the debit,
      credit nothing and send both error notices. The state this needs
      breaks LocksNested, so no call of the service reaches it. */
  lemma BusyDepositLockKeepsDebit(b: Bank, fromId: AccountId, toId: AccountId, amount: int)
    requires CanStartCredit(b, fromId, amount) && b.toLocked
    ensures var r := Transfer(b, fromId, toId, amount);
      && r.outcome == Returned(false)
      && r.after.accounts == b.accounts[fromId := b.accounts[fromId] - amount]
      && r.after.log == b.log + ErrorNotices(fromId, toId, amount)
  {
  }

  /** Unknown destination with the deposit lock free: addMoney dereferences
      null after the debit; the debit stays and nothing is notified. */
  lemma UnknownDestinationKeepsDebit(b: Bank, fromId: AccountId, toId: AccountId, amount: int)
    requires CanStartCredit(b, fromId, amount) && !b.toLocked && toId !in b.accounts
    ensures Transfer(b, fromId, toId, amount)
         == Effect(Raised(NullAccount), b.(accounts := b.accounts[fromId := b.accounts[fromId] - amount]))
  {
  }

  /** The success and error notices are told apart by their text. */
  lemma NoticesDistinguishOutcome(fromId: AccountId, toId: AccountId, amount: nat)
    ensures SuccessNotices(fromId, toId, amount)[0] != ErrorNotices(fromId, toId, amount)[0]
    ensures SuccessNotices(fromId, toId, amount)[1] != ErrorNotices(fromId, toId, amount)[1]
  {
    assert SentMessage(amount, toId)[0] == 'S' != SendErrorMessage(amount, toId)[0];
    assert ReceivedMessage(amount, fromId)[0] == 'S' != ReceiveErrorMessage(amount, fromId)[0];
  }

  /** A success notice names the amount: different amounts give different
      texts. */
  lemma SentMessageNamesAmount(m: nat, n: nat, toId: AccountId)
    requires SentMessage(m, toId) == SentMessage(n, toId)
    ensures m == n
  {
    var prefix := "Successfully transfered Rs. ";
    var sm, sn := Decimal.Show(m), Decimal.Show(n);
    // equal texts and equal lengths: the digits sit at the same place
    assert |sm| == |sn|;
    assert sm == SentMessage(m, toId)[|prefix|..|prefix| + |sm|];
    assert sn == SentMessage(n, toId)[|prefix|..|prefix| + |sn|];
    Decimal.ShowInjective(m, n);
  }

  // ------------------------------------------ the deposit-lock release finding

  /** As written, false is only ever returned untouched: the error-notice
      branch is dead. */
  lemma AsWrittenNeverSendsErrorNotices(b: Bank, fromId: AccountId, toId: AccountId, amount: int)
    ensures var r := TransferAsWritten(b, fromId, toId, amount);
      amount > 0 ==> r.after.log != b.log + ErrorNotices(fromId, toId, amount)
  {
    var r := TransferAsWritten(b, fromId, toId, amount);
    if amount > 0 {
      var errors := b.log + ErrorNotices(fromId, toId, amount);
      if CanComplete(b, fromId, toId, amount) {
        NoticesDistinguishOutcome(fromId, toId, amount);
        assert r.after.log[|b.log|] != errors[|b.log|];
      } else {
        assert |r.after.log| != |errors|;
      }
    }
  }

  /** In the only state where the two versions part (here A and B at 100,
      deposit lock busy, withdraw lock free, 30 from A to B), the code as
      written throws with A already at 70, and the guarded release returns
      false with the two error notices. The state breaks LocksNested. */
  lemma BusyDepositLockExample()
    ensures var b := Bank(map["A" := 100, "B" := 100], false, true, []);
      && TransferAsWritten(b, "A", "B", 30)
         == Effect(Raised(IllegalMonitorState), b.(accounts := map["A" := 70, "B" := 100]))
      && Transfer(b, "A", "B", 30)
         == Effect(Returned(false), b.(accounts := map["A" := 70, "B" := 100], log := ErrorNotices("A", "B", 30)))
  {
    var b := Bank(map["A" := 100, "B" := 100], false, true, []);
    assert b.accounts["A" := 70] == map["A" := 70, "B" := 100];
  }

  /** Transfer never breaks the lock nesting. */
  lemma TransferKeepsLocksNested(b: Bank, fromId: AccountId, toId: AccountId, amount: int)
    requires LocksNested(b)
    ensures LocksNested(Transfer(b, fromId, toId, amount).after)
    ensures LocksNested(TransferAsWritten(b, fromId, toId, amount).after)
  {
  }

  /** On every state a call can start in, the code as written and the
      guarded release behave identically: the defect stays latent. */
  lemma AsWrittenAgreesWhenNested(b: Bank, fromId: AccountId, toId: AccountId, amount: int)
    requires LocksNested(b)
    ensures TransferAsWritten(b, fromId, toId, amount) == Transfer(b, fromId, toId, amount)
  {
  }

  /** On those states neither version ever sends the error notices. */
  lemma NestedNeverSendsErrorNotices(b: Bank, fromId: AccountId, toId: AccountId, amount: int)
    requires LocksNested(b) && amount > 0
    ensures Transfer(b, fromId, toId, amount).after.log != b.log + ErrorNotices(fromId, toId, amount)
  {
    AsWrittenAgreesWhenNested(b, fromId, toId, amount);
    AsWrittenNeverSendsErrorNotices(b, fromId, toId, amount);
  }
}
