/** Sequences of transfers, one after another: what a series of calls on
    the same service keeps, and where the two-transfer scenarios of the
    service's tests end up when their calls do not overlap. */
module Runs {
  import opened Ledger

  datatype Request = Request(fromId: AccountId, toId: AccountId, amount: int)

  /** The state after the requests run in order; each call is independent,
      so one that throws does not stop the next. */
  function Run(b: Bank, reqs: seq<Request>): (after: Bank)
    decreases |reqs|
  {
    if reqs == [] then b
    else Run(Transfer(b, reqs[0].fromId, reqs[0].toId, reqs[0].amount).after, reqs[1..])
  }

  ghost predicate NonNegative(store: Store) {
    forall id :: id in store ==> store[id] >= 0
  }

  predicate Distinct(ids: seq<AccountId>) {
    forall i, j :: 0 <= i < j < |ids| ==> ids[i] != ids[j]
  }

  predicate Within(ids: seq<AccountId>, store: Store) {
    forall i :: 0 <= i < |ids| ==> ids[i] in store
  }

  /** Total balance of the listed accounts. */
  function SumOf(store: Store, ids: seq<AccountId>): (total: int)
    requires Within(ids, store)
  {
    if ids == [] then 0 else store[ids[0]] + SumOf(store, ids[1..])
  }

  // ------------------------------------------------------------- totals

  /** Setting one balance moves the total by the change, when the account
      is listed once, and not at all when it is not listed. */
  lemma {:induction false} SumOfUpdate(store: Store, ids: seq<AccountId>, id: AccountId, v: int)
    requires id in store && Within(ids, store) && Distinct(ids)
    ensures Within(ids, store[id := v])
    ensures SumOf(store[id := v], ids) == SumOf(store, ids) + (if id in ids then v - store[id] else 0)
  {
    if ids != [] {
      assert Distinct(ids[1..]) by {
        forall i, j | 0 <= i < j < |ids| - 1 ensures ids[1..][i] != ids[1..][j] {
          assert ids[1..][i] == ids[i + 1] && ids[1..][j] == ids[j + 1];
        }
      }
      SumOfUpdate(store, ids[1..], id, v);
      assert id in ids <==> id == ids[0] || id in ids[1..] by {
        assert ids == [ids[0]] + ids[1..];
      }
      if id == ids[0] {
        assert id !in ids[1..] by {
          forall k | 0 <= k < |ids| - 1 ensures ids[1..][k] != id {
            assert ids[1..][k] == ids[k + 1];
          }
        }
      }
    }
  }

  /** From any state a call can start in, a transfer between two listed
      accounts keeps their total, whatever its outcome. */
  lemma TransferConservesTotal(b: Bank, ids: seq<AccountId>, r: Request)
    requires Within(ids, b.accounts) && Distinct(ids)
    requires r.fromId in ids && r.toId in ids && LocksNested(b)
    ensures Within(ids, Transfer(b, r.fromId, r.toId, r.amount).after.accounts)
    ensures SumOf(Transfer(b, r.fromId, r.toId, r.amount).after.accounts, ids) == SumOf(b.accounts, ids)
  {
    var after := Transfer(b, r.fromId, r.toId, r.amount).after.accounts;
    if after != b.accounts {
      assert CanComplete(b, r.fromId, r.toId, r.amount);
      var debited := Debit(b.accounts, r.fromId, r.amount);
      SumOfUpdate(b.accounts, ids, r.fromId, b.accounts[r.fromId] - r.amount);
      SumOfUpdate(debited, ids, r.toId, debited[r.toId] + r.amount);
    }
  }

  /** An unknown destination makes money disappear: the debit has run when
      addMoney dereferences null, so the listed total drops by the amount. */
  lemma UnknownDestinationLosesAmount(b: Bank, ids: seq<AccountId>, r: Request)
    requires Within(ids, b.accounts) && Distinct(ids)
    requires r.fromId in ids && CanStartCredit(b, r.fromId, r.amount) && LocksNested(b) && r.toId !in b.accounts
    ensures Within(ids, Transfer(b, r.fromId, r.toId, r.amount).after.accounts)
    ensures SumOf(Transfer(b, r.fromId, r.toId, r.amount).after.accounts, ids) == SumOf(b.accounts, ids) - r.amount
  {
    SumOfUpdate(b.accounts, ids, r.fromId, b.accounts[r.fromId] - r.amount);
  }

  ghost predicate Among(reqs: seq<Request>, ids: seq<AccountId>) {
    forall k :: 0 <= k < |reqs| ==> reqs[k].fromId in ids && reqs[k].toId in ids
  }

  /** Sequential calls between accounts that exist never create or lose
      money among them. */
  lemma {:induction false} RunConservesTotal(b: Bank, ids: seq<AccountId>, reqs: seq<Request>)
    requires Within(ids, b.accounts) && Distinct(ids) && LocksNested(b) && Among(reqs, ids)
    ensures Within(ids, Run(b, reqs).accounts)
    ensures SumOf(Run(b, reqs).accounts, ids) == SumOf(b.accounts, ids)
    decreases |reqs|
  {
    if reqs != [] {
      var r := reqs[0];
      TransferConservesTotal(b, ids, r);
      var next := Transfer(b, r.fromId, r.toId, r.amount).after;
      assert Among(reqs[1..], ids) by {
        forall k | 0 <= k < |reqs| - 1 ensures reqs[1..][k].fromId in ids && reqs[1..][k].toId in ids {
          assert reqs[1..][k] == reqs[k + 1];
        }
      }
      RunConservesTotal(next, ids, reqs[1..]);
    }
  }

  // ------------------------------------------------------- invariants

  /** No single call can overdraw an account that starts non-negative,
      whatever the other balances are. */
  lemma TransferKeepsNonNegative(b: Bank, r: Request, id: AccountId)
    requires id in b.accounts && b.accounts[id] >= 0
    ensures id in Transfer(b, r.fromId, r.toId, r.amount).after.accounts
    ensures Transfer(b, r.fromId, r.toId, r.amount).after.accounts[id] >= 0
  {
  }

  /** Sequential calls keep every non-negative balance non-negative, and
      leave the set of accounts and both locks as they found them. */
  lemma {:induction false} RunKeepsInvariants(b: Bank, reqs: seq<Request>)
    ensures Run(b, reqs).accounts.Keys == b.accounts.Keys
    ensures forall id :: id in b.accounts && b.accounts[id] >= 0 ==> Run(b, reqs).accounts[id] >= 0
    ensures NonNegative(b.accounts) ==> NonNegative(Run(b, reqs).accounts)
    ensures Run(b, reqs).fromLocked == b.fromLocked && Run(b, reqs).toLocked == b.toLocked
    decreases |reqs|
  {
    if reqs != [] {
      var next := Transfer(b, reqs[0].fromId, reqs[0].toId, reqs[0].amount).after;
      forall id | id in b.accounts && b.accounts[id] >= 0
        ensures next.accounts[id] >= 0
      {
        TransferKeepsNonNegative(b, reqs[0], id);
      }
      RunKeepsInvariants(next, reqs[1..]);
    }
  }

  // ------------------------------------------------ the tests' scenarios

  function Pair(x: AccountId, xv: int, y: AccountId, yv: int): (b: Bank) {
    Bank(map[x := xv, y := yv], false, false, [])
  }

  /** A and B at 100, transfers of 30 and 80 from A to B: run one after the
      other, the first succeeds and the second finds too little money, so A
      ends at 70 or 20 and never at -10. */
  lemma TwoDebitsFromOneAccount()
    ensures Run(Pair("A", 100, "B", 100), [Request("A", "B", 30), Request("A", "B", 80)]).accounts
         == map["A" := 70, "B" := 130]
    ensures Run(Pair("A", 100, "B", 100), [Request("A", "B", 80), Request("A", "B", 30)]).accounts
         == map["A" := 20, "B" := 180]
  {
    var b := Pair("A", 100, "B", 100);
    var first := Transfer(b, "A", "B", 30).after;
    assert first.accounts == map["A" := 70, "B" := 130];
    assert Transfer(first, "A", "B", 80).after.accounts == first.accounts;
    var other := Transfer(b, "A", "B", 80).after;
    assert other.accounts == map["A" := 20, "B" := 180];
    assert Transfer(other, "A", "B", 30).after.accounts == other.accounts;
  }

  /** C and D at 100, transfers of 40 from C to D and 60 from D to C: run
      one after the other, in either order, both succeed and C ends at 120
      and D at 80. */
  lemma OpposingTransfers()
    ensures Run(Pair("C", 100, "D", 100), [Request("C", "D", 40), Request("D", "C", 60)]).accounts
         == map["C" := 120, "D" := 80]
    ensures Run(Pair("C", 100, "D", 100), [Request("D", "C", 60), Request("C", "D", 40)]).accounts
         == map["C" := 120, "D" := 80]
  {
    var b := Pair("C", 100, "D", 100);
    var first := Transfer(b, "C", "D", 40).after;
    assert first.accounts == map["C" := 60, "D" := 140];
    assert Transfer(first, "D", "C", 60).after.accounts == map["C" := 120, "D" := 80];
    var other := Transfer(b, "D", "C", 60).after;
    assert other.accounts == map["C" := 160, "D" := 40];
    assert Transfer(other, "C", "D", 40).after.accounts == map["C" := 120, "D" := 80];
  }
}
