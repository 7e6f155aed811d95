/**
 * Concurrent Operation calls as serial runs. The row lock taken by
 * OperateAtomic serialises the calls on one wallet, so every execution is
 * some sequence of atomic steps; a run applies a sequence of requests to
 * the table in order. The lemmas state what the concurrency tests
 * (tests/concurrent_test.go) expect of any such sequence.
 */
module Serial {
  import opened Models
  import opened Repository
  import opened Service

  /** One Operation call: target wallet, kind and amount. */
  datatype Request = Request(id: WalletId, op: OperationType, amount: int)

  /** The result of every request in a run, in order, and the final table. */
  datatype Run = Run(results: seq<Result<Wallet>>, store: Store)

  /** Applies the requests one after another, each seeing the table its predecessor left. */
  function RunSerial(store: Store, reqs: seq<Request>): (run: Run)
    ensures |run.results| == |reqs|
    ensures run.store.Keys == store.Keys
    decreases |reqs|
  {
    if reqs == [] then Run([], store)
    else
      var s := OperationSpec(store, reqs[0].id, reqs[0].op, reqs[0].amount);
      var rest := RunSerial(s.store, reqs[1..]);
      Run([s.result] + rest.results, rest.store)
  }

  /** `n` copies of one request, as n workers each issuing it. */
  function Repeat(req: Request, n: nat): (reqs: seq<Request>)
    ensures |reqs| == n
    ensures forall i :: 0 <= i < n ==> reqs[i] == req
  {
    if n == 0 then [] else [req] + Repeat(req, n - 1)
  }

  predicate AllSucceed(results: seq<Result<Wallet>>)
  {
    forall i :: 0 <= i < |results| ==> results[i].Success?
  }

  /** The summed deltas of the accepted requests that target wallet `id`. */
  function AcceptedTotal(id: WalletId, reqs: seq<Request>, results: seq<Result<Wallet>>): (total: int)
    requires |results| == |reqs|
    decreases |reqs|
  {
    if reqs == [] then 0
    else (if reqs[0].id == id && results[0].Success? then Delta(reqs[0].op, reqs[0].amount) else 0)
         + AcceptedTotal(id, reqs[1..], results[1..])
  }

  /** No committed state of a run has a negative balance. */
  lemma {:induction false} RunKeepsNonNegative(store: Store, reqs: seq<Request>)
    requires NonNegative(store)
    ensures NonNegative(RunSerial(store, reqs).store)
    decreases |reqs|
  {
    if reqs != [] {
      var s := OperationSpec(store, reqs[0].id, reqs[0].op, reqs[0].amount);
      RunKeepsNonNegative(s.store, reqs[1..]);
    }
  }

  /** A wallet no request targets keeps its balance through the whole run. */
  lemma {:induction false} RunLeavesOthersAlone(store: Store, reqs: seq<Request>, k: WalletId)
    requires k in store
    requires forall i :: 0 <= i < |reqs| ==> reqs[i].id != k
    ensures RunSerial(store, reqs).store[k] == store[k]
    decreases |reqs|
  {
    if reqs != [] {
      var s := OperationSpec(store, reqs[0].id, reqs[0].op, reqs[0].amount);
      RunLeavesOthersAlone(s.store, reqs[1..], k);
    }
  }

  /**
   * No lost updates: in a run over any mix of wallets, the final balance of
   * `id` is its initial one plus the delta of every accepted request on
   * `id`, each counted once; rejected requests and requests on other
   * wallets contribute nothing.
   */
  lemma {:induction false} NoLostUpdates(store: Store, reqs: seq<Request>, id: WalletId)
    requires id in store
    ensures RunSerial(store, reqs).store[id] == store[id] + AcceptedTotal(id, reqs, RunSerial(store, reqs).results)
    decreases |reqs|
  {
    if reqs != [] {
      var s := OperationSpec(store, reqs[0].id, reqs[0].op, reqs[0].amount);
      var run := RunSerial(store, reqs);
      var rest := RunSerial(s.store, reqs[1..]);
      assert run.results[0] == s.result && run.results[1..] == rest.results;
      NoLostUpdates(s.store, reqs[1..], id);
    }
  }

  /** n deposits of 1 on an existing wallet all succeed and raise its balance by n. */
  lemma {:induction false} SerialDeposits(store: Store, id: WalletId, n: nat)
    requires id in store
    ensures AllSucceed(RunSerial(store, Repeat(Request(id, DEPOSIT, 1), n)).results)
    ensures RunSerial(store, Repeat(Request(id, DEPOSIT, 1), n)).store[id] == store[id] + n
    decreases n
  {
    var reqs := Repeat(Request(id, DEPOSIT, 1), n);
    if n > 0 {
      var s := OperationSpec(store, id, DEPOSIT, 1);
      assert reqs[1..] == Repeat(Request(id, DEPOSIT, 1), n - 1);
      SerialDeposits(s.store, id, n - 1);
    }
  }

  /** n withdrawals of 1 from a balance of at least n all succeed and lower it by n. */
  lemma {:induction false} SerialWithdrawals(store: Store, id: WalletId, n: nat)
    requires id in store && n <= store[id]
    ensures AllSucceed(RunSerial(store, Repeat(Request(id, WITHDRAW, 1), n)).results)
    ensures RunSerial(store, Repeat(Request(id, WITHDRAW, 1), n)).store[id] == store[id] - n
    decreases n
  {
    var reqs := Repeat(Request(id, WITHDRAW, 1), n);
    if n > 0 {
      var s := OperationSpec(store, id, WITHDRAW, 1);
      assert reqs[1..] == Repeat(Request(id, WITHDRAW, 1), n - 1);
      SerialWithdrawals(s.store, id, n - 1);
    }
  }

  /** The deposit test: N deposits of 1 on a fresh wallet leave exactly N. */
  lemma DepositsFromZero(store: Store, id: WalletId, n: nat)
    requires id in store && store[id] == DefaultBalance
    ensures AllSucceed(RunSerial(store, Repeat(Request(id, DEPOSIT, 1), n)).results)
    ensures RunSerial(store, Repeat(Request(id, DEPOSIT, 1), n)).store[id] == n
  {
    SerialDeposits(store, id, n);
  }

  /**
   * The exact-withdrawal test: after DEPOSIT(m) on a fresh wallet, m
   * withdrawals of 1 all succeed (none sees insufficient funds) and leave 0.
   */
  lemma WithdrawExact(store: Store, id: WalletId, m: nat)
    requires id in store && store[id] == DefaultBalance && 0 < m
    ensures AllSucceed(RunSerial(store, [Request(id, DEPOSIT, m)] + Repeat(Request(id, WITHDRAW, 1), m)).results)
    ensures RunSerial(store, [Request(id, DEPOSIT, m)] + Repeat(Request(id, WITHDRAW, 1), m)).store[id] == 0
  {
    var withdrawals := Repeat(Request(id, WITHDRAW, 1), m);
    var s := OperationSpec(store, id, DEPOSIT, m);
    assert s.result.Success? && id in s.store && s.store[id] == m;
    SerialWithdrawals(s.store, id, m);
    RunFirst(store, Request(id, DEPOSIT, m), withdrawals);
  }

  /** A run whose first request succeeds: that result, then the rest of the run from the new table. */
  lemma RunFirst(store: Store, req: Request, reqs: seq<Request>)
    requires OperationSpec(store, req.id, req.op, req.amount).result.Success?
    requires AllSucceed(RunSerial(OperationSpec(store, req.id, req.op, req.amount).store, reqs).results)
    ensures AllSucceed(RunSerial(store, [req] + reqs).results)
    ensures RunSerial(store, [req] + reqs).store == RunSerial(OperationSpec(store, req.id, req.op, req.amount).store, reqs).store
  {
    assert ([req] + reqs)[0] == req && ([req] + reqs)[1..] == reqs;
  }

  /** After Delete, every operation on that id fails and changes nothing. */
  lemma OperationAfterDelete(store: Store, id: WalletId, op: OperationType, amount: int)
    ensures OperationSpec(store - {id}, id, op, amount).result.Failure?
    ensures OperationSpec(store - {id}, id, op, amount).store == store - {id}
    ensures 0 < amount ==> OperationSpec(store - {id}, id, op, amount).result == Failure(NotFound)
  {
  }
}
