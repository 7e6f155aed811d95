/**
 * The repository's and the service's tests (tests/repositories/wallet_test.go,
 * tests/services/wallet_services_test.go, tests/concurrent_test.go) as
 * clients of the classes: each method runs the test's calls on a fresh
 * table and its postcondition is what the test asserts; ServiceOperations
 * also reads the balance back after each rejected operation, which the
 * mock-based unit tests cannot. The concurrent tests' workers run one
 * after another, the order the row lock imposes.
 */
module Scenarios {
  import opened Models
  import opened Repository
  import opened Service

  /**
   * Create, Get, Update to 100, list, Delete, Get again. The id is a
   * version-4 UUID from uuid.New(), which is never the nil UUID.
   */
  method RepositoryCrud(newId: WalletId)
    returns (w: Wallet, created: Option<Error>, got: Result<Wallet>, updated: Wallet, listed: nat,
             afterDelete: Result<Wallet>)
    requires newId != 0
    ensures created == None && w.id != 0
    ensures got == Success(Wallet(newId, DefaultBalance))
    ensures updated == Wallet(newId, 100)
    ensures listed == 1
    ensures afterDelete == Failure(NotFound)
  {
    var repo := new WalletGormRepository();
    w, created := repo.Create(newId);
    got := repo.Get(w.id);
    updated := repo.Update(got.value.(balance := 100));
    var all := repo.AllWallets();
    listed := |all|;
    repo.Delete(w.id);
    afterDelete := repo.Get(w.id);
  }

  /**
   * The service's operation tests on a wallet holding 100 (30 for the
   * overdraft): deposit 50, withdraw 50, withdraw 50 from 30, kind "HELLO".
   */
  method ServiceOperations(id: WalletId)
    returns (deposit: Result<Wallet>, withdraw: Result<Wallet>, overdraft: Result<Wallet>,
             overdraftBalance: int, invalid: Result<Wallet>, invalidBalance: int)
    ensures deposit == Success(Wallet(id, 150))
    ensures withdraw == Success(Wallet(id, 50))
    ensures overdraft == Failure(InsufficientFunds) && Message(overdraft.error) == "Insufficient funds"
    ensures overdraftBalance == 30
    ensures invalid == Failure(UnknownOperation) && Message(invalid.error) == "Error"
    ensures invalidBalance == 100
  {
    var repo := new WalletGormRepository();
    var svc := new WalletService(repo);
    var _ := repo.Update(Wallet(id, 100));
    deposit := svc.Operation(id, DEPOSIT, 50);
    var _ := repo.Update(Wallet(id, 100));
    withdraw := svc.Operation(id, WITHDRAW, 50);
    var _ := repo.Update(Wallet(id, 30));
    overdraft := svc.Operation(id, WITHDRAW, 50);
    var err;
    overdraftBalance, err := svc.Amount(id);
    var _ := repo.Update(Wallet(id, 100));
    invalid := svc.Operation(id, "HELLO", 10);
    invalidBalance, err := svc.Amount(id);
  }

  /**
   * `workers` deposits of 1 on a new wallet, each worker's error collected:
   * all are nil and the balance is `workers`.
   */
  method ConcurrentDeposits(newId: WalletId, workers: nat) returns (errs: seq<Option<Error>>, balance: int)
    ensures |errs| == workers && forall k :: 0 <= k < |errs| ==> errs[k] == None
    ensures balance == workers
  {
    var repo := new WalletGormRepository();
    var svc := new WalletService(repo);
    var w, _ := repo.Create(newId);
    errs := [];
    while |errs| < workers
      invariant |errs| <= workers
      invariant repo.rows == map[newId := |errs|]
      invariant forall k :: 0 <= k < |errs| ==> errs[k] == None
    {
      var r := svc.Operation(w.id, DEPOSIT, 1);
      errs := errs + [ErrorOf(r)];
    }
    var got := repo.Get(w.id);
    balance := got.value.balance;
  }

  /**
   * DEPOSIT(workers) on a new wallet, then `workers` withdrawals of 1: none
   * sees insufficient funds and the balance ends at 0.
   */
  method ConcurrentWithdrawExact(newId: WalletId, workers: nat)
    returns (depositErr: Option<Error>, errs: seq<Option<Error>>, balance: int)
    requires 0 < workers
    ensures depositErr == None
    ensures |errs| == workers && forall k :: 0 <= k < |errs| ==> errs[k] == None
    ensures balance == 0
  {
    var repo := new WalletGormRepository();
    var svc := new WalletService(repo);
    var w, _ := repo.Create(newId);
    var first := svc.Operation(w.id, DEPOSIT, workers);
    depositErr := ErrorOf(first);
    errs := [];
    while |errs| < workers
      invariant |errs| <= workers
      invariant repo.rows == map[newId := workers - |errs|]
      invariant forall k :: 0 <= k < |errs| ==> errs[k] == None
    {
      var r := svc.Operation(w.id, WITHDRAW, 1);
      errs := errs + [ErrorOf(r)];
    }
    var got := repo.Get(w.id);
    balance := got.value.balance;
  }
}
