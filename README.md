# Wallet ledger: balance mutation, modelled in Dafny

This project models the core of a small wallet service written in Go. Every
wallet is a row with an id and an integer balance. The service checks each
deposit or withdrawal. It then hands the repository a mutator, and the
repository applies it in one locked read-mutate-write transaction
("atomic apply").

- `models.dfy` (module `Models`): the wallet record, the error taxonomy with
  the messages the code writes, `Result`/`Option` for Go's `(value, error)`
  pairs, and the invariant `NonNegative`. A `uuid.UUID` is a 128-bit number.
- `repository.dfy` (module `Repository`): `WalletGormRepository`, a class whose
  field `rows: map<WalletId, int>` is the wallets table. `AtomicApply` is the
  transaction of `OperateAtomic` on a table value, and the method is proved
  equal to it.
- `service.dfy` (module `Service`): the mutator closure as the pure function
  `Mutator`. `OperationSpec` is the amount check followed by the atomic apply.
  `WalletService` holds the repository and delegates to it.
- `serial.dfy` (module `Serial`): concurrency. The row lock serialises the
  `Operation` calls on one wallet, so every execution is some sequence of
  atomic steps. `RunSerial` applies a sequence of requests in order. The
  lemmas hold for every such sequence: no lost updates, no overdraft, the
  balance stays non-negative, other wallets stay untouched, and the two
  concurrency tests' outcomes follow.
- `scenarios.dfy` (module `Scenarios`): the repository, service and
  concurrency tests written as client methods of the classes. Each
  postcondition is what the test asserts. `ServiceOperations` states more:
  it also reads the balance back after each rejected operation.

Inputs the core takes from outside become parameters. The id `uuid.New()`
generates is an argument of `Create`. The mutator is an argument of
`OperateAtomic`.

Where the design description and the code differ, the model follows the code:
- Deposits have no overflow check and no `Overflow` error, as in the code.
  What the model does instead is listed under "Left out".
- `Delete` of a missing id reports no error. GORM's delete by primary key
  succeeds when no row matches.
- An unknown operation kind fails with the message `"Error"`.

## Model

| member | source | states |
|---|---|---|
| Repository.AtomicApply | internal/repository/wallet_repository.go:56-78 | a missing row fails with NotFound; a mutator error is returned unchanged; every failure leaves the table as it was; a successful mutator always commits, returning the row's id with its output and storing exactly that, and a success arises only that way; the key set and every other row are unchanged |
| Repository.WalletGormRepository.constructor | internal/repository/wallet_repository.go:21-23 | a repository starts with an empty wallets table |
| Repository.WalletGormRepository.Create | internal/repository/wallet_repository.go:25-29 | returns the wallet with the generated id and balance 0 in every case; a new id is inserted with balance 0 and every other row is unchanged; an id that already exists fails with DuplicateKey and changes nothing |
| Repository.WalletGormRepository.Update | internal/repository/wallet_repository.go:31-39 | the wallet's balance is saved under its id (inserted if absent), nothing else changes, and the same wallet is returned |
| Repository.WalletGormRepository.Delete | internal/repository/wallet_repository.go:41-43 | the row for the id is gone afterwards and every other row is unchanged |
| Repository.WalletGormRepository.Get | internal/repository/wallet_repository.go:45-54 | a present id yields its stored balance; an absent one yields NotFound and no wallet |
| Repository.WalletGormRepository.OperateAtomic | internal/repository/wallet_repository.go:56-78 | the new table and the result are those of AtomicApply: a missing id gives NotFound with nothing written; a mutator failure returns that error and writes nothing; a successful mutator returns the id with its output and stores that output under the id; other rows and the key set are unchanged |
| Repository.WalletGormRepository.AllWallets | internal/repository/wallet_repository.go:80-91 | returns every stored wallet exactly once with its stored balance, and nothing else |
| Service.Mutator | internal/services/wallet_service.go:50-63 | succeeds exactly for DEPOSIT or for a WITHDRAW the balance covers; a deposit adds the amount and a withdrawal subtracts it; a short balance gives InsufficientFunds and any other kind UnknownOperation; a positive amount keeps a non-negative balance non-negative |
| Service.OperationSpec | internal/services/wallet_service.go:45-64 | a non-positive amount fails with AmountNotPositive before the table is read; a missing id gives NotFound, an overdraft InsufficientFunds, an unknown kind UnknownOperation, each leaving the table unchanged; success happens exactly when the amount is positive, the wallet exists and the kind is DEPOSIT or a covered WITHDRAW, and it moves only that balance by the signed amount and returns it with the id; non-negative balances stay non-negative |
| Service.WalletService.constructor | internal/services/wallet_service.go:16-18 | the service holds the repository it is given |
| Service.WalletService.Create | internal/services/wallet_service.go:20-29 | passes the repository's created wallet and error through unchanged |
| Service.WalletService.Delete | internal/services/wallet_service.go:31-33 | removes the wallet's row through the repository |
| Service.WalletService.Amount | internal/services/wallet_service.go:35-43 | returns the stored balance of an existing wallet, and 0 with NotFound otherwise |
| Service.WalletService.Operation | internal/services/wallet_service.go:45-64 | the result and the new table are those of OperationSpec on the old table |
| Service.WalletService.AllWallets | internal/services/wallet_service.go:66-68 | returns every stored wallet exactly once with its stored balance |
| Serial.RunSerial | internal/repository/wallet_repository.go:61-63 | a run of locked operations yields one result per request and keeps the set of wallet ids |
| Serial.RunKeepsNonNegative | internal/services/wallet_service.go:46-58 | from a table without negative balances, no sequence of operations produces a negative balance |
| Serial.RunLeavesOthersAlone | internal/repository/wallet_repository.go:61-75 | a wallet that no request targets keeps its balance through any run |
| Serial.NoLostUpdates | internal/repository/wallet_repository.go:56-78 | in a run over any mix of wallets, a wallet's final balance equals its initial balance plus the signed amount of every accepted request on it, each counted once; rejected requests and requests on other wallets contribute nothing |
| Serial.SerialDeposits | tests/concurrent_test.go:179-210 | n deposits of 1 on an existing wallet all succeed and raise its balance by exactly n |
| Serial.SerialWithdrawals | tests/concurrent_test.go:212-246 | n withdrawals of 1 from a balance of at least n all succeed and lower it by exactly n |
| Serial.DepositsFromZero | tests/concurrent_test.go:184-209 | n deposits of 1 on a freshly created wallet all succeed and leave balance n |
| Serial.WithdrawExact | tests/concurrent_test.go:220-245 | after DEPOSIT(m) on a fresh wallet, m withdrawals of 1 all succeed and leave balance 0 |
| Serial.OperationAfterDelete | internal/repository/wallet_repository.go:61-65 | once a wallet is deleted, every operation on it fails, with NotFound for a positive amount, and changes nothing |
| Scenarios.RepositoryCrud | tests/repositories/wallet_test.go:47-73 | for a non-nil generated id: create succeeds and returns a non-zero id, get returns the new wallet with balance 0, update to 100 returns balance 100, the listing has length 1, and get after delete fails with NotFound |
| Scenarios.ServiceOperations | tests/services/wallet_services_test.go:71-151 | on balance 100, deposit 50 gives 150 and withdraw 50 gives 50, each with the same id; withdraw 50 from 30 fails with "Insufficient funds" and kind "HELLO" fails with "Error", neither returning a wallet; beyond the tests, the balance read back afterwards is still 30 and 100 |
| Scenarios.ConcurrentDeposits | tests/concurrent_test.go:179-210 | every one of the workers' deposits of 1 on a new wallet reports no error, and the balance read back equals the number of workers |
| Scenarios.ConcurrentWithdrawExact | tests/concurrent_test.go:212-246 | the initial deposit and every one of the workers' withdrawals of 1 report no error, and the balance read back is 0 |

## Left out

- Concurrency itself is not modelled: goroutines, the `SELECT ... FOR UPDATE` row lock and the transaction machinery. Each `OperateAtomic` is one atomic step on the table. Interleavings are the serial orders the row lock allows (`Serial.RunSerial`).
- Storage and connection faults are not modelled: a failed `Save`, commit or query, lost connections, lock timeouts. Only the not-found and duplicate-key errors exist. Because of this, `Update`, `Delete` and `AllWallets` have no error result.
- `uuid.New()` is not modelled; the generated id is a parameter of `Create`.
- Repository.WalletGormRepository.OperateAtomic: does not state that the mutator is never run when the row is missing. A pure function's call cannot be observed; the model only shows that the result ignores it.
- Service.Mutator: does not model the 64-bit wrap-around of Go's `int` in `w.Balance += amount`; balances are unbounded integers here. In the program, a deposit on a balance near 2^63 - 1 wraps to a negative balance. The model's deposit gives the true sum instead.
- Service.OperationSpec: its non-negativity clause holds only without wrap-around. A deposit that overflows a 64-bit balance breaks it in the program.
- Serial.RunKeepsNonNegative: assumes no wrap-around, for the same reason. The program keeps balances non-negative only while every sum stays within 64 bits.
- The service depends on the concrete repository here. In the code it depends on the `WalletRepository` interface, which its unit tests fill with mocks. The model does not cover other implementations of that interface.
- The mutator is a function from balance to balance. It cannot change the wallet id the Go closure receives; the service's closure never does.
- For NotFound the message is GORM's `record not found`. For DuplicateKey it is only the start of PostgreSQL's message; the full message also names the constraint, and the driver adds a prefix and the SQLSTATE code. The code passes both errors through without writing the texts itself.
- The values of `enums.DEPOSIT` and `enums.WITHDRAW` are taken as "DEPOSIT" and "WITHDRAW", the values the request binding accepts. The enums file is not part of this model.
- The HTTP handler, request/response DTOs, configuration loading, database startup and schema migration are adapters or plumbing with no balance logic.
- The older test revision against a `uint`-id repository with a separate Get and Update is not modelled. It does not match the current interface.
