/**
 * WalletService (internal/services/wallet_service.go): the amount check,
 * the deposit/withdraw mutator handed to the repository's atomic apply, and
 * the passthroughs to the repository.
 */
module Service {
  import opened Models
  import opened Repository

  /** enums.OperationType is a string type, so any other kind can be passed. */
  type OperationType = string

  const DEPOSIT: OperationType := "DEPOSIT"
  const WITHDRAW: OperationType := "WITHDRAW"

  /**
   * The closure Operation gives OperateAtomic, as a function of the locked
   * balance: a deposit adds, a withdrawal subtracts only when the balance
   * covers it, any other kind is refused.
   */
  function Mutator(op: OperationType, amount: int, balance: int): (r: Result<int>)
    ensures r.Success? <==> op == DEPOSIT || (op == WITHDRAW && amount <= balance)
    ensures r.Success? && op == DEPOSIT ==> r.value == balance + amount
    ensures r.Success? && op == WITHDRAW ==> r.value == balance - amount
    ensures op == WITHDRAW && balance < amount ==> r == Failure(InsufficientFunds)
    ensures op != DEPOSIT && op != WITHDRAW ==> r == Failure(UnknownOperation)
    // a positive amount never takes a non-negative balance below zero
    ensures 0 < amount && 0 <= balance && r.Success? ==> 0 <= r.value
  {
    match op
    case "DEPOSIT" => Success(balance + amount)
    case "WITHDRAW" => if balance < amount then Failure(InsufficientFunds) else Success(balance - amount)
    case _ => Failure(UnknownOperation)
  }

  /** The signed change a successful operation makes to the balance. */
  function Delta(op: OperationType, amount: int): (d: int)
  {
    if op == DEPOSIT then amount else if op == WITHDRAW then -amount else 0
  }

  /** Operation on a table value: the amount check, then the atomic apply of the mutator. */
  function OperationSpec(store: Store, id: WalletId, op: OperationType, amount: int): (s: Step)
    // the amount is checked before storage is touched
    ensures amount <= 0 ==> s == Step(Failure(AmountNotPositive), store)
    ensures 0 < amount && id !in store ==> s == Step(Failure(NotFound), store)
    ensures 0 < amount && id in store && op == WITHDRAW && store[id] < amount ==>
              s == Step(Failure(InsufficientFunds), store)
    ensures 0 < amount && id in store && op != DEPOSIT && op != WITHDRAW ==>
              s == Step(Failure(UnknownOperation), store)
    // a rejected operation leaves the table as it was
    ensures s.result.Failure? ==> s.store == store
    // an accepted one moves the target's balance by exactly its delta, and nothing else
    ensures s.result.Success? <==>
              0 < amount && id in store && (op == DEPOSIT || (op == WITHDRAW && amount <= store[id]))
    ensures s.result.Success? ==>
              && s.result.value == Wallet(id, store[id] + Delta(op, amount))
              && s.store == store[id := store[id] + Delta(op, amount)]
    ensures s.store.Keys == store.Keys
    ensures forall k :: k in store && k != id ==> s.store[k] == store[k]
    // the balance invariant survives every operation
    ensures NonNegative(store) ==> NonNegative(s.store)
  {
    if amount <= 0 then Step(Failure(AmountNotPositive), store)
    else AtomicApply(store, id, b => Mutator(op, amount, b))
  }

  class WalletService {
    const repo: WalletGormRepository

    constructor (r: WalletGormRepository)
      ensures repo == r
    {
      repo := r;
    }

    /** Creates a wallet through the repository (`newId` is the generated uuid). */
    method Create(newId: WalletId) returns (w: Wallet, err: Option<Error>)
      modifies repo
      ensures w == Wallet(newId, DefaultBalance)
      ensures newId !in old(repo.rows) ==> err == None && repo.rows == old(repo.rows)[newId := DefaultBalance]
      ensures newId in old(repo.rows) ==> err == Some(DuplicateKey) && repo.rows == old(repo.rows)
    {
      w, err := repo.Create(newId);
    }

    /** Deletes the wallet through the repository. */
    method Delete(id: WalletId)
      modifies repo
      ensures repo.rows == old(repo.rows) - {id}
    {
      repo.Delete(id);
    }

    /** The stored balance; 0 with the repository's error when there is no such wallet. */
    method Amount(id: WalletId) returns (amount: int, err: Option<Error>)
      ensures id in repo.rows ==> amount == repo.rows[id] && err == None
      ensures id !in repo.rows ==> amount == 0 && err == Some(NotFound)
    {
      var r := repo.Get(id);
      if r.Failure? {
        return 0, Some(r.error);
      }
      return r.value.balance, None;
    }

    /** Validates the amount, then applies the deposit or withdrawal atomically. */
    method Operation(id: WalletId, op: OperationType, amount: int) returns (r: Result<Wallet>)
      modifies repo
      ensures Step(r, repo.rows) == OperationSpec(old(repo.rows), id, op, amount)
    {
      if amount <= 0 {
        return Failure(AmountNotPositive);
      }
      r := repo.OperateAtomic(id, b => Mutator(op, amount, b));
    }

    /** Every stored wallet, from the repository. */
    method AllWallets() returns (ws: seq<Wallet>)
      ensures |ws| == |repo.rows|
      ensures forall i :: 0 <= i < |ws| ==> ws[i].id in repo.rows && ws[i].balance == repo.rows[ws[i].id]
      ensures forall i, j :: 0 <= i < j < |ws| ==> ws[i].id != ws[j].id
      ensures forall id :: id in repo.rows ==> Wallet(id, repo.rows[id]) in ws
    {
      ws := repo.AllWallets();
    }
  }
}
