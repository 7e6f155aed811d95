/**
 * WalletGORMRepository (internal/repository/wallet_repository.go): wallets
 * keyed by id in one table, with plain CRUD and the locked
 * read-mutate-write transaction OperateAtomic. The table is a map held by a
 * class; a transaction is one atomic step on it.
 */
module Repository {
  import opened Models

  /** What one atomic apply returns and the table it leaves behind. */
  datatype Step = Step(result: Result<Wallet>, store: Store)

  /**
   * The transaction of OperateAtomic on a table value: read the row for
   * `id` (or fail), run the mutator on its balance, and on success write
   * the new balance back under the same id.
   */
  function AtomicApply(store: Store, id: WalletId, mutate: int -> Result<int>): (s: Step)
    // a missing row aborts before the mutator: not found, nothing written
    ensures id !in store ==> s.result == Failure(NotFound)
    // a mutator error is returned as it is
    ensures id in store && mutate(store[id]).Failure? ==> s.result == Failure(mutate(store[id]).error)
    // every failure rolls back: the table is as it was
    ensures s.result.Failure? ==> s.store == store
    // a successful mutator commits: its output is returned with the row's id and stored
    ensures id in store && mutate(store[id]).Success? ==>
              && s.result == Success(Wallet(id, mutate(store[id]).value))
              && s.store == store[id := mutate(store[id]).value]
    // and a success arises only that way
    ensures s.result.Success? ==>
              && id in store
              && mutate(store[id]) == Success(s.result.value.balance)
              && s.result.value.id == id
              && s.store == store[id := s.result.value.balance]
    // only the target row can change
    ensures s.store.Keys == store.Keys
    ensures forall k :: k in store && k != id ==> s.store[k] == store[k]
  {
    if id !in store then Step(Failure(NotFound), store)
    else
      match mutate(store[id])
      case Failure(e) => Step(Failure(e), store)
      case Success(b) => Step(Success(Wallet(id, b)), store[id := b])
  }

  class WalletGormRepository {
    /** The wallets table: balance by primary key. */
    var rows: Store

    constructor ()
      ensures rows == map[]
    {
      rows := map[];
    }

    /**
     * Inserts a wallet with id `newId` (the value uuid.New() produced) and
     * the default balance. The wallet is returned whatever happens; the
     * insert fails if `newId` is already a primary key.
     */
    method Create(newId: WalletId) returns (w: Wallet, err: Option<Error>)
      modifies this
      ensures w == Wallet(newId, DefaultBalance)
      ensures newId !in old(rows) ==> err == None && rows == old(rows)[newId := DefaultBalance]
      ensures newId in old(rows) ==> err == Some(DuplicateKey) && rows == old(rows)
    {
      w := Wallet(newId, DefaultBalance);
      if newId in rows {
        err := Some(DuplicateKey);
      } else {
        rows := rows[newId := DefaultBalance];
        err := None;
      }
    }

    /** Saves the wallet under its id (an update, or an insert if the row is absent) and returns it. */
    method Update(w: Wallet) returns (r: Wallet)
      modifies this
      ensures r == w
      ensures rows == old(rows)[w.id := w.balance]
    {
      rows := rows[w.id := w.balance];
      r := w;
    }

    /** Removes the row for `id` if there is one. */
    method Delete(id: WalletId)
      modifies this
      ensures rows == old(rows) - {id}
    {
      rows := rows - {id};
    }

    /** Reads the row for `id`. */
    method Get(id: WalletId) returns (r: Result<Wallet>)
      ensures id in rows ==> r == Success(Wallet(id, rows[id]))
      ensures id !in rows ==> r == Failure(NotFound)
    {
      if id in rows {
        r := Success(Wallet(id, rows[id]));
      } else {
        r := Failure(NotFound);
      }
    }

    /**
     * Runs `mutate` on the locked row for `id` and saves its output. A
     * missing row or a mutator error aborts the transaction with nothing
     * written.
     */
    method OperateAtomic(id: WalletId, mutate: int -> Result<int>) returns (r: Result<Wallet>)
      modifies this
      ensures Step(r, rows) == AtomicApply(old(rows), id, mutate)
      ensures id !in old(rows) ==> r == Failure(NotFound) && rows == old(rows)
      ensures id in old(rows) && mutate(old(rows)[id]).Failure? ==>
                r == Failure(mutate(old(rows)[id]).error) && rows == old(rows)
      ensures r.Failure? ==> rows == old(rows)
      ensures id in old(rows) && mutate(old(rows)[id]).Success? ==>
                && r == Success(Wallet(id, mutate(old(rows)[id]).value))
                && rows == old(rows)[id := mutate(old(rows)[id]).value]
      ensures r.Success? ==> r.value.id == id && id in rows && rows[id] == r.value.balance
      ensures rows.Keys == old(rows.Keys)
      ensures forall k :: k in old(rows) && k != id ==> rows[k] == old(rows)[k]
    {
      if id !in rows {
        r := Failure(NotFound);
        return;
      }
      var w := Wallet(id, rows[id]);
      var outcome := mutate(w.balance);
      if outcome.Failure? {
        r := Failure(outcome.error);
        return;
      }
      w := w.(balance := outcome.value);
      rows := rows[w.id := w.balance];
      r := Success(w);
    }

    /** Lists every stored wallet, each once, in no particular order. */
    method AllWallets() returns (ws: seq<Wallet>)
      ensures |ws| == |rows|
      ensures forall i :: 0 <= i < |ws| ==> ws[i].id in rows && ws[i].balance == rows[ws[i].id]
      ensures forall i, j :: 0 <= i < j < |ws| ==> ws[i].id != ws[j].id
      ensures forall id :: id in rows ==> Wallet(id, rows[id]) in ws
    {
      ws := [];
      var pending := rows.Keys;
      while pending != {}
        invariant pending <= rows.Keys
        invariant |ws| + |pending| == |rows|
        invariant forall i :: 0 <= i < |ws| ==> ws[i].id in rows && ws[i].id !in pending && ws[i].balance == rows[ws[i].id]
        invariant forall i, j :: 0 <= i < j < |ws| ==> ws[i].id != ws[j].id
        invariant forall id :: id in rows && id !in pending ==> Wallet(id, rows[id]) in ws
        decreases |pending|
      {
        var id :| id in pending;
        ws := ws + [Wallet(id, rows[id])];
        pending := pending - {id};
      }
    }
  }
}
