/**
  The transactions table and its store (internal/store/transaction_store.go).  A row is inserted by two
  statements outside any transaction, so the second can fail after the first has taken effect.
 */
module Transactions {
  import opened Common
  import opened Calendar
  import opened Enrichment
  import opened Statement

  datatype Txn = Txn(id: nat, account: string, user: string, reference: Option<string>,
                     amount: int, direction: Direction, description: string, date: Date)

  /** `txns` is keyed by the unique idempotency key, `enr` by transaction id. */
  datatype Db = Db(txns: map<string, Txn>, enr: map<nat, Enrichment>, nextId: nat)

  /** What the schema guarantees: ids are unique, and every enrichment row belongs to a transaction. */
  ghost predicate Wf(db: Db) {
    && (forall k | k in db.txns :: db.txns[k].id < db.nextId)
    && (forall k, l | k in db.txns && l in db.txns && k != l :: db.txns[k].id != db.txns[l].id)
    && (forall i | i in db.enr :: i < db.nextId)
  }

  function WithTxn(db: Db, key: string, t: Txn): Db {
    db.(txns := db.txns[key := t.(id := db.nextId)], nextId := db.nextId + 1)
  }

  function WithBlank(db: Db, id: nat): Db {
    db.(enr := db.enr[id := BLANK])
  }

  function Enriched(db: Db, id: nat, u: Update): Db {
    db.(enr := UpdateRow(db.enr, id, u))
  }

  class TransactionStore {
    var txns: map<string, Txn>
    var enr: map<nat, Enrichment>
    var nextId: nat

    function View(): Db
      reads this
    {
      Db(txns, enr, nextId)
    }

    constructor ()
      ensures View() == Db(map[], map[], 0)
    {
      txns, enr, nextId := map[], map[], 0;
    }

    /** None is a failed query. */
    method IdempotencyKeyExists(key: string, fault: bool) returns (found: Option<bool>)
      ensures found == if fault then None else Some(key in txns)
    {
      found := if fault then None else Some(key in txns);
    }

    /** None is a failed query or a missing row. */
    method GetIDByIdempotencyKey(key: string, fault: bool) returns (id: Option<nat>)
      ensures id == if fault || key !in txns then None else Some(txns[key].id)
    {
      id := if fault || key !in txns then None else Some(txns[key].id);
    }

    /** None is an error; it can leave the transaction stored without its enrichment row. */
    method Insert(key: string, t: Txn, insertFault: bool, blankFault: bool) returns (id: Option<nat>)
      requires Wf(View())
      modifies this
      ensures Wf(View())
      ensures if insertFault || key in old(txns) then View() == old(View()) && id.None?
              else if blankFault then View() == WithTxn(old(View()), key, t) && id.None?
              else View() == WithBlank(WithTxn(old(View()), key, t), old(nextId)) && id == Some(old(nextId))
    {
      if insertFault || key in txns {
        return None;
      }
      var next := nextId;
      txns, nextId := txns[key := t.(id := next)], nextId + 1;
      if blankFault {
        return None;
      }
      enr := enr[next := BLANK];
      id := Some(next);
    }

    method UpdateEnrichment(id: nat, u: Update, fault: bool) returns (ok: bool)
      modifies this`enr
      ensures ok == !fault
      ensures View() == if fault then old(View()) else Enriched(old(View()), id, u)
    {
      if fault {
        return false;
      }
      if id in enr {
        enr := enr[id := Apply(enr[id], u)];
      }
      ok := true;
    }
  }
}
