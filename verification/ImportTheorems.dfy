/** Deduplication, repair after failures, and the equivalence of the two ways to enrich. */
module ImportTheorems {
  import opened Common
  import opened Calendar
  import opened Enrichment
  import opened Transactions
  import opened IdempotencyKey
  import opened Importer
  import opened Statement

  predicate NoFaults(xs: seq<Item>) {
    forall i | 0 <= i < |xs| :: xs[i].faults == NO_FAULTS
  }

  /** The keys of a statement. */
  function KeysOf(cfg: Config, xs: seq<Item>): set<string> {
    set i | 0 <= i < |xs| :: Key(cfg, xs[i].row)
  }

  /** Stored transactions are never changed or dropped. */
  ghost predicate Keeps(before: Db, after: Db) {
    forall k | k in before.txns :: k in after.txns && after.txns[k] == before.txns[k]
  }

  // ----- one row -----

  lemma AnnotateKeeps(db: Db, cfg: Config, row: Row, f: Faults)
    requires Wf(db) && Key(cfg, row) in db.txns
    ensures Wf(Annotate(db, cfg, row, f))
    ensures Annotate(db, cfg, row, f) == db.(enr := Annotate(db, cfg, row, f).enr)
    ensures Annotate(db, cfg, row, f).enr.Keys == db.enr.Keys
  {
  }

  lemma StoredKeeps(db: Db, cfg: Config, row: Row)
    requires Wf(db) && Key(cfg, row) !in db.txns
    ensures Wf(Stored(db, cfg, row)) && Wf(WithBlank(Stored(db, cfg, row), db.nextId))
    ensures Keeps(db, Stored(db, cfg, row))
  {
  }

  lemma RowWf(db: Db, cfg: Config, x: Item)
    requires Wf(db)
    ensures Wf(ImportRow(db, cfg, x))
  {
    if Key(cfg, x.row) in db.txns {
      AnnotateKeeps(db, cfg, x.row, x.faults);
    } else {
      StoredKeeps(db, cfg, x.row);
      AnnotateKeeps(WithBlank(Stored(db, cfg, x.row), db.nextId), cfg, x.row, x.faults);
    }
  }

  /** A row leaves the transactions alone or adds its own; without failures it adds it when it is new. */
  lemma RowTxns(db: Db, cfg: Config, x: Item)
    ensures var k, txns := Key(cfg, x.row), ImportRow(db, cfg, x).txns;
            && (txns == db.txns || (k !in db.txns && txns == db.txns[k := TxnOf(cfg, x.row).(id := db.nextId)]))
            && (x.faults == NO_FAULTS ==> k in txns)
  {
  }

  lemma RowKeeps(db: Db, cfg: Config, x: Item)
    requires Wf(db)
    ensures Wf(ImportRow(db, cfg, x)) && Keeps(db, ImportRow(db, cfg, x))
    ensures ImportRow(db, cfg, x).txns.Keys <= db.txns.Keys + {Key(cfg, x.row)}
    ensures x.faults == NO_FAULTS ==> ImportRow(db, cfg, x).txns.Keys == db.txns.Keys + {Key(cfg, x.row)}
  {
    RowWf(db, cfg, x);
    RowTxns(db, cfg, x);
  }

  lemma RowCounts(db: Db, cfg: Config, x: Item, c: Counts)
    requires Wf(db)
    ensures var d, n := CountRow(c, db, cfg, x), |ImportRow(db, cfg, x).txns|;
            && d.inserted + d.duplicate + d.failed == c.inserted + c.duplicate + c.failed + 1
            && |db.txns| + d.inserted - c.inserted <= n <= |db.txns| + d.inserted - c.inserted + d.failed - c.failed
            && c.inserted <= d.inserted && c.duplicate <= d.duplicate && c.failed <= d.failed
            && (x.faults == NO_FAULTS ==> d.failed == c.failed)
  {
  }

  // ----- one import -----

  lemma KeysOfPrefix(cfg: Config, xs: seq<Item>)
    requires xs != []
    ensures KeysOf(cfg, xs) == KeysOf(cfg, xs[..|xs| - 1]) + {Key(cfg, xs[|xs| - 1].row)}
  {
    var init := xs[..|xs| - 1];
    forall k | k in KeysOf(cfg, xs) ensures k in KeysOf(cfg, init) + {Key(cfg, xs[|xs| - 1].row)} {
      var i :| 0 <= i < |xs| && k == Key(cfg, xs[i].row);
      assert i < |xs| - 1 ==> init[i] == xs[i];
    }
    forall k | k in KeysOf(cfg, init) ensures k in KeysOf(cfg, xs) {
      var i :| 0 <= i < |init| && k == Key(cfg, init[i].row);
      assert xs[i] == init[i];
    }
  }

  /** Whatever fails: nothing stored is lost, only the statement's keys are added, and without failures all of them. */
  lemma {:induction false} ImportKeys(db: Db, cfg: Config, xs: seq<Item>)
    requires Wf(db)
    ensures Wf(Import(db, cfg, xs)) && Keeps(db, Import(db, cfg, xs))
    ensures Import(db, cfg, xs).txns.Keys <= db.txns.Keys + KeysOf(cfg, xs)
    ensures NoFaults(xs) ==> Import(db, cfg, xs).txns.Keys == db.txns.Keys + KeysOf(cfg, xs)
  {
    if xs != [] {
      var init, x := xs[..|xs| - 1], xs[|xs| - 1];
      ImportKeys(db, cfg, init);
      RowKeeps(Import(db, cfg, init), cfg, x);
      KeysOfPrefix(cfg, xs);
      NoFaultsSplit(xs);
    }
  }

  lemma NoFaultsSplit(xs: seq<Item>)
    requires xs != []
    ensures NoFaults(xs) <==> NoFaults(xs[..|xs| - 1]) && xs[|xs| - 1].faults == NO_FAULTS
  {
  }

  /** Every row is counted once, and the table grows by the inserted rows and at most the failed ones:
      a row reported as failed may have been stored. */
  lemma {:induction false} ImportCounts(db: Db, cfg: Config, xs: seq<Item>)
    requires Wf(db)
    ensures var c, n := Count(db, cfg, xs), |Import(db, cfg, xs).txns|;
            && c.inserted + c.duplicate + c.failed == |xs|
            && |db.txns| + c.inserted <= n <= |db.txns| + c.inserted + c.failed
            && (NoFaults(xs) ==> c.failed == 0)
  {
    if xs != [] {
      var init := xs[..|xs| - 1];
      ImportCounts(db, cfg, init);
      ImportKeys(db, cfg, init);
      RowCounts(Import(db, cfg, init), cfg, xs[|xs| - 1], Count(db, cfg, init));
      NoFaultsSplit(xs);
    }
  }

  // ----- many imports -----

  datatype Batch = Batch(cfg: Config, items: seq<Item>)

  function ImportAll(db: Db, bs: seq<Batch>): Db {
    if bs == [] then db else Import(ImportAll(db, bs[..|bs| - 1]), bs[|bs| - 1].cfg, bs[|bs| - 1].items)
  }

  function AllKeys(bs: seq<Batch>): set<string> {
    if bs == [] then {} else AllKeys(bs[..|bs| - 1]) + KeysOf(bs[|bs| - 1].cfg, bs[|bs| - 1].items)
  }

  predicate AllClean(bs: seq<Batch>) {
    forall i | 0 <= i < |bs| :: NoFaults(bs[i].items)
  }

  lemma {:induction false} ImportAllKeys(db: Db, bs: seq<Batch>)
    requires Wf(db)
    ensures Wf(ImportAll(db, bs)) && Keeps(db, ImportAll(db, bs))
    ensures ImportAll(db, bs).txns.Keys <= db.txns.Keys + AllKeys(bs)
    ensures AllClean(bs) ==> ImportAll(db, bs).txns.Keys == db.txns.Keys + AllKeys(bs)
  {
    if bs != [] {
      var n := |bs| - 1;
      ImportAllKeys(db, bs[..n]);
      ImportKeys(ImportAll(db, bs[..n]), bs[n].cfg, bs[n].items);
      assert AllClean(bs) ==> AllClean(bs[..n]) && NoFaults(bs[n].items);
    }
  }

  /** After any imports with any failures, importing the same keys again without failures, in any order and any
      overlap, makes the table hold exactly the union. */
  lemma CleanReimportRepairs(db: Db, faulty: seq<Batch>, clean: seq<Batch>)
    requires Wf(db) && AllClean(clean) && AllKeys(faulty) <= AllKeys(clean)
    ensures ImportAll(ImportAll(db, faulty), clean).txns.Keys == db.txns.Keys + AllKeys(clean)
  {
    ImportAllKeys(db, faulty);
    ImportAllKeys(ImportAll(db, faulty), clean);
  }

  /** From then on importing any of it inserts nothing: every row is a duplicate and no transaction changes. */
  lemma {:induction false} ReimportInsertsNothing(db: Db, cfg: Config, xs: seq<Item>)
    requires Wf(db) && NoFaults(xs) && KeysOf(cfg, xs) <= db.txns.Keys
    ensures Count(db, cfg, xs) == Counts(0, |xs|, 0)
    ensures Import(db, cfg, xs).txns == db.txns
  {
    if xs != [] {
      var init := xs[..|xs| - 1];
      KeysOfPrefix(cfg, xs);
      ReimportInsertsNothing(db, cfg, init);
      assert xs[|xs| - 1].faults == NO_FAULTS;
    }
  }

  /** Two new rows are both stored exactly when date, amount or description tell them apart: a debit and a credit
      that agree on these are one transaction, the first. */
  lemma BothStoredIff(db: Db, cfg: Config, r: Row, s: Row)
    requires Wf(db) && '|' !in cfg.account && Valid(r.date) && Valid(s.date)
    requires Key(cfg, r) !in db.txns && Key(cfg, s) !in db.txns
    ensures var xs := [Item(r, NO_FAULTS), Item(s, NO_FAULTS)];
            && (Count(db, cfg, xs).inserted == 2 <==>
                  (r.date, r.amount, r.description) != (s.date, s.amount, s.description))
            && Key(cfg, r) in Import(db, cfg, xs).txns
            && Import(db, cfg, xs).txns[Key(cfg, r)].direction == r.direction
  {
    KeyIff(cfg.account, r.date, r.amount, r.description, cfg.account, s.date, s.amount, s.description);
    var x, y := Item(r, NO_FAULTS), Item(s, NO_FAULTS);
    var xs := [x, y];
    assert xs[..1] == [x] && [x][..0] == [];
    assert Import(db, cfg, [x]) == ImportRow(Import(db, cfg, []), cfg, x);
    assert Count(db, cfg, [x]) == CountRow(Count(db, cfg, []), db, cfg, x);
    RowKeeps(db, cfg, x);
    RowKeeps(ImportRow(db, cfg, x), cfg, y);
  }

  /** A refund of 500 rupees on the day and with the text of the payment is never stored. */
  lemma OppositesCollapse(cfg: Config)
    ensures var paid := Row(Date(2025, 3, 1), "SHOP", 50000, Debit, "", None);
            var refund := paid.(direction := Credit);
            var xs, empty := [Item(paid, NO_FAULTS), Item(refund, NO_FAULTS)], Db(map[], map[], 0);
            && Count(empty, cfg, xs) == Counts(1, 1, 0)
            && forall k | k in Import(empty, cfg, xs).txns :: Import(empty, cfg, xs).txns[k].direction == Debit
  {
    var paid := Row(Date(2025, 3, 1), "SHOP", 50000, Debit, "", None);
    var refund := paid.(direction := Credit);
    var x, y, empty := Item(paid, NO_FAULTS), Item(refund, NO_FAULTS), Db(map[], map[], 0);
    assert [x, y][..1] == [x] && [x][..0] == [];
    assert Import(empty, cfg, [x]) == ImportRow(Import(empty, cfg, []), cfg, x);
    assert Count(empty, cfg, [x]) == CountRow(Count(empty, cfg, []), empty, cfg, x);
    assert Key(cfg, paid) == Key(cfg, refund);
    RowTxns(empty, cfg, x);
    RowTxns(ImportRow(empty, cfg, x), cfg, y);
  }

  // ----- rows without enrichment -----

  /** A new transaction gets its enrichment row exactly when the second statement of the insert succeeds. */
  lemma BlankRowIff(db: Db, cfg: Config, x: Item)
    requires Wf(db) && Key(cfg, x.row) !in db.txns && !x.faults.check && !x.faults.insert
    ensures var after := ImportRow(db, cfg, x);
            && Key(cfg, x.row) in after.txns
            && (after.txns[Key(cfg, x.row)].id in after.enr <==> !x.faults.blank)
  {
  }

  lemma RowAddsNoBlank(db: Db, cfg: Config, x: Item, id: nat)
    requires Wf(db) && id < db.nextId && id !in db.enr
    ensures id !in ImportRow(db, cfg, x).enr && id < ImportRow(db, cfg, x).nextId
  {
  }

  /** If it did not, no later import or background pass creates the row: updates find nothing and report success. */
  lemma {:induction false} BlankRowNeverRecovered(db: Db, cfg: Config, xs: seq<Item>, id: nat)
    requires Wf(db) && id < db.nextId && id !in db.enr
    ensures id !in Import(db, cfg, xs).enr && id < Import(db, cfg, xs).nextId
    ensures id !in EnrichAll(db, cfg, xs).enr
  {
    EnrichKeeps(db, cfg, xs);
    if xs != [] {
      var init := xs[..|xs| - 1];
      BlankRowNeverRecovered(db, cfg, init, id);
      ImportKeys(db, cfg, init);
      RowAddsNoBlank(Import(db, cfg, init), cfg, xs[|xs| - 1], id);
    }
  }

  lemma {:induction false} EnrichKeeps(db: Db, cfg: Config, xs: seq<Item>)
    requires Wf(db)
    ensures Wf(EnrichAll(db, cfg, xs))
    ensures EnrichAll(db, cfg, xs).txns == db.txns && EnrichAll(db, cfg, xs).nextId == db.nextId
    ensures EnrichAll(db, cfg, xs).enr.Keys == db.enr.Keys
  {
    if xs != [] {
      EnrichKeeps(db, cfg, xs[..|xs| - 1]);
    }
  }

  // ----- enriching inline or in the background -----

  function Plain(cfg: Config): Config { cfg.(enrich := None) }

  /** Without an enricher a row is stored or left alone. */
  lemma InsertThenEnrich(db: Db, cfg: Config, x: Item)
    requires Wf(db) && x.faults == NO_FAULTS
    ensures ImportRow(db, cfg, x) == EnrichRow(ImportRow(db, Plain(cfg), x), cfg, x)
  {
  }

  /** Enriching a stored row and importing another commute: an insert only adds rows with a new id. */
  lemma EnrichCommutes(db: Db, cfg: Config, x: Item, y: Item)
    requires Wf(db) && x.faults == NO_FAULTS && y.faults == NO_FAULTS && Key(cfg, y.row) in db.txns
    ensures EnrichRow(ImportRow(db, Plain(cfg), x), cfg, y) == ImportRow(EnrichRow(db, cfg, y), Plain(cfg), x)
  {
    if Key(cfg, x.row) !in db.txns && cfg.enrich.Some? && cfg.enrich.value(y.row).Some? {
      var id, u := db.txns[Key(cfg, y.row)].id, UpdateOf(cfg, cfg.enrich.value(y.row).value, false);
      assert id != db.nextId;
      assert UpdateRow(db.enr[db.nextId := BLANK], id, u) == UpdateRow(db.enr, id, u)[db.nextId := BLANK];
    }
  }

  lemma {:induction false} EnrichAllCommutes(db: Db, cfg: Config, x: Item, ys: seq<Item>)
    requires Wf(db) && x.faults == NO_FAULTS && NoFaults(ys) && KeysOf(cfg, ys) <= db.txns.Keys
    ensures EnrichAll(ImportRow(db, Plain(cfg), x), cfg, ys) == ImportRow(EnrichAll(db, cfg, ys), Plain(cfg), x)
  {
    if ys != [] {
      var init, y := ys[..|ys| - 1], ys[|ys| - 1];
      KeysOfPrefix(cfg, ys);
      EnrichAllCommutes(db, cfg, x, init);
      EnrichKeeps(db, cfg, init);
      assert y.faults == NO_FAULTS;
      EnrichCommutes(EnrichAll(db, cfg, init), cfg, x, y);
    }
  }

  /** With no store failures, importing with the enricher leaves exactly the tables that importing without it and
      then running the background pass leaves, for any tables, any repeated rows and any enricher that may fail;
      and it counts the same. */
  lemma {:induction false} InlineIsBackground(db: Db, cfg: Config, xs: seq<Item>)
    requires Wf(db) && NoFaults(xs)
    ensures Import(db, cfg, xs) == EnrichAll(Import(db, Plain(cfg), xs), cfg, xs)
    ensures Count(db, cfg, xs) == Count(db, Plain(cfg), xs)
  {
    if xs != [] {
      var init, x := xs[..|xs| - 1], xs[|xs| - 1];
      InlineIsBackground(db, cfg, init);
      var d := Import(db, Plain(cfg), init);
      ImportKeys(db, Plain(cfg), init);
      SameKeys(cfg, init);
      EnrichKeeps(d, cfg, init);
      assert x.faults == NO_FAULTS;
      InsertThenEnrich(EnrichAll(d, cfg, init), cfg, x);
      EnrichAllCommutes(d, cfg, x, init);
      assert ImportRow(EnrichAll(d, cfg, init), cfg, x)
          == EnrichRow(EnrichAll(ImportRow(d, Plain(cfg), x), cfg, init), cfg, x);
    }
  }

  lemma SameKeys(cfg: Config, xs: seq<Item>)
    ensures KeysOf(Plain(cfg), xs) == KeysOf(cfg, xs)
  {
  }

  // ----- what is stored -----

  /** `k` is the key of the transaction's own content, whose account is a UUID's text and whose date exists. */
  ghost predicate FitsKey(t: Txn, k: string) {
    '|' !in t.account && Valid(t.date) && k == KeyOf(t.account, t.date, t.amount, t.description)
  }

  /** Every transaction lies under the key of its own content. */
  ghost predicate Keyed(db: Db) {
    forall k | k in db.txns :: FitsKey(db.txns[k], k)
  }

  lemma RowKeepsKeyed(db: Db, cfg: Config, x: Item)
    requires Keyed(db) && '|' !in cfg.account && Valid(x.row.date)
    ensures Keyed(ImportRow(db, cfg, x))
  {
    RowTxns(db, cfg, x);
    assert FitsKey(TxnOf(cfg, x.row).(id := db.nextId), Key(cfg, x.row));
  }

  lemma {:induction false} ImportKeepsKeyed(db: Db, cfg: Config, xs: seq<Item>)
    requires Keyed(db) && '|' !in cfg.account && forall i | 0 <= i < |xs| :: Valid(xs[i].row.date)
    ensures Keyed(Import(db, cfg, xs))
  {
    if xs != [] {
      var init := xs[..|xs| - 1];
      ImportKeepsKeyed(db, cfg, init);
      RowKeepsKeyed(Import(db, cfg, init), cfg, xs[|xs| - 1]);
    }
  }

  /** The transaction has the row's account, date, amount and description. */
  predicate SameContent(t: Txn, cfg: Config, row: Row) {
    t.account == cfg.account && t.date == row.date && t.amount == row.amount && t.description == row.description
  }

  /** A row is taken for a duplicate exactly when a transaction with its content is stored: no row is lost to
      another's key, and none is stored twice. */
  lemma DuplicateIff(db: Db, cfg: Config, row: Row)
    requires Keyed(db) && '|' !in cfg.account && Valid(row.date)
    ensures Key(cfg, row) in db.txns <==> exists k :: k in db.txns && SameContent(db.txns[k], cfg, row)
  {
    if Key(cfg, row) in db.txns {
      SameKeyIff(db.txns[Key(cfg, row)], Key(cfg, row), cfg, row);
      assert SameContent(db.txns[Key(cfg, row)], cfg, row);
    }
    if k :| k in db.txns && SameContent(db.txns[k], cfg, row) {
      SameKeyIff(db.txns[k], k, cfg, row);
    }
  }

  lemma SameKeyIff(t: Txn, k: string, cfg: Config, row: Row)
    requires FitsKey(t, k) && '|' !in cfg.account && Valid(row.date)
    ensures k == Key(cfg, row) <==> SameContent(t, cfg, row)
  {
    KeyIff(t.account, t.date, t.amount, t.description, cfg.account, row.date, row.amount, row.description);
  }

  /** The first row with a given key. */
  ghost predicate FirstWithKey(cfg: Config, xs: seq<Item>, k: string, i: nat) {
    i < |xs| && Key(cfg, xs[i].row) == k && forall j | 0 <= j < i :: Key(cfg, xs[j].row) != k
  }

  lemma RowStores(db: Db, cfg: Config, x: Item)
    requires Wf(db) && x.faults == NO_FAULTS && Key(cfg, x.row) !in db.txns
    ensures var after := ImportRow(db, cfg, x).txns;
            Key(cfg, x.row) in after && after[Key(cfg, x.row)] == TxnOf(cfg, x.row).(id := db.nextId)
  {
    AnnotateKeeps(WithBlank(Stored(db, cfg, x.row), db.nextId), cfg, x.row, x.faults);
  }

  lemma LastIsNew(cfg: Config, xs: seq<Item>, k: string)
    requires xs != [] && FirstWithKey(cfg, xs, k, |xs| - 1)
    ensures k !in KeysOf(cfg, xs[..|xs| - 1])
  {
  }

  /** The transaction stored for a row is the row's, whole. */
  predicate IsTxnOf(t: Txn, cfg: Config, row: Row) {
    && t.account == cfg.account && t.user == cfg.user
    && (t.reference.None? <==> forall i | 0 <= i < |row.reference| :: cfg.script.space(row.reference[i]))
    && (t.reference.Some? ==> t.reference.value == row.reference)
    && t.amount == row.amount && t.direction == row.direction && t.description == row.description && t.date == row.date
  }

  /** Under `k` lies the whole row. */
  ghost predicate Holds(db: Db, cfg: Config, k: string, row: Row) {
    k in db.txns && IsTxnOf(db.txns[k], cfg, row)
  }

  lemma LastRowStored(db: Db, cfg: Config, xs: seq<Item>, k: string)
    requires Wf(db) && xs != [] && NoFaults(xs) && k !in db.txns && FirstWithKey(cfg, xs, k, |xs| - 1)
    ensures Holds(Import(db, cfg, xs), cfg, k, xs[|xs| - 1].row)
  {
    var init, x := xs[..|xs| - 1], xs[|xs| - 1];
    ImportKeys(db, cfg, init);
    LastIsNew(cfg, xs, k);
    RowStores(Import(db, cfg, init), cfg, x);
  }

  /** What a prefix of a statement has stored stays as it is while the rest is imported. */
  lemma {:induction false} PrefixStays(db: Db, cfg: Config, xs: seq<Item>, m: nat)
    requires Wf(db) && m <= |xs|
    ensures Keeps(Import(db, cfg, xs[..m]), Import(db, cfg, xs))
  {
    if m == |xs| {
      assert xs[..m] == xs;
    } else {
      var init := xs[..|xs| - 1];
      assert init[..m] == xs[..m];
      PrefixStays(db, cfg, init, m);
      ImportKeys(db, cfg, init);
      RowKeeps(Import(db, cfg, init), cfg, xs[|xs| - 1]);
    }
  }

  lemma PrefixFirst(cfg: Config, xs: seq<Item>, k: string, i: nat)
    requires NoFaults(xs) && FirstWithKey(cfg, xs, k, i)
    ensures NoFaults(xs[..i + 1]) && FirstWithKey(cfg, xs[..i + 1], k, i)
  {
  }

  lemma KeepsHolds(before: Db, after: Db, cfg: Config, k: string, row: Row)
    requires Holds(before, cfg, k, row) && Keeps(before, after)
    ensures Holds(after, cfg, k, row)
  {
  }

  /** Without failures the first row of each new key is stored, whole, and later ones with that key leave no trace
      in the transaction. */
  lemma FirstRowWins(db: Db, cfg: Config, xs: seq<Item>, k: string, i: nat)
    requires Wf(db) && NoFaults(xs) && k !in db.txns && FirstWithKey(cfg, xs, k, i)
    ensures Holds(Import(db, cfg, xs), cfg, k, xs[i].row)
  {
    PrefixFirst(cfg, xs, k, i);
    LastRowStored(db, cfg, xs[..i + 1], k);
    PrefixStays(db, cfg, xs, i + 1);
    KeepsHolds(Import(db, cfg, xs[..i + 1]), Import(db, cfg, xs), cfg, k, xs[i].row);
  }
}
