/** Statement import and background enrichment (internal/importer/importer.go). */
module Importer {
  import opened Common
  import opened Calendar
  import opened Enrichment
  import opened Transactions
  import opened IdempotencyKey
  import opened Statement
  import opened Characters
  import Balance

  /** What the language model says about a row. */
  datatype Answer = Answer(normalized: string, slug: string)

  /** `enrich` is None when the importer has no enricher; an enricher may fail on any row.  `script` is Unicode's. */
  datatype Config = Config(account: string, user: string, enrich: Option<Row -> Option<Answer>>,
                           categories: map<string, nat>, script: Script)

  /** Which store calls fail while a row is processed. */
  datatype Faults = Faults(check: bool, insert: bool, blank: bool, lookup: bool, category: bool, update: bool)

  const NO_FAULTS := Faults(false, false, false, false, false, false)

  datatype Item = Item(row: Row, faults: Faults)

  datatype Counts = Counts(inserted: nat, duplicate: nat, failed: nat)

  function Key(cfg: Config, row: Row): string {
    KeyOf(cfg.account, row.date, row.amount, row.description)
  }

  /** The empty text and texts of white space are stored as null. */
  function NilIfEmpty(u: Script, s: string): Option<string> {
    if forall i | 0 <= i < |s| :: u.space(s[i]) then None else Some(s)
  }

  function TxnOf(cfg: Config, row: Row): Txn {
    Txn(0, cfg.account, cfg.user, NilIfEmpty(cfg.script, row.reference), row.amount, row.direction, row.description,
        row.date)
  }

  /** An unknown or unreadable category leaves the column alone. */
  function UpdateOf(cfg: Config, a: Answer, categoryFault: bool): Update {
    ToUpdate(FromImport(NilIfEmpty(cfg.script, a.normalized),
      if a.slug != "" && !categoryFault && a.slug in cfg.categories then Some(cfg.categories[a.slug]) else None))
  }

  // ----- the meaning of one row -----

  /** Ask the enricher about a stored row and write its answer. */
  function Annotate(db: Db, cfg: Config, row: Row, f: Faults): Db
    requires Key(cfg, row) in db.txns
  {
    if cfg.enrich.None? || cfg.enrich.value(row).None? || f.update then db
    else Enriched(db, db.txns[Key(cfg, row)].id, UpdateOf(cfg, cfg.enrich.value(row).value, f.category))
  }

  function Stored(db: Db, cfg: Config, row: Row): Db {
    WithTxn(db, Key(cfg, row), TxnOf(cfg, row))
  }

  function ImportRow(db: Db, cfg: Config, x: Item): Db {
    var f := x.faults;
    if f.check then db
    else if Key(cfg, x.row) in db.txns then (if f.lookup then db else Annotate(db, cfg, x.row, f))
    else if f.insert then db
    else if f.blank then Stored(db, cfg, x.row)
    else Annotate(WithBlank(Stored(db, cfg, x.row), db.nextId), cfg, x.row, f)
  }

  function CountRow(c: Counts, db: Db, cfg: Config, x: Item): Counts {
    if x.faults.check then c.(failed := c.failed + 1)
    else if Key(cfg, x.row) in db.txns then c.(duplicate := c.duplicate + 1)
    else if x.faults.insert || x.faults.blank then c.(failed := c.failed + 1)
    else c.(inserted := c.inserted + 1)
  }

  function Import(db: Db, cfg: Config, xs: seq<Item>): Db {
    if xs == [] then db else ImportRow(Import(db, cfg, xs[..|xs| - 1]), cfg, xs[|xs| - 1])
  }

  function Count(db: Db, cfg: Config, xs: seq<Item>): Counts {
    if xs == [] then Counts(0, 0, 0)
    else CountRow(Count(db, cfg, xs[..|xs| - 1]), Import(db, cfg, xs[..|xs| - 1]), cfg, xs[|xs| - 1])
  }

  function EnrichRow(db: Db, cfg: Config, x: Item): Db {
    if x.faults.lookup || Key(cfg, x.row) !in db.txns then db else Annotate(db, cfg, x.row, x.faults)
  }

  function EnrichAll(db: Db, cfg: Config, xs: seq<Item>): Db {
    if xs == [] then db else EnrichRow(EnrichAll(db, cfg, xs[..|xs| - 1]), cfg, xs[|xs| - 1])
  }

  /** Whether the background pass counts this row as failed. */
  predicate EnrichFails(db: Db, cfg: Config, x: Item)
    requires cfg.enrich.Some?
  {
    !x.faults.lookup && Key(cfg, x.row) in db.txns && (cfg.enrich.value(x.row).None? || x.faults.update)
  }

  /** Found rows that the enricher or the update refused. */
  function EnrichFailures(db: Db, cfg: Config, xs: seq<Item>): nat
    requires cfg.enrich.Some?
  {
    if xs == [] then 0
    else EnrichFailures(db, cfg, xs[..|xs| - 1]) + if EnrichFails(db, cfg, xs[|xs| - 1]) then 1 else 0
  }

  lemma EnrichStep(db: Db, cfg: Config, xs: seq<Item>, i: nat)
    requires i < |xs| && cfg.enrich.Some?
    ensures EnrichAll(db, cfg, xs[..i + 1]) == EnrichRow(EnrichAll(db, cfg, xs[..i]), cfg, xs[i])
    ensures EnrichFailures(db, cfg, xs[..i + 1])
         == EnrichFailures(db, cfg, xs[..i]) + if EnrichFails(db, cfg, xs[i]) then 1 else 0
  {
    assert xs[..i + 1][..i] == xs[..i];
  }

  lemma {:induction false} NothingToEnrich(db: Db, cfg: Config, xs: seq<Item>)
    requires cfg.enrich.None?
    ensures EnrichAll(db, cfg, xs) == db
  {
    if xs != [] {
      NothingToEnrich(db, cfg, xs[..|xs| - 1]);
    }
  }

  // ----- the code -----

  datatype RunStatus = Success | Partial | Failed

  datatype Result = Result(parsed: nat, counts: Counts, latest: Option<Balance.Closing>, status: RunStatus)

  /** `i` is the last row in file order that carries a closing balance. */
  ghost predicate LastWithBalance(xs: seq<Item>, i: nat) {
    i < |xs| && xs[i].row.balance.Some? && forall j | i < j < |xs| :: xs[j].row.balance.None?
  }

  ghost predicate LatestIs(xs: seq<Item>, latest: Option<Balance.Closing>) {
    if latest.None? then forall j | 0 <= j < |xs| :: xs[j].row.balance.None?
    else exists i: nat :: LastWithBalance(xs, i) && Valid(xs[i].row.date)
           && latest.value == Balance.Closing(xs[i].row.balance.value, Serial(xs[i].row.date))
  }

  class StatementImporter {
    const cfg: Config
    const store: TransactionStore

    constructor (cfg: Config, store: TransactionStore)
      ensures this.cfg == cfg && this.store == store
    {
      this.cfg, this.store := cfg, store;
    }

    /** None is an import whose run record could not be created: nothing is imported. */
    method Run(xs: seq<Item>, createFault: bool) returns (outcome: Option<Result>)
      requires Wf(store.View()) && forall i | 0 <= i < |xs| :: Valid(xs[i].row.date)
      modifies store
      ensures Wf(store.View()) && (outcome.None? <==> createFault)
      ensures store.View() == if createFault then old(store.View()) else Import(old(store.View()), cfg, xs)
      ensures outcome.Some? ==>
                var res := outcome.value;
                && res.parsed == |xs| && res.counts == Count(old(store.View()), cfg, xs) && LatestIs(xs, res.latest)
                && (res.status == Success <==> res.counts.failed == 0)
                && (res.status == Failed <==> res.counts.failed > 0 && res.counts.inserted == 0)
    {
      if createFault {
        return None;
      }
      ghost var start := store.View();
      var latest := ScanBalances(xs);
      var counts := Counts(0, 0, 0);
      for i := 0 to |xs|
        invariant Wf(store.View()) && store.View() == Import(start, cfg, xs[..i])
        invariant counts == Count(start, cfg, xs[..i])
      {
        assert xs[..i + 1][..i] == xs[..i];
        counts := RunRow(xs[i], counts);
      }
      assert xs[..|xs|] == xs;
      var status := Success;
      if counts.failed > 0 && counts.inserted == 0 {
        status := Failed;
      } else if counts.failed > 0 {
        status := Partial;
      }
      outcome := Some(Result(|xs|, counts, latest, status));
    }

    method ScanBalances(xs: seq<Item>) returns (latest: Option<Balance.Closing>)
      requires forall i | 0 <= i < |xs| :: Valid(xs[i].row.date)
      ensures LatestIs(xs, latest)
    {
      latest := None;
      for i := 0 to |xs|
        invariant LatestIs(xs[..i], latest)
      {
        if xs[i].row.balance.Some? {
          latest := Some(Balance.Closing(xs[i].row.balance.value, Serial(xs[i].row.date)));
          assert LastWithBalance(xs[..i + 1], i);
        } else if latest.Some? {
          ghost var k: nat :| LastWithBalance(xs[..i], k) && Valid(xs[k].row.date)
            && latest.value == Balance.Closing(xs[k].row.balance.value, Serial(xs[k].row.date));
          assert LastWithBalance(xs[..i + 1], k);
        }
      }
      assert xs[..|xs|] == xs;
    }

    method RunRow(x: Item, before: Counts) returns (counts: Counts)
      requires Wf(store.View())
      modifies store
      ensures Wf(store.View()) && store.View() == ImportRow(old(store.View()), cfg, x)
      ensures counts == CountRow(before, old(store.View()), cfg, x)
    {
      counts := before;
      var key := Key(cfg, x.row);
      var known := store.IdempotencyKeyExists(key, x.faults.check);
      if known.None? {
        counts := counts.(failed := counts.failed + 1);
        return;
      }
      if known.value {
        counts := counts.(duplicate := counts.duplicate + 1);
        if cfg.enrich.None? {
          return;
        }
        var id := store.GetIDByIdempotencyKey(key, x.faults.lookup);
        if id.None? {
          return;
        }
        var _ := Tag(id.value, x);
        return;
      }
      var id := store.Insert(key, TxnOf(cfg, x.row), x.faults.insert, x.faults.blank);
      if id.None? {
        counts := counts.(failed := counts.failed + 1);
        return;
      }
      counts := counts.(inserted := counts.inserted + 1);
      if cfg.enrich.None? {
        return;
      }
      var _ := Tag(id.value, x);
    }

    /** Enrich one stored row; false when the enricher or the update failed. */
    method Tag(id: nat, x: Item) returns (ok: bool)
      requires Wf(store.View()) && cfg.enrich.Some?
      requires Key(cfg, x.row) in store.txns && store.txns[Key(cfg, x.row)].id == id
      modifies store`enr
      ensures Wf(store.View()) && store.View() == Annotate(old(store.View()), cfg, x.row, x.faults)
      ensures ok <==> cfg.enrich.value(x.row).Some? && !x.faults.update
    {
      var answer := cfg.enrich.value(x.row);
      if answer.None? {
        return false;
      }
      var category := None;
      if answer.value.slug != "" {
        if !x.faults.category && answer.value.slug in cfg.categories {
          category := Some(cfg.categories[answer.value.slug]);
        }
      }
      var update := Update(NilIfEmpty(cfg.script, answer.value.normalized), category, None, Some(Auto));
      ok := store.UpdateEnrichment(id, update, x.faults.update);
    }

    /** The background pass: rows whose transaction is not found are skipped without an error.  Without an enricher
        it does nothing and leaves the run's status alone. */
    method EnrichRows(xs: seq<Item>) returns (finished: Option<RunStatus>)
      requires Wf(store.View())
      modifies store`enr
      ensures Wf(store.View()) && store.View() == EnrichAll(old(store.View()), cfg, xs)
      ensures finished.None? <==> cfg.enrich.None?
      ensures finished.Some? ==>
                var failed := EnrichFailures(old(store.View()), cfg, xs);
                finished.value == if failed == 0 then Success else if failed == |xs| then Failed else Partial
    {
      ghost var start := store.View();
      if cfg.enrich.None? {
        NothingToEnrich(start, cfg, xs);
        return None;
      }
      var failed := 0;
      for i := 0 to |xs|
        invariant Wf(store.View()) && store.View() == EnrichAll(start, cfg, xs[..i])
        invariant store.txns == start.txns && failed == EnrichFailures(start, cfg, xs[..i]) <= i
      {
        EnrichStep(start, cfg, xs, i);
        var id := store.GetIDByIdempotencyKey(Key(cfg, xs[i].row), xs[i].faults.lookup);
        if id.Some? {
          var ok := Tag(id.value, xs[i]);
          if !ok {
            failed := failed + 1;
          }
        }
      }
      assert xs[..|xs|] == xs;
      var status := Success;
      if failed > 0 && failed == |xs| {
        status := Failed;
      } else if failed > 0 {
        status := Partial;
      }
      finished := Some(status);
    }
  }
}
