/** An import that no other comes between: its separate statements are the import of the statement, row by row. */
module ImportAlone {
  import opened Common
  import opened Transactions
  import opened Importer
  import opened ImportRace

  /** The moves left in a row at most. */
  function Left(pc: Pc): nat {
    match pc case Idle => 4 case Known => 3 case Missing => 3 case Stored(_) => 2 case Tagging(_) => 1
  }

  /** The worker goes on, alone, to the end of its row. */
  function FinishRow(db: Db, w: Worker): (Db, Worker)
    requires w.at < |w.jobs|
    decreases Left(w.pc)
  {
    var (db', w') := Move(db, w);
    if w'.at > w.at then (db', w') else FinishRow(db', w')
  }

  /** It goes on so through its next `n` rows. */
  function Finish(db: Db, w: Worker, n: nat): (r: (Db, Worker))
    requires w.at + n <= |w.jobs|
    ensures r.1.at == w.at + n && r.1.jobs == w.jobs
  {
    if n == 0 then (db, w)
    else
      var (db', w') := Finish(db, w, n - 1);
      FinishedOne(db', w');
      FinishRow(db', w')
  }

  lemma FinishedOne(db: Db, w: Worker)
    requires w.at < |w.jobs|
    ensures FinishRow(db, w).1.at == w.at + 1 && FinishRow(db, w).1.jobs == w.jobs
    decreases Left(w.pc)
  {
    var (db', w') := Move(db, w);
    if w'.at == w.at {
      FinishedOne(db', w');
    }
  }

  ghost predicate Ready(w: Worker) {
    w.at < |w.jobs| && w.jobs[w.at].key == Key(w.cfg, w.jobs[w.at].item.row)
  }

  lemma TagAlone(db: Db, w: Worker)
    requires Ready(w) && w.jobs[w.at].key in db.txns && w.pc == Tagging(db.txns[w.jobs[w.at].key].id)
    ensures FinishRow(db, w) == (Annotate(db, w.cfg, w.jobs[w.at].item.row, w.jobs[w.at].item.faults), Skip(w))
  {
  }

  lemma KnownAlone(db: Db, w: Worker)
    requires Ready(w) && w.jobs[w.at].key in db.txns && w.pc.Known?
    ensures var x := w.jobs[w.at].item;
            FinishRow(db, w) == (if x.faults.lookup then db else Annotate(db, w.cfg, x.row, x.faults), Skip(w))
  {
    if !w.jobs[w.at].item.faults.lookup {
      TagAlone(db, w.(pc := Tagging(db.txns[w.jobs[w.at].key].id)));
    }
  }

  lemma StoredMoves(db: Db, w: Worker)
    requires w.at < |w.jobs| && w.pc.Stored?
    ensures var id, counted := w.pc.id, w.counts.(inserted := w.counts.inserted + 1);
            FinishRow(db, w) ==
              if w.jobs[w.at].item.faults.blank then (db, Fail(w))
              else if w.cfg.enrich.None? then (WithBlank(db, id), Skip(w).(counts := counted))
              else FinishRow(WithBlank(db, id), w.(pc := Tagging(id), counts := counted))
  {
  }

  lemma NoEnricher(db: Db, w: Worker)
    requires Ready(w) && w.jobs[w.at].key in db.txns && w.cfg.enrich.None?
    ensures Key(w.cfg, w.jobs[w.at].item.row) in db.txns
    ensures Annotate(db, w.cfg, w.jobs[w.at].item.row, w.jobs[w.at].item.faults) == db
  {
  }

  /** What becomes of a row whose transaction has just been stored. */
  ghost predicate AfterInsert(db: Db, w: Worker, r: (Db, Worker))
    requires Ready(w) && w.jobs[w.at].key in db.txns && w.pc.Stored?
  {
    var x := w.jobs[w.at].item;
    if x.faults.blank then r == (db, Fail(w))
    else
      && r.0 == Annotate(WithBlank(db, w.pc.id), w.cfg, x.row, x.faults)
      && r.1 == Skip(w).(counts := w.counts.(inserted := w.counts.inserted + 1))
  }

  lemma BlankAlone(db: Db, w: Worker)
    requires Ready(w) && w.jobs[w.at].key in db.txns && w.pc == Stored(db.txns[w.jobs[w.at].key].id)
    requires w.jobs[w.at].item.faults.blank || w.cfg.enrich.None?
    ensures AfterInsert(db, w, FinishRow(db, w))
  {
    StoredMoves(db, w);
    if w.cfg.enrich.None? {
      NoEnricher(WithBlank(db, w.pc.id), w);
    }
  }

  lemma StoredAlone(db: Db, w: Worker)
    requires Ready(w) && w.jobs[w.at].key in db.txns && w.pc == Stored(db.txns[w.jobs[w.at].key].id)
    ensures AfterInsert(db, w, FinishRow(db, w))
  {
    if w.jobs[w.at].item.faults.blank || w.cfg.enrich.None? {
      BlankAlone(db, w);
    } else {
      StoredMoves(db, w);
      var w' := w.(pc := Tagging(w.pc.id), counts := w.counts.(inserted := w.counts.inserted + 1));
      TagAlone(WithBlank(db, w.pc.id), w');
      assert Skip(w') == Skip(w).(counts := w'.counts);
    }
  }

  lemma MissingMoves(db: Db, w: Worker)
    requires w.at < |w.jobs| && w.jobs[w.at].key !in db.txns && w.pc.Missing?
    ensures var x, k := w.jobs[w.at].item, w.jobs[w.at].key;
            FinishRow(db, w) == if x.faults.insert then (db, Fail(w))
                                else FinishRow(WithTxn(db, k, TxnOf(w.cfg, x.row)), w.(pc := Stored(db.nextId)))
  {
  }

  /** What the importer makes of a row whose key is not there, and how it counts it. */
  ghost predicate NewRow(db: Db, cfg: Config, x: Item, c: Counts, r: (Db, Counts)) {
    var stored := WithTxn(db, Key(cfg, x.row), TxnOf(cfg, x.row));
    if x.faults.insert then r == (db, c.(failed := c.failed + 1))
    else if x.faults.blank then r == (stored, c.(failed := c.failed + 1))
    else r == (Annotate(WithBlank(stored, db.nextId), cfg, x.row, x.faults), c.(inserted := c.inserted + 1))
  }

  lemma NewRowIs(db: Db, cfg: Config, x: Item, c: Counts)
    requires Key(cfg, x.row) !in db.txns && !x.faults.check
    ensures NewRow(db, cfg, x, c, (ImportRow(db, cfg, x), CountRow(c, db, cfg, x)))
  {
  }

  lemma MissingAlone(db: Db, w: Worker)
    requires Ready(w) && w.jobs[w.at].key !in db.txns && w.pc.Missing?
    ensures FinishRow(db, w).1 == Skip(w).(counts := FinishRow(db, w).1.counts)
    ensures NewRow(db, w.cfg, w.jobs[w.at].item, w.counts, (FinishRow(db, w).0, FinishRow(db, w).1.counts))
  {
    var x, k := w.jobs[w.at].item, w.jobs[w.at].key;
    MissingMoves(db, w);
    if !x.faults.insert {
      StoredAlone(WithTxn(db, k, TxnOf(w.cfg, x.row)), w.(pc := Stored(db.nextId)));
    }
  }

  lemma IdleMoves(db: Db, w: Worker)
    requires w.at < |w.jobs| && w.pc.Idle?
    ensures var x, known := w.jobs[w.at].item, w.counts.(duplicate := w.counts.duplicate + 1);
            FinishRow(db, w) ==
              if x.faults.check then (db, Fail(w))
              else if w.jobs[w.at].key !in db.txns then FinishRow(db, w.(pc := Missing))
              else if w.cfg.enrich.None? then (db, Skip(w).(counts := known))
              else FinishRow(db, w.(pc := Known, counts := known))
  {
  }

  lemma MissingRow(db: Db, w: Worker)
    requires Ready(w) && w.pc.Idle? && w.jobs[w.at].key !in db.txns && !w.jobs[w.at].item.faults.check
    ensures RowIs(db, w, FinishRow(db, w))
  {
    IdleMoves(db, w);
    MissingAlone(db, w.(pc := Missing));
    NewRowIs(db, w.cfg, w.jobs[w.at].item, w.counts);
  }

  ghost predicate RowIs(db: Db, w: Worker, r: (Db, Worker))
    requires w.at < |w.jobs|
  {
    var x := w.jobs[w.at].item;
    r == (ImportRow(db, w.cfg, x), w.(at := w.at + 1, counts := CountRow(w.counts, db, w.cfg, x)))
  }

  lemma OldRowIs(db: Db, w: Worker, r: (Db, Worker))
    requires Ready(w) && w.jobs[w.at].key in db.txns && !w.jobs[w.at].item.faults.check && w.pc.Idle?
    requires var x := w.jobs[w.at].item;
             && r.0 == (if x.faults.lookup then db else Annotate(db, w.cfg, x.row, x.faults))
             && r.1 == Skip(w).(counts := w.counts.(duplicate := w.counts.duplicate + 1))
    ensures RowIs(db, w, r)
  {
  }

  lemma CheckFails(db: Db, w: Worker)
    requires Ready(w) && w.pc.Idle? && w.jobs[w.at].item.faults.check
    ensures RowIs(db, w, FinishRow(db, w))
  {
  }

  lemma KnownRow(db: Db, w: Worker)
    requires Ready(w) && w.jobs[w.at].key in db.txns && w.pc.Idle? && !w.jobs[w.at].item.faults.check
    ensures RowIs(db, w, FinishRow(db, w))
  {
    var known := w.counts.(duplicate := w.counts.duplicate + 1);
    IdleMoves(db, w);
    if w.cfg.enrich.None? {
      NoEnricher(db, w);
    } else {
      KnownAlone(db, w.(pc := Known, counts := known));
    }
    OldRowIs(db, w, FinishRow(db, w));
  }

  /** A row is then imported and counted as one step. */
  lemma RowAlone(db: Db, w: Worker)
    requires Ready(w) && w.pc.Idle?
    ensures RowIs(db, w, FinishRow(db, w))
  {
    if w.jobs[w.at].item.faults.check {
      CheckFails(db, w);
    } else if w.jobs[w.at].key in db.txns {
      KnownRow(db, w);
    } else {
      MissingRow(db, w);
    }
  }

  function Items(w: Worker): seq<Item> {
    seq(|w.jobs|, j requires 0 <= j < |w.jobs| => w.jobs[j].item)
  }

  lemma ItemsStep(db: Db, w: Worker, n: nat)
    requires n < |w.jobs|
    ensures var xs, ys := Items(w)[..n], Items(w)[..n + 1];
            && Import(db, w.cfg, ys) == ImportRow(Import(db, w.cfg, xs), w.cfg, w.jobs[n].item)
            && Count(db, w.cfg, ys)
                 == CountRow(Count(db, w.cfg, xs), Import(db, w.cfg, xs), w.cfg, w.jobs[n].item)
  {
    assert Items(w)[..n + 1][..n] == Items(w)[..n];
  }

  /** After `n` rows: the tables and counts of an import of them. */
  ghost predicate ImportedSoFar(db: Db, w: Worker, n: nat, r: (Db, Worker))
    requires n <= |w.jobs|
  {
    var xs := Items(w)[..n];
    r.0 == Import(db, w.cfg, xs) && r.1 == w.(at := n, counts := Count(db, w.cfg, xs))
  }

  lemma AloneStep(db: Db, w: Worker, n: nat, r: (Db, Worker))
    requires w.pc.Idle? && HasKeys(w) && n < |w.jobs| && ImportedSoFar(db, w, n, r)
    ensures ImportedSoFar(db, w, n + 1, FinishRow(r.0, r.1))
  {
    ItemsStep(db, w, n);
    RowAlone(r.0, r.1);
  }

  /** An import that no other comes between is the import of the statement, with its counts. */
  lemma {:induction false} AloneIsImport(db: Db, w: Worker, n: nat)
    requires w.at == 0 && w.pc.Idle? && HasKeys(w) && w.counts == Counts(0, 0, 0) && n <= |w.jobs|
    ensures ImportedSoFar(db, w, n, Finish(db, w, n))
  {
    if n > 0 {
      AloneIsImport(db, w, n - 1);
      AloneStep(db, w, n - 1, Finish(db, w, n - 1));
    }
  }
}
