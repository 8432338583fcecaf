/** What an import leaves in the enrichment row of a transaction, in terms of the enricher's answer, and what it
    counts. */
module ImportAnswers {
  import opened Common
  import opened Enrichment
  import opened Transactions
  import opened Importer
  import ImportTheorems

  /** The row has taken the answer: tagged `auto`, the category of a known slug, the description unless it is blank;
      what the answer does not give stays as it was, and so do the notes. */
  ghost predicate Took(before: Enrichment, after: Enrichment, cfg: Config, a: Answer, lookupFails: bool) {
    && after.status == Auto && after.notes == before.notes
    && (a.slug != "" && a.slug in cfg.categories && !lookupFails ==> after.category == Some(cfg.categories[a.slug]))
    && (a.slug == "" || a.slug !in cfg.categories || lookupFails ==> after.category == before.category)
    && ((exists i :: 0 <= i < |a.normalized| && !cfg.script.space(a.normalized[i])) ==>
          after.normalized == Some(a.normalized))
    && ((forall i | 0 <= i < |a.normalized| :: cfg.script.space(a.normalized[i])) ==>
          after.normalized == before.normalized)
  }

  /** The answer, if there is an enricher, it has one, and it can be written. */
  function Given(cfg: Config, x: Item): Option<Answer> {
    if cfg.enrich.None? || x.faults.update then None else cfg.enrich.value(x.row)
  }

  /** Without an answer the row stays as it was. */
  ghost predicate Shows(before: Enrichment, after: Enrichment, cfg: Config, x: Item) {
    if Given(cfg, x).None? then after == before else Took(before, after, cfg, Given(cfg, x).value, x.faults.category)
  }

  lemma AnnotateShows(db: Db, cfg: Config, x: Item)
    requires Key(cfg, x.row) in db.txns && db.txns[Key(cfg, x.row)].id in db.enr
    ensures var id, after := db.txns[Key(cfg, x.row)].id, Annotate(db, cfg, x.row, x.faults).enr;
            && after.Keys == db.enr.Keys && Shows(db.enr[id], after[id], cfg, x)
            && forall j | j in db.enr && j != id :: after[j] == db.enr[j]
  {
  }

  /** A row already stored takes the answer to its re-import, and no other row changes. */
  lemma KnownRowShows(db: Db, cfg: Config, x: Item)
    requires Wf(db) && Key(cfg, x.row) in db.txns && db.txns[Key(cfg, x.row)].id in db.enr
    requires !x.faults.check && !x.faults.lookup
    ensures var id, after := db.txns[Key(cfg, x.row)].id, ImportRow(db, cfg, x).enr;
            && after.Keys == db.enr.Keys && Shows(db.enr[id], after[id], cfg, x)
            && forall j | j in db.enr && j != id :: after[j] == db.enr[j]
  {
    AnnotateShows(db, cfg, x);
  }

  /** A new row starts without category, notes and description, pending, and takes the answer to its import. */
  lemma NewRowShows(db: Db, cfg: Config, x: Item)
    requires Wf(db) && Key(cfg, x.row) !in db.txns
    requires !x.faults.check && !x.faults.insert && !x.faults.blank
    ensures var k, after := Key(cfg, x.row), ImportRow(db, cfg, x);
            && k in after.txns && after.txns[k].id !in db.enr && after.enr.Keys == db.enr.Keys + {after.txns[k].id}
            && Shows(Enrichment(None, None, None, Pending), after.enr[after.txns[k].id], cfg, x)
            && forall j | j in db.enr :: after.enr[j] == db.enr[j]
  {
    var stored := WithBlank(Stored(db, cfg, x.row), db.nextId);
    assert stored.txns[Key(cfg, x.row)].id == db.nextId;
    AnnotateShows(stored, cfg, x);
  }

  /** The background pass gives a stored row the same. */
  lemma EnrichedRowShows(db: Db, cfg: Config, x: Item)
    requires Wf(db) && Key(cfg, x.row) in db.txns && db.txns[Key(cfg, x.row)].id in db.enr && !x.faults.lookup
    ensures var id, after := db.txns[Key(cfg, x.row)].id, EnrichRow(db, cfg, x).enr;
            && after.Keys == db.enr.Keys && Shows(db.enr[id], after[id], cfg, x)
            && forall j | j in db.enr && j != id :: after[j] == db.enr[j]
  {
    AnnotateShows(db, cfg, x);
  }

  // ----- a whole statement -----

  /** The last row with its key. */
  ghost predicate LastWithKey(cfg: Config, xs: seq<Item>, i: nat) {
    i < |xs| && forall j | i < j < |xs| :: Key(cfg, xs[j].row) != Key(cfg, xs[i].row)
  }

  /** Every stored transaction has its enrichment row. */
  ghost predicate AllRows(db: Db) {
    forall k | k in db.txns :: db.txns[k].id in db.enr
  }

  lemma CleanRowKeepsAll(db: Db, cfg: Config, x: Item)
    requires Wf(db) && AllRows(db) && x.faults == NO_FAULTS
    ensures Wf(ImportRow(db, cfg, x)) && AllRows(ImportRow(db, cfg, x))
  {
    ImportTheorems.RowKeeps(db, cfg, x);
    if Key(cfg, x.row) in db.txns {
      KnownRowShows(db, cfg, x);
    } else {
      NewRowShows(db, cfg, x);
    }
  }

  lemma {:induction false} CleanImportKeepsAll(db: Db, cfg: Config, xs: seq<Item>)
    requires Wf(db) && AllRows(db) && ImportTheorems.NoFaults(xs)
    ensures Wf(Import(db, cfg, xs)) && AllRows(Import(db, cfg, xs))
  {
    if xs != [] {
      ImportTheorems.NoFaultsSplit(xs);
      CleanImportKeepsAll(db, cfg, xs[..|xs| - 1]);
      CleanRowKeepsAll(Import(db, cfg, xs[..|xs| - 1]), cfg, xs[|xs| - 1]);
    }
  }

  /** Under `k` lies a transaction whose row has taken the answer. */
  ghost predicate HasTaken(db: Db, k: string, cfg: Config, a: Answer) {
    && k in db.txns && db.txns[k].id in db.enr
    && exists before :: Took(before, db.enr[db.txns[k].id], cfg, a, false)
  }

  lemma RowTakes(db: Db, cfg: Config, x: Item, a: Answer)
    requires Wf(db) && AllRows(db) && x.faults == NO_FAULTS && Given(cfg, x) == Some(a)
    ensures HasTaken(ImportRow(db, cfg, x), Key(cfg, x.row), cfg, a)
  {
    ImportTheorems.RowKeeps(db, cfg, x);
    var k := Key(cfg, x.row);
    if k in db.txns {
      KnownRowShows(db, cfg, x);
      assert Took(db.enr[db.txns[k].id], ImportRow(db, cfg, x).enr[db.txns[k].id], cfg, a, false);
    } else {
      NewRowShows(db, cfg, x);
      assert Took(Enrichment(None, None, None, Pending), ImportRow(db, cfg, x).enr[ImportRow(db, cfg, x).txns[k].id],
                  cfg, a, false);
    }
  }

  lemma OtherRowLeaves(db: Db, cfg: Config, x: Item, k: string)
    requires Wf(db) && AllRows(db) && x.faults == NO_FAULTS && k in db.txns && Key(cfg, x.row) != k
    ensures var after := ImportRow(db, cfg, x);
            && k in after.txns && after.txns[k] == db.txns[k]
            && db.txns[k].id in after.enr && after.enr[db.txns[k].id] == db.enr[db.txns[k].id]
  {
    ImportTheorems.RowKeeps(db, cfg, x);
    if Key(cfg, x.row) in db.txns {
      KnownRowShows(db, cfg, x);
    } else {
      NewRowShows(db, cfg, x);
    }
  }

  /** After a statement is imported without failures, the enrichment row of each of its transactions shows the answer to
      the last row with that key: its category if that is known, its description unless blank, and the tag `auto`. */
  lemma {:induction false} LastAnswerShows(db: Db, cfg: Config, xs: seq<Item>, i: nat, a: Answer)
    requires Wf(db) && AllRows(db) && ImportTheorems.NoFaults(xs)
    requires LastWithKey(cfg, xs, i) && Given(cfg, xs[i]) == Some(a)
    ensures HasTaken(Import(db, cfg, xs), Key(cfg, xs[i].row), cfg, a)
  {
    var n := |xs| - 1;
    var init := xs[..n];
    ImportTheorems.NoFaultsSplit(xs);
    CleanImportKeepsAll(db, cfg, init);
    if i == n {
      RowTakes(Import(db, cfg, init), cfg, xs[n], a);
    } else {
      StillLast(cfg, xs, i);
      LastAnswerShows(db, cfg, init, i, a);
      OtherRowLeaves(Import(db, cfg, init), cfg, xs[n], Key(cfg, xs[i].row));
    }
  }

  lemma StillLast(cfg: Config, xs: seq<Item>, i: nat)
    requires LastWithKey(cfg, xs, i) && i < |xs| - 1
    ensures LastWithKey(cfg, xs[..|xs| - 1], i) && Key(cfg, xs[|xs| - 1].row) != Key(cfg, xs[i].row)
  {
  }

  // ----- what is counted -----

  /** When row `i` is reached its key is stored. */
  predicate IsKnown(db: Db, cfg: Config, xs: seq<Item>, i: nat)
    requires i < |xs|
  {
    Key(cfg, xs[i].row) in Import(db, cfg, xs[..i]).txns
  }

  /** The row fails: its check does, or its key is not stored yet and one of its inserts does. */
  predicate Fails(db: Db, cfg: Config, xs: seq<Item>, i: nat)
    requires i < |xs|
  {
    xs[i].faults.check || (!IsKnown(db, cfg, xs, i) && (xs[i].faults.insert || xs[i].faults.blank))
  }

  /** The row's check works and finds its key. */
  predicate Repeats(db: Db, cfg: Config, xs: seq<Item>, i: nat)
    requires i < |xs|
  {
    !xs[i].faults.check && IsKnown(db, cfg, xs, i)
  }

  /** Neither: the row is stored as a new transaction. */
  predicate Adds(db: Db, cfg: Config, xs: seq<Item>, i: nat)
    requires i < |xs|
  {
    !xs[i].faults.check && !IsKnown(db, cfg, xs, i) && !xs[i].faults.insert && !xs[i].faults.blank
  }

  /** How many of the first `n` indices satisfy `p`. */
  function HowMany(n: nat, p: nat -> bool): nat {
    if n == 0 then 0 else HowMany(n - 1, p) + if p(n - 1) then 1 else 0
  }

  lemma LastIsCounted(db: Db, cfg: Config, xs: seq<Item>, n: nat)
    requires n < |xs|
    ensures var a, b := Count(db, cfg, xs[..n]), Count(db, cfg, xs[..n + 1]);
            && b.failed == a.failed + (if Fails(db, cfg, xs, n) then 1 else 0)
            && b.duplicate == a.duplicate + (if Repeats(db, cfg, xs, n) then 1 else 0)
            && b.inserted == a.inserted + (if Adds(db, cfg, xs, n) then 1 else 0)
  {
    assert xs[..n + 1][..n] == xs[..n];
  }

  lemma {:induction false} FailedCount(db: Db, cfg: Config, xs: seq<Item>, n: nat)
    requires n <= |xs|
    ensures Count(db, cfg, xs[..n]).failed == HowMany(n, (i: nat) => i < |xs| && Fails(db, cfg, xs, i))
  {
    if n > 0 {
      FailedCount(db, cfg, xs, n - 1);
      LastIsCounted(db, cfg, xs, n - 1);
    }
  }

  lemma {:induction false} DuplicateCount(db: Db, cfg: Config, xs: seq<Item>, n: nat)
    requires n <= |xs|
    ensures Count(db, cfg, xs[..n]).duplicate == HowMany(n, (i: nat) => i < |xs| && Repeats(db, cfg, xs, i))
  {
    if n > 0 {
      DuplicateCount(db, cfg, xs, n - 1);
      LastIsCounted(db, cfg, xs, n - 1);
    }
  }

  lemma {:induction false} InsertedCount(db: Db, cfg: Config, xs: seq<Item>, n: nat)
    requires n <= |xs|
    ensures Count(db, cfg, xs[..n]).inserted == HowMany(n, (i: nat) => i < |xs| && Adds(db, cfg, xs, i))
  {
    if n > 0 {
      InsertedCount(db, cfg, xs, n - 1);
      LastIsCounted(db, cfg, xs, n - 1);
    }
  }

  /** The counters are the numbers of rows of each kind. */
  lemma CountsAreRows(db: Db, cfg: Config, xs: seq<Item>)
    ensures var c, n := Count(db, cfg, xs), |xs|;
            && c.failed == HowMany(n, (i: nat) => i < n && Fails(db, cfg, xs, i))
            && c.duplicate == HowMany(n, (i: nat) => i < n && Repeats(db, cfg, xs, i))
            && c.inserted == HowMany(n, (i: nat) => i < n && Adds(db, cfg, xs, i))
  {
    assert xs[..|xs|] == xs;
    FailedCount(db, cfg, xs, |xs|);
    DuplicateCount(db, cfg, xs, |xs|);
    InsertedCount(db, cfg, xs, |xs|);
  }

  /** The background pass finds the row's transaction but gets no answer, or cannot write it. */
  predicate Unanswered(db: Db, cfg: Config, x: Item)
    requires cfg.enrich.Some?
  {
    !x.faults.lookup && Key(cfg, x.row) in db.txns && (cfg.enrich.value(x.row).None? || x.faults.update)
  }

  lemma {:induction false} UnansweredCount(db: Db, cfg: Config, xs: seq<Item>, n: nat)
    requires cfg.enrich.Some? && n <= |xs|
    ensures EnrichFailures(db, cfg, xs[..n]) == HowMany(n, (i: nat) => i < |xs| && Unanswered(db, cfg, xs[i]))
  {
    if n > 0 {
      UnansweredCount(db, cfg, xs, n - 1);
      EnrichStep(db, cfg, xs, n - 1);
    }
  }

  /** The pass counts the rows it leaves without an answer. */
  lemma EnrichFailuresAreRows(db: Db, cfg: Config, xs: seq<Item>)
    requires cfg.enrich.Some?
    ensures EnrichFailures(db, cfg, xs) == HowMany(|xs|, (i: nat) => i < |xs| && Unanswered(db, cfg, xs[i]))
  {
    assert xs[..|xs|] == xs;
    UnansweredCount(db, cfg, xs, |xs|);
  }
}
