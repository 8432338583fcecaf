/**
  Imports that overlap statement by statement: the key check, the fetch of a known transaction, the two inserts and the
  enrichment of a row are separate moves, and any number of imports, of any accounts, take turns in any way.
 */
module ImportRace {
  import opened Common
  import opened Enrichment
  import opened Transactions
  import opened Importer
  import opened Statement

  /** Where an import stands in its current row. */
  datatype Pc =
    | Idle                // about to check the key
    | Known               // a duplicate; about to fetch its id
    | Missing             // not found; about to insert the transaction
    | Stored(id: nat)     // inserted; about to insert the enrichment row
    | Tagging(id: nat)    // about to write the enricher's answer

  /** A row with its key. */
  datatype Job = Job(item: Item, key: string)

  /** One import: its rows, the next of them, and its counters. */
  datatype Worker = Worker(cfg: Config, jobs: seq<Job>, at: nat, pc: Pc, counts: Counts)

  function JobOf(cfg: Config, x: Item): Job { Job(x, Key(cfg, x.row)) }

  predicate HasKeys(w: Worker) {
    forall j | 0 <= j < |w.jobs| :: w.jobs[j] == JobOf(w.cfg, w.jobs[j].item)
  }

  datatype State = State(db: Db, workers: seq<Worker>)

  function Skip(w: Worker): Worker { w.(at := w.at + 1, pc := Idle) }

  function Fail(w: Worker): Worker { Skip(w).(counts := w.counts.(failed := w.counts.failed + 1)) }

  /** After the row is counted: go on to the enricher, if there is one. */
  function Then(w: Worker, pc: Pc): Worker { if w.cfg.enrich.None? then Skip(w) else w.(pc := pc) }

  /** One statement of a worker: the new tables and the new worker. */
  function Move(db: Db, w: Worker): (Db, Worker)
    requires w.at < |w.jobs|
  {
    var x, k := w.jobs[w.at].item, w.jobs[w.at].key;
    var f := x.faults;
    match w.pc
    case Idle =>
      if f.check then (db, Fail(w))
      else if k in db.txns then
        (db, Then(w.(counts := w.counts.(duplicate := w.counts.duplicate + 1)), Known))
      else (db, w.(pc := Missing))
    case Known => if f.lookup || k !in db.txns then (db, Skip(w)) else (db, w.(pc := Tagging(db.txns[k].id)))
    case Missing =>
      if f.insert || k in db.txns then (db, Fail(w))
      else (WithTxn(db, k, TxnOf(w.cfg, x.row)), w.(pc := Stored(db.nextId)))
    case Stored(id) =>
      if f.blank then (db, Fail(w))
      else (WithBlank(db, id), Then(w.(counts := w.counts.(inserted := w.counts.inserted + 1)), Tagging(id)))
    case Tagging(id) =>
      var answer := w.cfg.enrich;
      if answer.None? || answer.value(x.row).None? || f.update then (db, Skip(w))
      else (Enriched(db, id, UpdateOf(w.cfg, answer.value(x.row).value, f.category)), Skip(w))
  }

  predicate Enabled(s: State, t: nat) { t < |s.workers| && s.workers[t].at < |s.workers[t].jobs| }

  function Step(s: State, t: nat): State
    requires Enabled(s, t)
  {
    var (db, w) := Move(s.db, s.workers[t]);
    State(db, s.workers[t := w])
  }

  // ----- one worker -----

  /** The row in progress is already counted. */
  function Ahead(pc: Pc): nat { if pc.Known? || pc.Tagging? then 1 else 0 }

  /** Its transaction is stored but not yet counted. */
  function Uncounted(pc: Pc): nat { if pc.Stored? then 1 else 0 }

  function Total(c: Counts): nat { c.inserted + c.duplicate + c.failed }

  /** Rows so far whose second insert fails. */
  function BlankFaults(jobs: seq<Job>): nat {
    if jobs == [] then 0
    else BlankFaults(jobs[..|jobs| - 1]) + if jobs[|jobs| - 1].item.faults.blank then 1 else 0
  }

  /** Transactions the worker is known to have stored, and those it may have stored besides. */
  function Least(w: Worker): nat { w.counts.inserted + Uncounted(w.pc) }

  function Most(w: Worker): nat
    requires w.at <= |w.jobs|
  {
    Least(w) + BlankFaults(w.jobs[..w.at])
  }

  /** The clean rows before `n` are stored. */
  ghost predicate RowsStored(db: Db, w: Worker, n: nat)
    requires n <= |w.jobs|
  {
    forall j | 0 <= j < n && w.jobs[j].item.faults == NO_FAULTS :: RowStored(db, w, j)
  }

  predicate RowStored(db: Db, w: Worker, j: nat)
    requires j < |w.jobs|
  {
    w.jobs[j].key in db.txns
  }

  /** Every row done is counted, every clean row done is stored, and so is the row in progress once it is past the
      insert. */
  ghost predicate WorkerOk(db: Db, w: Worker) {
    && w.at <= |w.jobs| && (w.at == |w.jobs| ==> w.pc.Idle?)
    && Total(w.counts) == w.at + Ahead(w.pc)
    && RowsStored(db, w, w.at)
    && ((w.pc.Known? || w.pc.Stored? || w.pc.Tagging?) ==> RowStored(db, w, w.at))
    && ((w.pc.Stored? || w.pc.Tagging?) ==> w.pc.id < db.nextId)
  }

  /** Transactions are never changed or dropped, and ids only grow. */
  ghost predicate Grows(before: Db, after: Db) {
    && before.nextId <= after.nextId
    && forall k | k in before.txns :: k in after.txns && after.txns[k] == before.txns[k]
  }

  lemma RowStays(before: Db, after: Db, w: Worker, j: nat)
    requires j < |w.jobs| && RowStored(before, w, j) && Grows(before, after)
    ensures RowStored(after, w, j)
  {
  }

  lemma RowsStay(before: Db, after: Db, w: Worker, n: nat)
    requires n <= |w.jobs| && RowsStored(before, w, n) && Grows(before, after)
    ensures RowsStored(after, w, n)
  {
    forall j | 0 <= j < n && w.jobs[j].item.faults == NO_FAULTS ensures RowStored(after, w, j) {
      RowStays(before, after, w, j);
    }
  }

  lemma WorkerStays(before: Db, after: Db, w: Worker)
    requires WorkerOk(before, w) && Grows(before, after)
    ensures WorkerOk(after, w)
  {
    RowsStay(before, after, w, w.at);
    if w.at < |w.jobs| && RowStored(before, w, w.at) {
      RowStays(before, after, w, w.at);
    }
  }

  /** A move leaves the tables alone, inserts its transaction, its enrichment row, or an answer. */
  lemma MoveTables(db: Db, w: Worker)
    requires w.at < |w.jobs|
    ensures var x, db' := w.jobs[w.at].item, Move(db, w).0;
            || db' == db
            || (w.jobs[w.at].key !in db.txns && db' == WithTxn(db, w.jobs[w.at].key, TxnOf(w.cfg, x.row)))
            || (w.pc.Stored? && db' == WithBlank(db, w.pc.id))
            || (db'.txns == db.txns && db'.nextId == db.nextId && db'.enr.Keys == db.enr.Keys)
  {
  }

  lemma NewTxnWf(db: Db, k: string, t: Txn)
    requires Wf(db) && k !in db.txns
    ensures Wf(WithTxn(db, k, t)) && Grows(db, WithTxn(db, k, t))
  {
  }

  lemma MoveGrows(db: Db, w: Worker)
    requires Wf(db) && w.at < |w.jobs| && (w.pc.Stored? ==> w.pc.id < db.nextId)
    ensures Wf(Move(db, w).0) && Grows(db, Move(db, w).0)
    ensures Move(db, w).0.txns.Keys <= db.txns.Keys + {w.jobs[w.at].key}
  {
    MoveTables(db, w);
    if w.jobs[w.at].key !in db.txns {
      NewTxnWf(db, w.jobs[w.at].key, TxnOf(w.cfg, w.jobs[w.at].item.row));
    }
  }

  lemma MoveCounts(db: Db, w: Worker)
    requires WorkerOk(db, w) && w.at < |w.jobs|
    ensures var w' := Move(db, w).1;
            Total(w'.counts) == w'.at + Ahead(w'.pc) && w'.at <= |w'.jobs| && (w'.at == |w'.jobs| ==> w'.pc.Idle?)
  {
  }

  /** A clean row is left behind only when it is stored. */
  lemma MoveStores(db: Db, w: Worker)
    requires WorkerOk(db, w) && w.at < |w.jobs|
    ensures var (db', w') := Move(db, w);
            && w'.cfg == w.cfg && w'.jobs == w.jobs && w.at <= w'.at <= w.at + 1
            && (w'.at > w.at ==> w'.pc.Idle? && (w.jobs[w.at].item.faults == NO_FAULTS ==> RowStored(db', w, w.at)))
            && ((w'.pc.Known? || w'.pc.Stored? || w'.pc.Tagging?) ==> RowStored(db', w, w.at))
  {
  }

  lemma MoveIds(db: Db, w: Worker)
    requires Wf(db) && WorkerOk(db, w) && w.at < |w.jobs|
    ensures var (db', w') := Move(db, w); (w'.pc.Stored? || w'.pc.Tagging?) ==> w'.pc.id < db'.nextId
  {
  }

  lemma MoveOk(db: Db, w: Worker)
    requires Wf(db) && WorkerOk(db, w) && w.at < |w.jobs|
    ensures WorkerOk(Move(db, w).0, Move(db, w).1)
  {
    var db', w' := Move(db, w).0, Move(db, w).1;
    MoveCounts(db, w);
    MoveGrows(db, w);
    MoveStores(db, w);
    MoveIds(db, w);
    RowsStay(db, db', w, w.at);
    forall j | 0 <= j < w'.at && w'.jobs[j].item.faults == NO_FAULTS ensures RowStored(db', w', j) {
      assert RowStored(db', w, j);
    }
  }

  lemma BlankFaultsStep(jobs: seq<Job>, at: nat)
    requires at < |jobs|
    ensures BlankFaults(jobs[..at + 1]) == BlankFaults(jobs[..at]) + if jobs[at].item.faults.blank then 1 else 0
  {
    assert jobs[..at + 1][..at] == jobs[..at];
  }

  /** What the table gains is what the worker's bounds gain. */
  lemma MoveBounds(db: Db, w: Worker)
    requires WorkerOk(db, w) && w.at < |w.jobs|
    ensures var (db', w') := Move(db, w);
            && w'.at <= |w'.jobs|
            && |db.txns| + Least(w') - Least(w) <= |db'.txns| <= |db.txns| + Most(w') - Most(w)
  {
    BlankFaultsStep(w.jobs, w.at);
  }

  // ----- all workers -----

  function SumLeast(ws: seq<Worker>): nat {
    if ws == [] then 0 else Least(ws[0]) + SumLeast(ws[1..])
  }

  function SumMost(ws: seq<Worker>): nat
    requires forall t | 0 <= t < |ws| :: ws[t].at <= |ws[t].jobs|
  {
    if ws == [] then 0 else Most(ws[0]) + SumMost(ws[1..])
  }

  lemma {:induction false} SumLeastUpdate(ws: seq<Worker>, t: nat, w: Worker)
    requires t < |ws|
    ensures SumLeast(ws[t := w]) == SumLeast(ws) - Least(ws[t]) + Least(w)
  {
    if t == 0 {
      assert ws[t := w][1..] == ws[1..];
    } else {
      assert ws[t := w][1..] == ws[1..][t - 1 := w];
      SumLeastUpdate(ws[1..], t - 1, w);
    }
  }

  lemma {:induction false} SumMostUpdate(ws: seq<Worker>, t: nat, w: Worker)
    requires t < |ws| && w.at <= |w.jobs| && forall u | 0 <= u < |ws| :: ws[u].at <= |ws[u].jobs|
    ensures SumMost(ws[t := w]) == SumMost(ws) - Most(ws[t]) + Most(w)
  {
    if t == 0 {
      assert ws[t := w][1..] == ws[1..];
    } else {
      assert ws[t := w][1..] == ws[1..][t - 1 := w];
      SumMostUpdate(ws[1..], t - 1, w);
    }
  }

  ghost predicate WorkersOk(s: State) {
    forall t | 0 <= t < |s.workers| :: WorkerOk(s.db, s.workers[t])
  }

  /** The table has grown by at least what is counted as inserted, and by no more than that and the blank faults. */
  ghost predicate Bounded(start: nat, s: State) {
    && WorkersOk(s)
    && start + SumLeast(s.workers) <= |s.db.txns| <= start + SumMost(s.workers)
  }

  lemma StepWorkers(s: State, t: nat)
    requires Wf(s.db) && WorkersOk(s) && Enabled(s, t)
    ensures Wf(Step(s, t).db) && Grows(s.db, Step(s, t).db) && WorkersOk(Step(s, t))
  {
    assert WorkerOk(s.db, s.workers[t]);
    MoveGrows(s.db, s.workers[t]);
    MoveOk(s.db, s.workers[t]);
    forall u | 0 <= u < |s.workers| ensures WorkerOk(Step(s, t).db, Step(s, t).workers[u]) {
      if u != t {
        WorkerStays(s.db, Step(s, t).db, s.workers[u]);
      }
    }
  }

  lemma StepBounded(start: nat, s: State, t: nat)
    requires Wf(s.db) && Bounded(start, s) && Enabled(s, t)
    ensures Bounded(start, Step(s, t))
  {
    StepWorkers(s, t);
    var w := s.workers[t];
    assert WorkerOk(s.db, w);
    MoveBounds(s.db, w);
    SumLeastUpdate(s.workers, t, Move(s.db, w).1);
    SumMostUpdate(s.workers, t, Move(s.db, w).1);
  }

  // ----- races -----

  /** Any imports, not yet begun, taking turns as `turns` says. */
  ghost predicate IsRace(trace: seq<State>, turns: seq<nat>) {
    && |trace| == |turns| + 1 && Wf(trace[0].db)
    && (forall t | 0 <= t < |trace[0].workers| ::
          var w := trace[0].workers[t];
          HasKeys(w) && w.at == 0 && w.pc == Idle && w.counts == Counts(0, 0, 0))
    && forall i | 0 <= i < |turns| :: Enabled(trace[i], turns[i]) && trace[i + 1] == Step(trace[i], turns[i])
  }

  lemma {:induction false} NothingYet(ws: seq<Worker>)
    requires forall t | 0 <= t < |ws| :: ws[t].at == 0 && ws[t].pc == Idle && ws[t].counts == Counts(0, 0, 0)
    ensures SumLeast(ws) == 0 && SumMost(ws) == 0
  {
    if ws != [] {
      NothingYet(ws[1..]);
    }
  }

  /** The imports have the same rows, in the same place. */
  ghost predicate SameJobs(before: seq<Worker>, after: seq<Worker>) {
    && |after| == |before|
    && forall t | 0 <= t < |before| :: after[t].cfg == before[t].cfg && after[t].jobs == before[t].jobs
  }

  lemma StepKeepsJobs(s: State, t: nat)
    requires WorkersOk(s) && Enabled(s, t)
    ensures SameJobs(s.workers, Step(s, t).workers)
  {
    assert WorkerOk(s.db, s.workers[t]);
    MoveStores(s.db, s.workers[t]);
  }

  /** The tables are in order, the counts bounded, and nothing was lost since the start. */
  ghost predicate RaceKeeps(start: State, s: State) {
    Wf(s.db) && Bounded(|start.db.txns|, s) && Grows(start.db, s.db) && SameJobs(start.workers, s.workers)
  }

  ghost predicate Unbegun(w: Worker) { w.at == 0 && w.pc == Idle && w.counts == Counts(0, 0, 0) }

  lemma UnbegunOk(db: Db, w: Worker)
    requires Unbegun(w)
    ensures WorkerOk(db, w)
  {
  }

  lemma RaceStarts(s: State)
    requires Wf(s.db) && forall t | 0 <= t < |s.workers| :: Unbegun(s.workers[t])
    ensures RaceKeeps(s, s)
  {
    forall t | 0 <= t < |s.workers| ensures WorkerOk(s.db, s.workers[t]) {
      UnbegunOk(s.db, s.workers[t]);
    }
    NothingYet(s.workers);
  }

  lemma RaceGoesOn(start: State, s: State, t: nat)
    requires RaceKeeps(start, s) && Enabled(s, t)
    ensures RaceKeeps(start, Step(s, t))
  {
    StepWorkers(s, t);
    StepBounded(|start.db.txns|, s, t);
    StepKeepsJobs(s, t);
  }

  lemma {:induction false} RaceOk(trace: seq<State>, turns: seq<nat>, i: nat)
    requires IsRace(trace, turns) && i < |trace|
    ensures Wf(trace[i].db) && Bounded(|trace[0].db.txns|, trace[i])
    ensures Grows(trace[0].db, trace[i].db) && SameJobs(trace[0].workers, trace[i].workers)
  {
    if i == 0 {
      RaceStarts(trace[0]);
    } else {
      RaceOk(trace, turns, i - 1);
      RaceGoesOn(trace[0], trace[i - 1], turns[i - 1]);
    }
  }

  /** The key of one of the rows being imported. */
  ghost predicate FromRows(ws: seq<Worker>, k: string) {
    exists t, j | 0 <= t < |ws| && 0 <= j < |ws[t].jobs| :: ws[t].jobs[j].key == k
  }

  lemma SameRows(before: seq<Worker>, after: seq<Worker>, k: string)
    requires SameJobs(before, after) && FromRows(after, k)
    ensures FromRows(before, k)
  {
    var t, j :| 0 <= t < |after| && 0 <= j < |after[t].jobs| && after[t].jobs[j].key == k;
    assert before[t].jobs[j].key == k;
  }

  lemma StepKeys(s: State, t: nat, k: string)
    requires Wf(s.db) && WorkersOk(s) && Enabled(s, t) && k in Step(s, t).db.txns && k !in s.db.txns
    ensures FromRows(s.workers, k)
  {
    var w := s.workers[t];
    assert WorkerOk(s.db, w);
    MoveGrows(s.db, w);
    assert w.jobs[w.at].key == k;
  }

  lemma KeyAppears(start: seq<Worker>, s: State, t: nat, k: string)
    requires Wf(s.db) && WorkersOk(s) && Enabled(s, t) && SameJobs(start, s.workers) && k in Step(s, t).db.txns
    ensures k in s.db.txns || FromRows(start, k)
  {
    if k !in s.db.txns {
      StepKeys(s, t, k);
      SameRows(start, s.workers, k);
    }
  }

  ghost predicate OnlyTheirs(start: State, db: Db) {
    forall k | k in db.txns :: k in start.db.txns || FromRows(start.workers, k)
  }

  lemma StepOnlyTheirs(start: State, s: State, t: nat)
    requires Wf(s.db) && WorkersOk(s) && Enabled(s, t) && SameJobs(start.workers, s.workers) && OnlyTheirs(start, s.db)
    ensures OnlyTheirs(start, Step(s, t).db)
  {
    forall k | k in Step(s, t).db.txns ensures k in start.db.txns || FromRows(start.workers, k) {
      KeyAppears(start.workers, s, t, k);
    }
  }

  /** Nothing but the imported rows enters the table. */
  lemma {:induction false} RaceKeys(trace: seq<State>, turns: seq<nat>, i: nat)
    requires IsRace(trace, turns) && i < |trace|
    ensures OnlyTheirs(trace[0], trace[i].db)
  {
    if i > 0 {
      RaceKeys(trace, turns, i - 1);
      RaceOk(trace, turns, i - 1);
      StepOnlyTheirs(trace[0], trace[i - 1], turns[i - 1]);
    }
  }

  /** All imports have finished. */
  ghost predicate Finished(s: State) {
    forall t | 0 <= t < |s.workers| :: s.workers[t].at == |s.workers[t].jobs|
  }

  predicate Clean(w: Worker) {
    forall j | 0 <= j < |w.jobs| :: w.jobs[j].item.faults == NO_FAULTS
  }

  function SumInserted(ws: seq<Worker>): nat {
    if ws == [] then 0 else ws[0].counts.inserted + SumInserted(ws[1..])
  }

  function SumBlankFaults(ws: seq<Worker>): nat {
    if ws == [] then 0 else BlankFaults(ws[0].jobs) + SumBlankFaults(ws[1..])
  }

  lemma {:induction false} FinishedSums(db: Db, ws: seq<Worker>)
    requires forall t | 0 <= t < |ws| :: WorkerOk(db, ws[t]) && ws[t].at == |ws[t].jobs|
    ensures SumLeast(ws) == SumInserted(ws) && SumMost(ws) == SumInserted(ws) + SumBlankFaults(ws)
  {
    if ws != [] {
      FinishedSums(db, ws[1..]);
      assert ws[0].jobs[..ws[0].at] == ws[0].jobs;
    }
  }

  /** However imports overlap and whatever fails: nothing stored is changed or lost and ids stay unique; every import
      counts each of its rows once; every row without a failure is in the table under its key, stored once; and the
      table grows by the rows counted as inserted, and at most those whose second insert failed besides. */
  lemma RaceOutcome(trace: seq<State>, turns: seq<nat>)
    requires IsRace(trace, turns) && Finished(trace[|turns|])
    ensures var start, end := trace[0], trace[|turns|];
            && Wf(end.db) && Grows(start.db, end.db) && |end.workers| == |start.workers|
            && (forall t | 0 <= t < |end.workers| ::
                  Total(end.workers[t].counts) == |start.workers[t].jobs|)
            && (forall t, j | 0 <= t < |start.workers| && 0 <= j < |start.workers[t].jobs|
                  && start.workers[t].jobs[j].item.faults == NO_FAULTS ::
                  Key(start.workers[t].cfg, start.workers[t].jobs[j].item.row) in end.db.txns)
            && |start.db.txns| + SumInserted(end.workers) <= |end.db.txns|
                 <= |start.db.txns| + SumInserted(end.workers) + SumBlankFaults(end.workers)
  {
    var start, end := trace[0], trace[|turns|];
    RaceOk(trace, turns, |turns|);
    FinishedSums(end.db, end.workers);
    forall t | 0 <= t < |end.workers|
      ensures Total(end.workers[t].counts) == |start.workers[t].jobs|
      ensures forall j | 0 <= j < |start.workers[t].jobs| && start.workers[t].jobs[j].item.faults == NO_FAULTS ::
                Key(start.workers[t].cfg, start.workers[t].jobs[j].item.row) in end.db.txns
    {
      var w := end.workers[t];
      assert WorkerOk(end.db, w);
      assert forall j | 0 <= j < |w.jobs| && w.jobs[j].item.faults == NO_FAULTS :: RowStored(end.db, w, j);
    }
  }

  lemma {:induction false} CleanHasNone(jobs: seq<Job>)
    requires forall j | 0 <= j < |jobs| :: jobs[j].item.faults == NO_FAULTS
    ensures BlankFaults(jobs) == 0
  {
    if jobs != [] {
      CleanHasNone(jobs[..|jobs| - 1]);
    }
  }

  lemma {:induction false} CleanSums(ws: seq<Worker>)
    requires forall t | 0 <= t < |ws| :: Clean(ws[t])
    ensures SumBlankFaults(ws) == 0
  {
    if ws != [] {
      CleanHasNone(ws[0].jobs);
      CleanSums(ws[1..]);
    }
  }

  /** Without failures the imports together count as inserted exactly the new transactions, each once. */
  lemma CleanRaceCounts(trace: seq<State>, turns: seq<nat>)
    requires IsRace(trace, turns) && Finished(trace[|turns|])
    requires forall t | 0 <= t < |trace[0].workers| :: Clean(trace[0].workers[t])
    ensures |trace[|turns|].db.txns| == |trace[0].db.txns| + SumInserted(trace[|turns|].workers)
  {
    RaceOutcome(trace, turns);
    RaceOk(trace, turns, |turns|);
    forall t | 0 <= t < |trace[0].workers| ensures Clean(trace[|turns|].workers[t]) {
      assert Clean(trace[0].workers[t]);
    }
    CleanSums(trace[|turns|].workers);
  }

  /** But a row can be reported as failed although nothing failed and its transaction is stored: exactly when the other
      import inserts the key between this one's check and its insert. */
  lemma LostInsertIff(db: Db, w: Worker)
    requires w.at < |w.jobs| && w.pc == Missing && w.jobs[w.at].item.faults == NO_FAULTS
    ensures Move(db, w).1.counts.failed == w.counts.failed + 1 <==> w.jobs[w.at].key in db.txns
  {
  }

  const EMPTY := Db(map[], map[], 0)

  function Begin(cfg: Config, row: Row): Worker {
    Worker(cfg, [JobOf(cfg, Item(row, NO_FAULTS))], 0, Idle, Counts(0, 0, 0))
  }

  /** After both checks, one insert and its enrichment row. */
  lemma OneInserts(cfg: Config, row: Row) returns (s: State)
    requires cfg.enrich.None?
    ensures var w := Begin(cfg, row);
            && |s.workers| == 2 && s.workers[1] == w.(pc := Missing)
            && Move(EMPTY, w) == (EMPTY, w.(pc := Missing))
            && Move(EMPTY, w.(pc := Missing)) == (s.db.(enr := map[]), w.(pc := Stored(0)))
            && Move(s.db.(enr := map[]), w.(pc := Stored(0))) == (s.db, s.workers[0])
            && s.workers[0].at == 1 && s.workers[0].jobs == w.jobs && s.workers[0].counts == Counts(1, 0, 0)
            && s.db.txns.Keys == {Key(cfg, row)}
  {
    var w := Begin(cfg, row);
    var stored := WithTxn(EMPTY, Key(cfg, row), TxnOf(cfg, row));
    s := State(WithBlank(stored, 0), [Move(stored, w.(pc := Stored(0))).1, w.(pc := Missing)]);
    assert s.db.(enr := map[]) == stored;
  }

  lemma OneMore(trace: seq<State>, turns: seq<nat>, t: nat, next: State)
    requires IsRace(trace, turns) && Enabled(trace[|turns|], t) && next == Step(trace[|turns|], t)
    ensures IsRace(trace + [next], turns + [t])
  {
  }

  lemma Take(trace: seq<State>, turns: seq<nat>, t: nat, next: State) returns (trace': seq<State>, turns': seq<nat>)
    requires IsRace(trace, turns) && Enabled(trace[|turns|], t) && next == Step(trace[|turns|], t)
    ensures IsRace(trace', turns') && trace'[|turns'|] == next
  {
    OneMore(trace, turns, t, next);
    trace', turns' := trace + [next], turns + [t];
  }

  lemma BothCheck(cfg: Config, row: Row) returns (trace: seq<State>, turns: seq<nat>)
    requires cfg.enrich.None?
    ensures IsRace(trace, turns)
    ensures var checked := Begin(cfg, row).(pc := Missing); trace[|turns|] == State(EMPTY, [checked, checked])
  {
    var w := Begin(cfg, row);
    var _ := OneInserts(cfg, row);
    var checked := w.(pc := Missing);
    trace, turns := [State(EMPTY, [w, w])], [];
    trace, turns := Take(trace, turns, 0, State(EMPTY, [checked, w]));
    trace, turns := Take(trace, turns, 1, State(EMPTY, [checked, checked]));
  }

  /** Two imports of the same row: both check, one inserts, the other reports a failure. */
  lemma TwoImportsRace(cfg: Config, row: Row) returns (trace: seq<State>, turns: seq<nat>)
    requires cfg.enrich.None?
    ensures IsRace(trace, turns) && Finished(trace[|turns|])
    ensures |trace[|turns|].workers| == 2 && trace[|turns|].db.txns.Keys == {Key(cfg, row)}
    ensures trace[|turns|].workers[0].counts == Counts(1, 0, 0)
    ensures trace[|turns|].workers[1].counts == Counts(0, 0, 1)
  {
    var w := Begin(cfg, row);
    var s := OneInserts(cfg, row);
    var checked := w.(pc := Missing);
    trace, turns := BothCheck(cfg, row);
    trace, turns := Take(trace, turns, 0, State(s.db.(enr := map[]), [w.(pc := Stored(0)), checked]));
    trace, turns := Take(trace, turns, 0, State(s.db, [s.workers[0], checked]));
    LostInsertIff(s.db, checked);
    trace, turns := Take(trace, turns, 1, State(s.db, [s.workers[0], Fail(checked)]));
  }
}
