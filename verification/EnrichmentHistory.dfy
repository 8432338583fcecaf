/**
  Histories of the whole database: rows of any imports and background passes and manual edits, in any interleaving,
  with any failures.  Each enrichment row sees the sequence of writes that `Enrichment` replays.
 */
module EnrichmentHistory {
  import opened Common
  import opened Enrichment
  import opened Transactions
  import opened Importer
  import ImportTheorems

  datatype Step = Imported(cfg: Config, item: Item)
                | EnrichedLater(cfg: Config, item: Item)
                | Edited(id: nat, category: Option<nat>, notes: Option<string>, fault: bool)

  function Edit(s: Step): Write
    requires s.Edited?
  {
    FromUser(s.category, s.notes)
  }

  function Perform(db: Db, s: Step): Db {
    match s
    case Imported(cfg, x) => ImportRow(db, cfg, x)
    case EnrichedLater(cfg, x) => EnrichRow(db, cfg, x)
    case Edited(id, _, _, fault) => if fault then db else Enriched(db, id, ToUpdate(Edit(s)))
  }

  /** What the importer writes when it has an answer for the row and the update succeeds. */
  function AnswerWrite(cfg: Config, x: Item): Option<Write> {
    if cfg.enrich.None? || cfg.enrich.value(x.row).None? || x.faults.update then None
    else
      var u := UpdateOf(cfg, cfg.enrich.value(x.row).value, x.faults.category);
      Some(FromImport(u.normalized, u.category))
  }

  /** The transaction the step finds or stores, if it gets as far as its enrichment row. */
  function Target(db: Db, s: Step): Option<nat> {
    match s
    case Imported(cfg, x) =>
      if x.faults.check then None
      else if Key(cfg, x.row) in db.txns then
        (if x.faults.lookup then None else Some(db.txns[Key(cfg, x.row)].id))
      else if x.faults.insert || x.faults.blank then None
      else Some(db.nextId)
    case EnrichedLater(cfg, x) =>
      if x.faults.lookup || Key(cfg, x.row) !in db.txns then None else Some(db.txns[Key(cfg, x.row)].id)
    case Edited(id, _, _, fault) => if fault then None else Some(id)
  }

  /** What the step writes to the enrichment row of `id`, if anything. */
  function WriteOn(db: Db, s: Step, id: nat): Option<Write> {
    if Target(db, s) != Some(id) then None else if s.Edited? then Some(Edit(s)) else AnswerWrite(s.cfg, s.item)
  }

  function After(e: Enrichment, w: Option<Write>): Enrichment {
    if w.Some? then Apply(e, ToUpdate(w.value)) else e
  }

  lemma AnnotateOnRow(db: Db, cfg: Config, x: Item, id: nat)
    requires Key(cfg, x.row) in db.txns && id in db.enr
    ensures var after := Annotate(db, cfg, x.row, x.faults);
            && after.enr.Keys == db.enr.Keys
            && after.enr[id] == After(db.enr[id],
                 if db.txns[Key(cfg, x.row)].id == id then AnswerWrite(cfg, x) else None)
  {
  }

  /** A step changes an existing row by exactly its write. */
  lemma StepOnRow(db: Db, s: Step, id: nat)
    requires Wf(db) && id in db.enr
    ensures id in Perform(db, s).enr && Perform(db, s).enr[id] == After(db.enr[id], WriteOn(db, s, id))
  {
    if s.Imported? {
      if Key(s.cfg, s.item.row) in db.txns {
        AnnotateOnRow(db, s.cfg, s.item, id);
      } else {
        AnnotateOnRow(WithBlank(Stored(db, s.cfg, s.item.row), db.nextId), s.cfg, s.item, id);
      }
    } else if s.EnrichedLater? && Key(s.cfg, s.item.row) in db.txns {
      AnnotateOnRow(db, s.cfg, s.item, id);
    }
  }

  /** A row that appears is blank, but for what its own import writes at once. */
  lemma NewRowIsBlank(db: Db, s: Step, id: nat)
    requires Wf(db) && id !in db.enr && id in Perform(db, s).enr
    ensures id == db.nextId && s.Imported? && Perform(db, s).enr[id] == After(BLANK, WriteOn(db, s, id))
  {
    if s.Imported? && Key(s.cfg, s.item.row) !in db.txns {
      var stored := WithBlank(Stored(db, s.cfg, s.item.row), db.nextId);
      if db.nextId in stored.enr {
        AnnotateOnRow(stored, s.cfg, s.item, db.nextId);
      }
    }
  }

  /** A manual edit sets the category and the notes it gives, tags the row `manual`, and touches nothing else; a missing
      row is not made. */
  lemma EditStores(db: Db, s: Step)
    requires s.Edited?
    ensures var db' := Perform(db, s);
            && db' == db.(enr := db'.enr) && db'.enr.Keys == db.enr.Keys
            && (forall k | k in db.enr && (k != s.id || s.fault) :: db'.enr[k] == db.enr[k])
            && (s.id in db.enr && !s.fault ==>
                  var was, now := db.enr[s.id], db'.enr[s.id];
                  && now.status == Manual && now.normalized == was.normalized
                  && now.category == (if s.category.Some? then s.category else was.category)
                  && now.notes == (if s.notes.Some? then s.notes else was.notes))
  {
  }

  lemma StepWf(db: Db, s: Step)
    requires Wf(db)
    ensures Wf(Perform(db, s))
  {
    if s.Imported? {
      ImportTheorems.RowWf(db, s.cfg, s.item);
    } else if s.EnrichedLater? && Key(s.cfg, s.item.row) in db.txns {
      ImportTheorems.AnnotateKeeps(db, s.cfg, s.item.row, s.item.faults);
    }
  }

  ghost predicate IsHistory(trace: seq<Db>, steps: seq<Step>) {
    && |trace| == |steps| + 1 && Wf(trace[0])
    && forall i | 0 <= i < |steps| :: trace[i + 1] == Perform(trace[i], steps[i])
  }

  lemma {:induction false} HistoryWf(trace: seq<Db>, steps: seq<Step>, i: nat)
    requires IsHistory(trace, steps) && i < |trace|
    ensures Wf(trace[i])
  {
    if i > 0 {
      HistoryWf(trace, steps, i - 1);
      StepWf(trace[i - 1], steps[i - 1]);
    }
  }

  function Events(w: Option<Write>, id: nat): seq<Event> { if w.Some? then [Event(id, w.value)] else [] }

  /** The writes the row of `id` sees from state `i` to state `j`. */
  function Writes(trace: seq<Db>, steps: seq<Step>, id: nat, i: nat, j: nat): seq<Event>
    requires |trace| == |steps| + 1 && i <= j <= |steps|
    decreases j
  {
    if i == j then [] else Writes(trace, steps, id, i, j - 1) + Events(WriteOn(trace[j - 1], steps[j - 1], id), id)
  }

  lemma ReplayOne(start: map<nat, Enrichment>, events: seq<Event>, w: Option<Write>, id: nat)
    requires id in start
    ensures id in Replay(start, events) && id in Replay(start, events + Events(w, id))
    ensures Replay(start, events + Events(w, id))[id] == After(Replay(start, events)[id], w)
  {
    ReplayKeys(start, events);
    ReplayKeys(start, events + Events(w, id));
    if w.Some? {
      var more := events + [Event(id, w.value)];
      assert more[..|more| - 1] == events;
    } else {
      assert events + [] == events;
    }
  }

  ghost predicate Reads(db: Db, table: map<nat, Enrichment>, id: nat) {
    id in db.enr && id in table && db.enr[id] == table[id]
  }

  lemma StepReads(db: Db, s: Step, start: map<nat, Enrichment>, events: seq<Event>, id: nat)
    requires Wf(db) && id in start && Reads(db, Replay(start, events), id)
    ensures Reads(Perform(db, s), Replay(start, events + Events(WriteOn(db, s, id), id)), id)
  {
    StepOnRow(db, s, id);
    ReplayOne(start, events, WriteOn(db, s, id), id);
  }

  /** In every history an enrichment row, once there, is its state at any earlier point with the writes since
      replayed. */
  lemma {:induction false} HistoryIsReplay(trace: seq<Db>, steps: seq<Step>, id: nat, i: nat, j: nat)
    requires IsHistory(trace, steps) && i <= j < |trace| && id in trace[i].enr
    ensures Reads(trace[j], Replay(map[id := trace[i].enr[id]], Writes(trace, steps, id, i, j)), id)
    decreases j
  {
    if i < j {
      HistoryIsReplay(trace, steps, id, i, j - 1);
      HistoryWf(trace, steps, j - 1);
      StepReads(trace[j - 1], steps[j - 1], map[id := trace[i].enr[id]], Writes(trace, steps, id, i, j - 1), id);
    }
  }

  /** Hence in every history each column holds the last value written since any earlier point, or its value there;
      nothing is cleared, and the status never returns to pending. */
  lemma HistoryHoldsLastWrites(trace: seq<Db>, steps: seq<Step>, id: nat, i: nat, j: nat)
    requires IsHistory(trace, steps) && i <= j < |trace| && id in trace[i].enr
    ensures id in trace[j].enr
    ensures var start, events := map[id := trace[i].enr[id]], Writes(trace, steps, id, i, j);
            && Replay(start, events).Keys == start.Keys && trace[j].enr[id] == Replay(start, events)[id]
            && HoldsLastWrite(start, events, id, (u: Update) => u.normalized, (e: Enrichment) => e.normalized)
            && HoldsLastWrite(start, events, id, (u: Update) => u.category, (e: Enrichment) => e.category)
            && HoldsLastWrite(start, events, id, (u: Update) => u.notes, (e: Enrichment) => e.notes)
            && HoldsLastWrite(start, events, id, (u: Update) => u.status, (e: Enrichment) => Some(e.status))
    ensures var before, after := trace[i].enr[id], trace[j].enr[id];
            && (before.category.Some? ==> after.category.Some?)
            && (before.notes.Some? ==> after.notes.Some?)
            && (before.normalized.Some? ==> after.normalized.Some?)
            && (before.status != Pending ==> after.status != Pending)
  {
    var start, events := map[id := trace[i].enr[id]], Writes(trace, steps, id, i, j);
    HistoryIsReplay(trace, steps, id, i, j);
    EveryColumnHoldsLastWrite(start, events, id);
    NothingCleared(start, events, id);
  }

  // ----- which transactions have a row -----

  lemma StepAddsNoRow(db: Db, s: Step, id: nat)
    requires Wf(db) && id < db.nextId && id !in db.enr
    ensures id !in Perform(db, s).enr && id < Perform(db, s).nextId
  {
    if id in Perform(db, s).enr {
      NewRowIsBlank(db, s, id);
    }
  }

  lemma {:induction false} NeverAppears(trace: seq<Db>, steps: seq<Step>, id: nat, i: nat, j: nat)
    requires IsHistory(trace, steps) && i <= j < |trace| && id < trace[i].nextId && id !in trace[i].enr
    ensures id !in trace[j].enr && id < trace[j].nextId
    decreases j
  {
    if i < j {
      NeverAppears(trace, steps, id, i, j - 1);
      HistoryWf(trace, steps, j - 1);
      StepAddsNoRow(trace[j - 1], steps[j - 1], id);
    }
  }

  /** The step that stores a transaction decides for good whether it has an enrichment row: exactly when the second
      statement of its insert succeeded.  No later import, background pass or edit creates a missing row or drops
      one. */
  lemma RowForeverIff(trace: seq<Db>, steps: seq<Step>, k: string, i: nat, j: nat)
    requires IsHistory(trace, steps) && i < j < |trace|
    requires k !in trace[i].txns && k in trace[i + 1].txns
    ensures steps[i].Imported?
    ensures trace[i + 1].txns[k].id in trace[j].enr <==> !steps[i].item.faults.blank
  {
    var db, s := trace[i], steps[i];
    HistoryWf(trace, steps, i);
    HistoryWf(trace, steps, i + 1);
    ImportTheorems.RowTxns(db, s.cfg, s.item);
    ImportTheorems.BlankRowIff(db, s.cfg, s.item);
    var id := trace[i + 1].txns[k].id;
    if id in trace[i + 1].enr {
      HistoryIsReplay(trace, steps, id, i + 1, j);
    } else {
      NeverAppears(trace, steps, id, i + 1, j);
    }
  }
}
