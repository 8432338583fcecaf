/** The enrichment table and its COALESCE update (internal/sqlc/transactions.sql.go). */
module Enrichment {
  import opened Common

  datatype Tag = Pending | Auto | Manual

  /** The columns the application writes. */
  datatype Enrichment = Enrichment(normalized: Option<string>, category: Option<nat>, notes: Option<string>,
                                   status: Tag)

  const BLANK := Enrichment(None, None, None, Pending)

  /** None leaves the column alone. */
  datatype Update = Update(normalized: Option<string>, category: Option<nat>, notes: Option<string>,
                           status: Option<Tag>)

  function Coalesce<T>(x: Option<T>, y: Option<T>): Option<T> { if x.Some? then x else y }

  function Apply(e: Enrichment, u: Update): Enrichment {
    Enrichment(Coalesce(u.normalized, e.normalized), Coalesce(u.category, e.category), Coalesce(u.notes, e.notes),
               if u.status.Some? then u.status.value else e.status)
  }

  /** UPDATE ... WHERE transaction_id = id: no row, no effect, no error. */
  function UpdateRow(table: map<nat, Enrichment>, id: nat, u: Update): map<nat, Enrichment> {
    if id in table then table[id := Apply(table[id], u)] else table
  }

  // ----- who writes what -----

  /** The importer never writes notes; a manual edit never writes the normalised description. Both always tag. */
  datatype Write = FromImport(normalized: Option<string>, category: Option<nat>)
                 | FromUser(category: Option<nat>, notes: Option<string>)

  function ToUpdate(w: Write): Update {
    match w
    case FromImport(n, c) => Update(n, c, None, Some(Auto))
    case FromUser(c, n) => Update(None, c, n, Some(Manual))
  }

  /** A history: writes to any transactions, in the order the database applies them. */
  datatype Event = Event(id: nat, write: Write)

  function Replay(table: map<nat, Enrichment>, events: seq<Event>): map<nat, Enrichment> {
    if events == [] then table
    else
      var last := events[|events| - 1];
      UpdateRow(Replay(table, events[..|events| - 1]), last.id, ToUpdate(last.write))
  }

  lemma {:induction false} ReplayKeys(table: map<nat, Enrichment>, events: seq<Event>)
    ensures Replay(table, events).Keys == table.Keys
  {
    if events != [] {
      ReplayKeys(table, events[..|events| - 1]);
    }
  }

  /** `i` is the last event that writes a value picked by `field` to transaction `id`. */
  ghost predicate LastWrite<T>(events: seq<Event>, id: nat, field: Update -> Option<T>, i: nat) {
    && i < |events| && events[i].id == id && field(ToUpdate(events[i].write)).Some?
    && forall j | i < j < |events| && events[j].id == id :: field(ToUpdate(events[j].write)).None?
  }

  ghost predicate NeverWritten<T>(events: seq<Event>, id: nat, field: Update -> Option<T>) {
    forall j | 0 <= j < |events| && events[j].id == id :: field(ToUpdate(events[j].write)).None?
  }

  /** A column holds the last value written to it, or its first value if none was: `column` reads the column,
      `field` the matching part of an update. */
  ghost predicate HoldsLastWrite<T(!new)>(start: map<nat, Enrichment>, events: seq<Event>, id: nat,
                                          field: Update -> Option<T>, column: Enrichment -> Option<T>)
    requires id in start && Replay(start, events).Keys == start.Keys
  {
    && (NeverWritten(events, id, field) ==> column(Replay(start, events)[id]) == column(start[id]))
    && (forall i: nat | LastWrite(events, id, field, i) ::
          column(Replay(start, events)[id]) == field(ToUpdate(events[i].write)))
  }

  lemma {:induction false} ColumnHoldsLastWrite<T(!new)>(start: map<nat, Enrichment>, events: seq<Event>, id: nat,
                                        field: Update -> Option<T>, column: Enrichment -> Option<T>)
    requires id in start
    requires forall e, u :: column(Apply(e, u)) == Coalesce(field(u), column(e))
    ensures Replay(start, events).Keys == start.Keys
    ensures HoldsLastWrite(start, events, id, field, column)
  {
    ReplayKeys(start, events);
    if events != [] {
      var n := |events| - 1;
      var init := events[..n];
      ColumnHoldsLastWrite(start, init, id, field, column);
      forall i: nat | LastWrite(events, id, field, i)
        ensures column(Replay(start, events)[id]) == field(ToUpdate(events[i].write))
      {
        if i < n {
          assert LastWrite(init, id, field, i);
        }
      }
      assert NeverWritten(events, id, field) ==> NeverWritten(init, id, field);
    }
  }

  /** In every interleaving of imports and manual edits, each column equals the last value written to it. */
  lemma EveryColumnHoldsLastWrite(start: map<nat, Enrichment>, events: seq<Event>, id: nat)
    requires id in start
    ensures Replay(start, events).Keys == start.Keys
    ensures HoldsLastWrite(start, events, id, (u: Update) => u.normalized, (e: Enrichment) => e.normalized)
    ensures HoldsLastWrite(start, events, id, (u: Update) => u.category, (e: Enrichment) => e.category)
    ensures HoldsLastWrite(start, events, id, (u: Update) => u.notes, (e: Enrichment) => e.notes)
    ensures HoldsLastWrite(start, events, id, (u: Update) => u.status, (e: Enrichment) => Some(e.status))
  {
    ColumnHoldsLastWrite(start, events, id, (u: Update) => u.normalized, (e: Enrichment) => e.normalized);
    ColumnHoldsLastWrite(start, events, id, (u: Update) => u.category, (e: Enrichment) => e.category);
    ColumnHoldsLastWrite(start, events, id, (u: Update) => u.notes, (e: Enrichment) => e.notes);
    ColumnHoldsLastWrite(start, events, id, (u: Update) => u.status, (e: Enrichment) => Some(e.status));
  }

  /** Nothing is ever cleared and no row goes back to pending; only a user's edit changes the notes. */
  lemma {:induction false} NothingCleared(start: map<nat, Enrichment>, events: seq<Event>, id: nat)
    requires id in start
    ensures Replay(start, events).Keys == start.Keys
    ensures var before, after := start[id], Replay(start, events)[id];
            && (before.category.Some? ==> after.category.Some?)
            && (before.notes.Some? ==> after.notes.Some?)
            && (before.normalized.Some? ==> after.normalized.Some?)
            && (before.status != Pending ==> after.status != Pending)
            && ((forall i | 0 <= i < |events| && events[i].id == id :: events[i].write.FromImport?) ==>
                  after.notes == before.notes)
  {
    ReplayKeys(start, events);
    if events != [] {
      NothingCleared(start, events[..|events| - 1], id);
    }
  }

  /** A manual tag is not final: after a history that touched the row, it reads `manual` exactly when a user wrote
      last. */
  lemma ManualIffUserWroteLast(start: map<nat, Enrichment>, events: seq<Event>, id: nat, i: nat)
    requires id in start && i < |events| && events[i].id == id
    requires forall j | i < j < |events| :: events[j].id != id
    ensures Replay(start, events).Keys == start.Keys
    ensures Replay(start, events)[id].status == Manual <==> events[i].write.FromUser?
  {
    EveryColumnHoldsLastWrite(start, events, id);
    assert LastWrite(events, id, (u: Update) => u.status, i);
  }

  /** An edit and then an import: the tag reads `auto`. */
  lemma ImportOverwritesManual()
    ensures var events := [Event(0, FromUser(None, None)), Event(0, FromImport(None, None))];
            0 in Replay(map[0 := BLANK], events) && Replay(map[0 := BLANK], events)[0].status == Auto
  {
    var events := [Event(0, FromUser(None, None)), Event(0, FromImport(None, None))];
    ManualIffUserWroteLast(map[0 := BLANK], events, 0, 1);
    assert events[..1] == [events[0]] && [events[0]][..0] == [];
  }
}
