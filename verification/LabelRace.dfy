/**
  Overlapping calls of label creation: the lookup and the insert (internal/store/label_store.go:81-96) are separate
  statements, so other calls may create the label in between.
 */
module LabelRace {
  import opened Common
  import opened Slug

  /** The labels, and calls that found no label and have not inserted one yet. */
  datatype State = State(db: LabelDb, pending: map<nat, LabelCall>)

  datatype Move = Look(slot: nat, call: LabelCall) | Insert(slot: nat)

  predicate Enabled(s: State, m: Move) { m.Insert? <==> m.slot in s.pending }

  /** The label table is unique by slug, so the insert of a slug that has appeared is refused. */
  function Inserted(a: Alphabet, db: LabelDb, c: LabelCall): (LabelDb, Lookup) {
    var slug := Slugify(a, c.name);
    if c.insertFails || slug in db.labels then (db, StoreError)
    else (LabelDb(db.labels[slug := Label(db.nextId, c.user, c.name)], db.nextId + 1), Found(db.nextId))
  }

  /** The lookup leaves the call waiting to insert. */
  predicate Misses(a: Alphabet, db: LabelDb, c: LabelCall) {
    !c.lookupFails && Slugify(a, c.name) !in db.labels
  }

  function Step(a: Alphabet, s: State, m: Move): State
    requires Enabled(s, m)
  {
    match m
    case Look(slot, c) => if Misses(a, s.db, c) then s.(pending := s.pending[slot := c]) else s
    case Insert(slot) => State(Inserted(a, s.db, s.pending[slot]).0, s.pending - {slot})
  }

  /** The call that replies with this move, if one does, and its reply. */
  function Replies(a: Alphabet, s: State, m: Move): Option<(LabelCall, Lookup)>
    requires Enabled(s, m)
  {
    match m
    case Look(_, c) =>
      if Misses(a, s.db, c) then None
      else if c.lookupFails then Some((c, StoreError))
      else Some((c, Found(s.db.labels[Slugify(a, c.name)].id)))
    case Insert(slot) => Some((s.pending[slot], Inserted(a, s.db, s.pending[slot]).1))
  }

  /** A call that nothing comes between is a whole call: it replies at the lookup if it finds a label or fails, and
      otherwise at the insert. */
  lemma AloneIsCall(a: Alphabet, s: State, slot: nat, c: LabelCall)
    requires slot !in s.pending
    ensures var look := Look(slot, c);
            var s' := Step(a, s, look);
            if Replies(a, s, look).Some? then
              s'.pending == s.pending && (s'.db, Replies(a, s, look).value.1) == Called(a, s.db, c)
            else
              && Enabled(s', Insert(slot)) && Replies(a, s', Insert(slot)).Some?
              && var s'' := Step(a, s', Insert(slot));
                 && s''.pending == s.pending
                 && (s''.db, Replies(a, s', Insert(slot)).value.1) == Called(a, s.db, c)
  {
  }

  ghost predicate IsRace(a: Alphabet, trace: seq<State>, moves: seq<Move>) {
    && |trace| == |moves| + 1 && trace[0] == State(LabelDb(map[], 0), map[])
    && forall i | 0 <= i < |moves| :: Enabled(trace[i], moves[i]) && trace[i + 1] == Step(a, trace[i], moves[i])
  }

  lemma {:induction false} RaceLabelsOk(a: Alphabet, trace: seq<State>, moves: seq<Move>, i: nat)
    requires IsRace(a, trace, moves) && i < |trace|
    ensures LabelsOk(trace[i].db)
  {
    if i > 0 {
      RaceLabelsOk(a, trace, moves, i - 1);
    }
  }

  /** Labels are never changed or dropped. */
  lemma {:induction false} LabelsStay(a: Alphabet, trace: seq<State>, moves: seq<Move>, slug: string, i: nat, j: nat)
    requires IsRace(a, trace, moves) && i <= j < |trace| && slug in trace[i].db.labels
    ensures slug in trace[j].db.labels && trace[j].db.labels[slug] == trace[i].db.labels[slug]
    decreases j
  {
    if i < j {
      LabelsStay(a, trace, moves, slug, i, j - 1);
    }
  }

  /** The `i`-th move replies with a label for this name. */
  ghost predicate Gives(a: Alphabet, trace: seq<State>, moves: seq<Move>, i: nat, name: string, id: nat)
    requires IsRace(a, trace, moves) && i < |moves|
  {
    var r := Replies(a, trace[i], moves[i]);
    r.Some? && r.value.0.name == name && r.value.1 == Found(id)
  }

  lemma GivenIsStored(a: Alphabet, trace: seq<State>, moves: seq<Move>, i: nat, name: string, id: nat)
    requires IsRace(a, trace, moves) && i < |moves| && Gives(a, trace, moves, i, name, id)
    ensures Slugify(a, name) in trace[i + 1].db.labels && trace[i + 1].db.labels[Slugify(a, name)].id == id
  {
  }

  /** However calls overlap, two successful ones return the same label exactly when their names have the same slug. */
  lemma RaceSameLabelIff(a: Alphabet, trace: seq<State>, moves: seq<Move>, i: nat, j: nat,
                         name1: string, id1: nat, name2: string, id2: nat)
    requires IsRace(a, trace, moves) && i < j < |moves|
    requires Gives(a, trace, moves, i, name1, id1) && Gives(a, trace, moves, j, name2, id2)
    ensures id1 == id2 <==> Slugify(a, name1) == Slugify(a, name2)
  {
    GivenIsStored(a, trace, moves, i, name1, id1);
    GivenIsStored(a, trace, moves, j, name2, id2);
    LabelsStay(a, trace, moves, Slugify(a, name1), i + 1, j + 1);
    RaceLabelsOk(a, trace, moves, j + 1);
  }

  /** The `k`-th move creates the label of this slug. */
  ghost predicate CreatesAt(a: Alphabet, trace: seq<State>, moves: seq<Move>, k: nat, slug: string)
    requires IsRace(a, trace, moves) && k < |moves|
  {
    && moves[k].Insert?
    && var c := trace[k].pending[moves[k].slot];
       Slugify(a, c.name) == slug && Inserted(a, trace[k].db, c).1.Found?
  }

  lemma {:induction false} AppearsByInsert(a: Alphabet, trace: seq<State>, moves: seq<Move>, slug: string,
                                           i: nat, j: nat)
    requires IsRace(a, trace, moves) && i <= j < |trace| && slug !in trace[i].db.labels
    ensures slug in trace[j].db.labels <==> exists k :: i <= k < j && CreatesAt(a, trace, moves, k, slug)
    decreases j
  {
    if i < j {
      AppearsByInsert(a, trace, moves, slug, i, j - 1);
      if CreatesAt(a, trace, moves, j - 1, slug) {
        assert slug in trace[j].db.labels;
      }
    }
  }

  /** A call that found no label at move `i` and inserts at move `j` fails, although no statement of the database did,
      exactly when another call created the label in between; the label then exists and the same call would find it. */
  lemma InsertClashIff(a: Alphabet, trace: seq<State>, moves: seq<Move>, i: nat, j: nat)
    requires IsRace(a, trace, moves) && i < j < |moves|
    requires moves[i].Look? && Misses(a, trace[i].db, moves[i].call)
    requires moves[j].Insert? && trace[j].pending[moves[j].slot] == moves[i].call && !moves[i].call.insertFails
    ensures var c := moves[i].call;
            var slug := Slugify(a, c.name);
            && (Replies(a, trace[j], moves[j]) == Some((c, StoreError))
                <==> exists k :: i <= k < j && CreatesAt(a, trace, moves, k, slug))
            && (Replies(a, trace[j], moves[j]) == Some((c, StoreError)) ==>
                  slug in trace[j + 1].db.labels
                  && Called(a, trace[j + 1].db, c) == (trace[j + 1].db, Found(trace[j + 1].db.labels[slug].id)))
  {
    AppearsByInsert(a, trace, moves, Slugify(a, moves[i].call.name), i, j);
  }
}
