/**
  Renewal when calls overlap: the tool reads the old deposit before the store opens its transaction
  (internal/tools/manage_fd.go:243-277), so any calls may happen in between and the new term is computed from a
  stale row.
 */
module FdInterleaving {
  import opened Common
  import opened Calendar
  import opened FixedDeposit
  import opened FdLifecycle
  import Money

  /** A renewal that has read `row` and not yet written. */
  datatype Pending = Pending(call: Call, row: FD)

  datatype State = State(db: Db, pending: map<nat, Pending>)

  /** One whole call, or one half of a renewal in some slot. */
  datatype Move = Whole(call: Call) | Read(slot: nat, call: Call) | Write(slot: nat)

  function Caller(c: Call): User { OrElse(c.args.user, c.user) }

  predicate Enabled(s: State, m: Move) {
    match m
    case Whole(_) => DatesOk(s.db)
    case Read(slot, c) => slot !in s.pending && c.args.action == "mark_renewed"
    case Write(slot) =>
      && slot in s.pending && RenewArgsOk(s.pending[slot].call.args) && Valid(s.pending[slot].row.maturity)
  }

  /** The second half: the transaction, with the term computed from the row read before. */
  function Written(db: Db, p: Pending): (Db, Reply)
    requires RenewArgsOk(p.call.args) && Valid(p.row.maturity)
  {
    var a := p.call.args;
    RenewedFD(db, a.fdId.value, Money.FromRupees(a.paidOut), NextTerm(p.row, a), p.call.faults)
  }

  /** The first half succeeds: the arguments are in order and the deposit is found. */
  predicate Found(db: Db, c: Call) {
    RenewArgsOk(c.args) && !c.faults.get && Owns(db, c.args.fdId.value, Caller(c))
  }

  function Step(s: State, m: Move): State
    requires Enabled(s, m)
  {
    match m
    case Whole(c) => s.(db := Execute(s.db, c.user, c.args, c.faults).0)
    case Read(slot, c) =>
      if Found(s.db, c)
      then s.(pending := s.pending[slot := Pending(c, s.db.fds[c.args.fdId.value])])
      else s
    case Write(slot) => State(Written(s.db, s.pending[slot]).0, s.pending - {slot})
  }

  /** The row read is still the deposit's, but for status and payout. */
  ghost predicate PendingOk(db: Db, p: Pending) {
    && p.call.args.action == "mark_renewed" && RenewArgsOk(p.call.args) && !p.call.faults.get
    && Owns(db, p.call.args.fdId.value, Caller(p.call))
    && var row := db.fds[p.call.args.fdId.value];
    && Valid(row.maturity) && row == p.row.(status := row.status, paidOut := row.paidOut)
  }

  ghost predicate AllOk(s: State) {
    Inv(s.db) && forall slot | slot in s.pending :: PendingOk(s.db, s.pending[slot])
  }

  /** The stale read does no harm: the second half does, and replies, exactly what the whole call would do now. */
  lemma WriteIsWholeCall(db: Db, p: Pending)
    requires Inv(db) && DatesOk(db) && PendingOk(db, p)
    ensures Written(db, p) == Execute(db, p.call.user, p.call.args, p.call.faults)
  {
    assert NextTerm(p.row, p.call.args) == NextTerm(db.fds[p.call.args.fdId.value], p.call.args);
  }

  lemma FrozenKeepsPending(before: Db, after: Db, p: Pending)
    requires Frozen(before, after) && PendingOk(before, p)
    ensures PendingOk(after, p)
  {
  }

  /** Every move of every interleaving leaves the deposits alone or is one whole call. */
  lemma StepIsCall(s: State, m: Move)
    requires AllOk(s) && Enabled(s, m)
    ensures DatesOk(s.db) && AllOk(Step(s, m)) && Frozen(s.db, Step(s, m).db)
    ensures match m
            case Whole(c) => Step(s, m).db == Execute(s.db, c.user, c.args, c.faults).0
            case Read(_, _) => Step(s, m).db == s.db
            case Write(slot) =>
              var c := s.pending[slot].call;
              Step(s, m).db == Execute(s.db, c.user, c.args, c.faults).0
  {
    InvDates(s.db);
    var db' := Step(s, m).db;
    match m {
      case Whole(c) => ExecuteKeeps(s.db, c.user, c.args, c.faults);
      case Read(_, _) =>
      case Write(slot) =>
        WriteIsWholeCall(s.db, s.pending[slot]);
        var c := s.pending[slot].call;
        ExecuteKeeps(s.db, c.user, c.args, c.faults);
    }
    forall slot | slot in Step(s, m).pending && slot in s.pending && Step(s, m).pending[slot] == s.pending[slot]
      ensures PendingOk(db', s.pending[slot])
    {
      FrozenKeepsPending(s.db, db', s.pending[slot]);
    }
  }

  /** An interleaving of any calls and half-done renewals of any users, from tables without deposits. */
  ghost predicate IsInterleaving(trace: seq<State>, moves: seq<Move>) {
    && |trace| == |moves| + 1
    && trace[0].db.fds == map[] && trace[0].pending == map[] && Inv(trace[0].db)
    && forall i | 0 <= i < |moves| :: Enabled(trace[i], moves[i]) && trace[i + 1] == Step(trace[i], moves[i])
  }

  lemma {:induction false} InterleavingKeeps(trace: seq<State>, moves: seq<Move>, i: nat)
    requires IsInterleaving(trace, moves) && i < |trace|
    ensures AllOk(trace[i])
  {
    if i > 0 {
      InterleavingKeeps(trace, moves, i - 1);
      StepIsCall(trace[i - 1], moves[i - 1]);
    }
  }

  /** A call that has replied. */
  datatype Completed = Completed(call: Call, reply: Reply)

  /** The call a move completes, with its reply: a whole call, a renewal that fails to find its deposit, or one that
      has been written. */
  function Completes(s: State, m: Move): seq<Completed>
    requires Enabled(s, m)
  {
    match m
    case Whole(c) => [Completed(c, Execute(s.db, c.user, c.args, c.faults).1)]
    case Read(_, c) => if Found(s.db, c) then [] else [Completed(c, Error("renew"))]
    case Write(slot) => [Completed(s.pending[slot].call, Written(s.db, s.pending[slot]).1)]
  }

  /** The calls the first `i` moves have completed, in the order in which they replied. */
  function History(trace: seq<State>, moves: seq<Move>, i: nat): seq<Completed>
    requires |trace| == |moves| + 1 && i <= |moves|
    requires forall k | 0 <= k < |moves| :: Enabled(trace[k], moves[k])
  {
    if i == 0 then [] else History(trace, moves, i - 1) + Completes(trace[i - 1], moves[i - 1])
  }

  function Calls(h: seq<Completed>): seq<Call> {
    seq(|h|, k requires 0 <= k < |h| => h[k].call)
  }

  /** Run one after the other on `dbs[0]`, the calls pass through `dbs` and reply as the history says. */
  ghost predicate Explains(dbs: seq<Db>, h: seq<Completed>) {
    && IsRun(dbs, Calls(h))
    && forall k | 0 <= k < |h| ::
         DatesOk(dbs[k]) && h[k].reply == Execute(dbs[k], h[k].call.user, h[k].call.args, h[k].call.faults).1
  }

  /** A move that completes a call does to the deposits, and replies, exactly what the call would in one piece. */
  lemma CompletesIsCall(s: State, m: Move)
    requires AllOk(s) && Enabled(s, m)
    ensures DatesOk(s.db)
    ensures var cs, db' := Completes(s, m), Step(s, m).db;
            if cs == [] then db' == s.db
            else |cs| == 1 && (db', cs[0].reply)
                   == Execute(s.db, cs[0].call.user, cs[0].call.args, cs[0].call.faults)
  {
    InvDates(s.db);
    if m.Write? {
      WriteIsWholeCall(s.db, s.pending[m.slot]);
    }
  }

  lemma ExtendCalls(dbs: seq<Db>, calls: seq<Call>, c: Call, db': Db)
    requires IsRun(dbs, calls) && DatesOk(dbs[|calls|])
    requires db' == Execute(dbs[|calls|], c.user, c.args, c.faults).0
    ensures IsRun(dbs + [db'], calls + [c])
  {
  }

  lemma ExtendRun(dbs: seq<Db>, h: seq<Completed>, x: Completed, db': Db)
    requires Explains(dbs, h) && DatesOk(dbs[|h|])
    requires (db', x.reply) == Execute(dbs[|h|], x.call.user, x.call.args, x.call.faults)
    ensures Explains(dbs + [db'], h + [x])
  {
    ExtendCalls(dbs, Calls(h), x.call, db');
    assert Calls(h + [x]) == Calls(h) + [x.call];
    forall k | 0 <= k < |h + [x]|
      ensures DatesOk((dbs + [db'])[k])
      ensures var y := (h + [x])[k];
              y.reply == Execute((dbs + [db'])[k], y.call.user, y.call.args, y.call.faults).1
    {
      assert (dbs + [db'])[k] == dbs[k];
    }
  }

  /** The history leads from `start` to `end`. */
  ghost predicate Leads(dbs: seq<Db>, h: seq<Completed>, start: Db, end: Db) {
    Explains(dbs, h) && dbs[0] == start && dbs[|h|] == end
  }

  lemma StepLeads(dbs: seq<Db>, h: seq<Completed>, start: Db, s: State, m: Move) returns (more: seq<Db>)
    requires Leads(dbs, h, start, s.db) && AllOk(s) && Enabled(s, m)
    ensures Leads(more, h + Completes(s, m), start, Step(s, m).db)
  {
    var cs, db' := Completes(s, m), Step(s, m).db;
    CompletesIsCall(s, m);
    if cs == [] {
      more := dbs;
      assert h + cs == h;
    } else {
      ExtendRun(dbs, h, cs[0], db');
      more := dbs + [db'];
      assert cs == [cs[0]];
    }
  }

  /** Overlapping calls are linearizable: the calls an interleaving has completed, run one after the other in the order
      in which they replied, give the same replies and the same deposits.  Each takes effect at its own last move, so
      calls that do not overlap keep their order, and everything proved of runs holds of interleavings. */
  lemma {:induction false} InterleavingIsRun(trace: seq<State>, moves: seq<Move>, i: nat) returns (dbs: seq<Db>)
    requires IsInterleaving(trace, moves) && i < |trace|
    ensures Leads(dbs, History(trace, moves, i), trace[0].db, trace[i].db)
  {
    if i == 0 {
      dbs := [trace[0].db];
    } else {
      dbs := InterleavingIsRun(trace, moves, i - 1);
      InterleavingKeeps(trace, moves, i - 1);
      dbs := StepLeads(dbs, History(trace, moves, i - 1), trace[0].db, trace[i - 1], moves[i - 1]);
    }
  }
}
