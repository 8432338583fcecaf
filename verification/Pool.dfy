/**
  The per-user agent cache (internal/agent/pool.go) under arbitrary interleaving.

  Each goroutine performs one `get` for one user.  A goroutine is a program counter over the shared
  state: the `entries` map, the read-write lock and the singleflight table.  Every arrow of `Step` is one
  atomic action; a read made while holding the read lock is joined with the unlock that follows it.
  The lock has the rules of Go's RWMutex: a writer first announces itself, which keeps new readers out,
  and then waits for the readers that are inside.  singleflight has the rules of its library: the second
  caller of a key joins the running call, and when the function returns, the key is removed and the
  result is handed to all who joined, in one step.
 */
module Pool {
  import opened Common

  type User = string

  /** A cached agent.  `builder` is the goroutine whose factory call allocated it: object identity. */
  datatype Entry = Entry(builder: nat, uid: string)

  datatype Outcome = Ok(entry: Entry) | Failed(reason: string)

  /** What the factory returns when the environment lets it return. */
  datatype Answer = Built(uid: string) | Refused(reason: string)

  datatype Pc =
    | Start                       // before the fast-path read lock
    | FastRead                    // holding the read lock of the fast path
    | Missed                      // not cached; about to enter singleflight
    | Recheck                     // leads a flight; before the second read lock
    | RecheckRead                 // leads a flight; holding the second read lock
    | Building                    // leads a flight; the factory is running
    | WantLock(made: Entry)       // leads a flight; before the write lock
    | Pending(made: Entry)        // announced as writer, waiting for readers to leave
    | Writing(made: Entry)        // holding the write lock
    | FnDone(ret: Outcome)        // the flight's function has returned
    | Waiting(leader: nat)        // joined the flight led by `leader`
    | Done(result: Outcome)

  /** `built` logs the successful factory calls, `failures` the failed ones, `joined` who joined which flight. */
  datatype State = State(
    users: seq<User>,
    pcs: seq<Pc>,
    entries: map<User, Entry>,
    readers: set<nat>,
    writer: Option<nat>,
    flights: map<User, nat>,
    results: map<nat, Outcome>,
    joined: map<nat, nat>,
    built: seq<(User, Entry)>,
    failures: set<(nat, string)>)

  function Init(users: seq<User>): State {
    State(users, seq(|users|, _ => Start), map[], {}, None, map[], map[], map[], [], {})
  }

  predicate Reads(pc: Pc) { pc.FastRead? || pc.RecheckRead? }

  predicate Locks(pc: Pc) { pc.Pending? || pc.Writing? }

  predicate Carries(pc: Pc) { pc.WantLock? || pc.Pending? || pc.Writing? }

  predicate Leads(pc: Pc) {
    pc.Recheck? || pc.RecheckRead? || pc.Building? || Carries(pc) || pc.FnDone?
  }

  predicate Enabled(s: State, t: nat) {
    && t < |s.pcs|
    && match s.pcs[t]
       case Start => s.writer.None?
       case Recheck => s.writer.None?
       case WantLock(_) => s.writer.None?
       case Pending(_) => s.readers == {}
       case Waiting(l) => l in s.results
       case Done(_) => false
       case _ => true
  }

  /** Where goroutine `t` goes next; `answer` is used only when it is in the factory. */
  function NextPc(s: State, t: nat, answer: Answer): Pc
    requires |s.users| == |s.pcs| && Enabled(s, t)
  {
    var u := s.users[t];
    match s.pcs[t]
    case Start => FastRead
    case FastRead => if u in s.entries then Done(Ok(s.entries[u])) else Missed
    case Missed => if u in s.flights then Waiting(s.flights[u]) else Recheck
    case Recheck => RecheckRead
    case RecheckRead => if u in s.entries then FnDone(Ok(s.entries[u])) else Building
    case Building => if answer.Built? then WantLock(Entry(t, answer.uid)) else FnDone(Failed(answer.reason))
    case WantLock(e) => Pending(e)
    case Pending(e) => Writing(e)
    case Writing(e) => FnDone(Ok(e))
    case FnDone(r) => Done(r)
    case Waiting(l) => Done(s.results[l])
    case Done(r) => Done(r)
  }

  /** What the step does to the shared state. */
  function Effect(s: State, t: nat, answer: Answer): State
    requires |s.users| == |s.pcs| && Enabled(s, t)
  {
    var u := s.users[t];
    match s.pcs[t]
    case Start => s.(readers := s.readers + {t})
    case FastRead => s.(readers := s.readers - {t})
    case Missed =>
      if u in s.flights then s.(joined := s.joined[t := s.flights[u]]) else s.(flights := s.flights[u := t])
    case Recheck => s.(readers := s.readers + {t})
    case RecheckRead => s.(readers := s.readers - {t})
    case Building =>
      if answer.Built? then s.(built := s.built + [(u, Entry(t, answer.uid))])
      else s.(failures := s.failures + {(t, answer.reason)})
    case WantLock(_) => s.(writer := Some(t))
    case Writing(e) => s.(entries := s.entries[u := e], writer := None)
    case FnDone(r) => s.(flights := s.flights - {u}, results := s.results[t := r])
    case _ => s
  }

  /** One atomic step of goroutine `t`. */
  function Step(s: State, t: nat, answer: Answer): State
    requires |s.users| == |s.pcs| && Enabled(s, t)
  {
    Effect(s, t, answer).(pcs := s.pcs[t := NextPc(s, t, answer)])
  }

  // ----- the invariant, one goroutine, one user and one logged build at a time -----

  /** The flight a goroutine took part in: the one it joined, or its own. */
  function Flight(s: State, t: nat): nat {
    if t in s.joined then s.joined[t] else t
  }

  /** An outcome is explained when it is the user's cached entry, or an error of the factory in that flight. */
  predicate Explained(s: State, t: nat, r: Outcome)
    requires t < |s.users|
  {
    match r
    case Ok(e) => s.users[t] in s.entries && s.entries[s.users[t]] == e
    case Failed(x) => (Flight(s, t), x) in s.failures
  }

  predicate LockOk(s: State, t: nat)
    requires t < |s.pcs|
  {
    ReaderOk(s, t) && WriterOk(s, t)
  }

  predicate ReaderOk(s: State, t: nat)
    requires t < |s.pcs|
  {
    t in s.readers <==> Reads(s.pcs[t])
  }

  predicate WriterOk(s: State, t: nat)
    requires t < |s.pcs|
  {
    && (Locks(s.pcs[t]) <==> s.writer == Some(t))
    && (s.pcs[t].Writing? ==> s.readers == {})
  }

  predicate BuildOk(s: State, t: nat)
    requires t < |s.pcs| == |s.users|
  {
    LeaderOk(s, t) && CarrierOk(s, t)
  }

  predicate LeaderOk(s: State, t: nat)
    requires t < |s.pcs| == |s.users|
  {
    Leads(s.pcs[t]) ==> s.users[t] in s.flights && s.flights[s.users[t]] == t && t !in s.joined
  }

  predicate CarrierOk(s: State, t: nat)
    requires t < |s.pcs| == |s.users|
  {
    && (s.pcs[t].Building? || Carries(s.pcs[t]) ==> s.users[t] !in s.entries)
    && (Carries(s.pcs[t]) ==> (s.users[t], s.pcs[t].made) in s.built)
  }

  predicate ResultOk(s: State, t: nat)
    requires t < |s.pcs| == |s.users|
  {
    OutcomeOk(s, t) && PublishedOk(s, t) && (t in s.joined ==> JoinedOk(s, t, s.joined[t]))
  }

  predicate OutcomeOk(s: State, t: nat)
    requires t < |s.pcs| == |s.users|
  {
    && (s.pcs[t].FnDone? ==> Explained(s, t, s.pcs[t].ret))
    && (s.pcs[t].Done? ==> Explained(s, t, s.pcs[t].result))
  }

  predicate PublishedOk(s: State, t: nat)
    requires t < |s.pcs| == |s.users|
  {
    && (s.pcs[t].Waiting? ==> t in s.joined && s.joined[t] == s.pcs[t].leader)
    && (t in s.results ==> s.pcs[t] == Done(s.results[t]) && t !in s.joined)
  }

  /** A goroutine that joined flight `l` still waits for it, or has exactly the result the flight published. */
  predicate JoinedOk(s: State, t: nat, l: nat)
    requires t < |s.pcs| == |s.users|
  {
    && l < |s.pcs| && s.users[l] == s.users[t]
    && (s.pcs[t] == Waiting(l) || (l in s.results && s.pcs[t] == Done(s.results[l])))
    && (l in s.results || Leads(s.pcs[l]))
  }

  predicate UserOk(s: State, u: User)
    requires |s.pcs| == |s.users|
  {
    FlightOk(s, u) && EntryOk(s, u)
  }

  predicate FlightOk(s: State, u: User)
    requires |s.pcs| == |s.users|
  {
    u in s.flights ==> s.flights[u] < |s.pcs| && s.users[s.flights[u]] == u && Leads(s.pcs[s.flights[u]])
  }

  predicate EntryOk(s: State, u: User) {
    u in s.entries ==> (u, s.entries[u]) in s.built
  }

  /** A successful build is cached, or still carried to the cache by the leader of its user's flight. */
  predicate LogOk(s: State, b: (User, Entry)) {
    || (b.0 in s.entries && s.entries[b.0] == b.1)
    || (b.0 in s.flights && s.flights[b.0] < |s.pcs| && Carries(s.pcs[s.flights[b.0]])
        && s.pcs[s.flights[b.0]].made == b.1)
  }

  ghost predicate Inv(s: State) {
    && |s.users| == |s.pcs|
    && (forall t | 0 <= t < |s.pcs| :: LockOk(s, t))
    && (forall t | 0 <= t < |s.pcs| :: BuildOk(s, t))
    && (forall t | 0 <= t < |s.pcs| :: ResultOk(s, t))
    && (forall u :: UserOk(s, u))
    && (forall b | b in s.built :: LogOk(s, b))
    && (forall i, j | 0 <= i < j < |s.built| :: s.built[i].0 != s.built[j].0)
    && (forall t | t in s.readers :: t < |s.pcs|)
    && (s.writer.Some? ==> s.writer.value < |s.pcs|)
  }

  lemma InitInv(users: seq<User>)
    ensures Inv(Init(users))
  {
  }

  lemma StepReaderSelf(s: State, t: nat, answer: Answer)
    requires |s.users| == |s.pcs| && Enabled(s, t) && LockOk(s, t)
    ensures ReaderOk(Step(s, t, answer), t)
  {
  }

  lemma StepWriterSelf(s: State, t: nat, answer: Answer)
    requires Inv(s) && Enabled(s, t)
    ensures WriterOk(Step(s, t, answer), t)
  {
    assert LockOk(s, t);
  }

  lemma StepLock(s: State, t: nat, answer: Answer, k: nat)
    requires Inv(s) && Enabled(s, t) && k < |s.pcs|
    ensures LockOk(Step(s, t, answer), k)
  {
    if k == t {
      assert LockOk(s, t);
      StepReaderSelf(s, t, answer);
      StepWriterSelf(s, t, answer);
    } else {
      assert LockOk(s, t) && LockOk(s, k);
    }
  }

  lemma StepLeaderSelf(s: State, t: nat, answer: Answer)
    requires |s.users| == |s.pcs| && Enabled(s, t) && BuildOk(s, t) && ResultOk(s, t)
    ensures LeaderOk(Step(s, t, answer), t)
  {
  }

  lemma StepCarrierSelf(s: State, t: nat, answer: Answer)
    requires |s.users| == |s.pcs| && Enabled(s, t) && BuildOk(s, t)
    ensures CarrierOk(Step(s, t, answer), t)
  {
  }

  lemma StepBuild(s: State, t: nat, answer: Answer, k: nat)
    requires Inv(s) && Enabled(s, t) && k < |s.pcs|
    ensures BuildOk(Step(s, t, answer), k)
  {
    if k == t {
      assert BuildOk(s, t) && ResultOk(s, t);
      StepLeaderSelf(s, t, answer);
      StepCarrierSelf(s, t, answer);
    } else {
      assert BuildOk(s, t) && BuildOk(s, k);
    }
  }

  /** Explanations survive: cached entries are never replaced and the log of failures only grows. */
  lemma StepExplained(s: State, t: nat, answer: Answer, k: nat, r: Outcome)
    requires Inv(s) && Enabled(s, t) && k < |s.pcs|
    requires Explained(s, k, r) && (k == t ==> !s.pcs[t].Missed?)
    ensures Explained(Step(s, t, answer), k, r)
  {
    assert BuildOk(s, t);
  }

  lemma StepResultSelf(s: State, t: nat, answer: Answer)
    requires Inv(s) && Enabled(s, t)
    ensures ResultOk(Step(s, t, answer), t)
  {
    assert ResultOk(s, t);
    if s.pcs[t].Waiting? {
      assert ResultOk(s, s.pcs[t].leader);
    } else if s.pcs[t].Missed? {
      assert UserOk(s, s.users[t]);
    } else {
      assert BuildOk(s, t);
      LeaderResult(s, t, answer);
    }
  }

  lemma LeaderResult(s: State, t: nat, answer: Answer)
    requires |s.users| == |s.pcs| && Enabled(s, t) && ResultOk(s, t) && BuildOk(s, t)
    requires !s.pcs[t].Waiting? && !s.pcs[t].Missed?
    ensures ResultOk(Step(s, t, answer), t)
  {
  }

  lemma StepJoined(s: State, t: nat, answer: Answer, k: nat)
    requires Inv(s) && Enabled(s, t) && k < |s.pcs| && k != t && k in s.joined
    ensures JoinedOk(Step(s, t, answer), k, s.joined[k])
  {
    assert ResultOk(s, k) && BuildOk(s, t) && ResultOk(s, t);
  }

  lemma StepOutcomeOther(s: State, t: nat, answer: Answer, k: nat)
    requires Inv(s) && Enabled(s, t) && k < |s.pcs| && k != t
    ensures OutcomeOk(Step(s, t, answer), k)
  {
    assert ResultOk(s, k);
    if s.pcs[k].FnDone? {
      StepExplained(s, t, answer, k, s.pcs[k].ret);
    } else if s.pcs[k].Done? {
      StepExplained(s, t, answer, k, s.pcs[k].result);
    }
  }

  lemma StepPublishedOther(s: State, t: nat, answer: Answer, k: nat)
    requires Inv(s) && Enabled(s, t) && k < |s.pcs| && k != t
    ensures PublishedOk(Step(s, t, answer), k)
    ensures k in Step(s, t, answer).joined ==> k in s.joined && Step(s, t, answer).joined[k] == s.joined[k]
  {
    assert ResultOk(s, k);
  }

  lemma StepResult(s: State, t: nat, answer: Answer, k: nat)
    requires Inv(s) && Enabled(s, t) && k < |s.pcs|
    ensures ResultOk(Step(s, t, answer), k)
  {
    if k == t {
      StepResultSelf(s, t, answer);
    } else {
      StepOutcomeOther(s, t, answer, k);
      StepPublishedOther(s, t, answer, k);
      if k in s.joined {
        StepJoined(s, t, answer, k);
      }
    }
  }

  lemma StepUser(s: State, t: nat, answer: Answer, u: User)
    requires Inv(s) && Enabled(s, t)
    ensures UserOk(Step(s, t, answer), u)
  {
    assert UserOk(s, u);
    if u == s.users[t] {
      StepUserSelf(s, t, answer);
    }
  }

  lemma StepFlightSelf(s: State, t: nat, answer: Answer)
    requires Inv(s) && Enabled(s, t)
    ensures FlightOk(Step(s, t, answer), s.users[t])
  {
    assert BuildOk(s, t) && UserOk(s, s.users[t]);
  }

  lemma StepEntrySelf(s: State, t: nat, answer: Answer)
    requires Inv(s) && Enabled(s, t)
    ensures EntryOk(Step(s, t, answer), s.users[t])
  {
    assert BuildOk(s, t) && UserOk(s, s.users[t]);
  }

  lemma StepUserSelf(s: State, t: nat, answer: Answer)
    requires Inv(s) && Enabled(s, t)
    ensures UserOk(Step(s, t, answer), s.users[t])
  {
    StepFlightSelf(s, t, answer);
    StepEntrySelf(s, t, answer);
  }

  lemma StepLogElsewhere(s: State, t: nat, answer: Answer, b: (User, Entry))
    requires Inv(s) && Enabled(s, t) && LogOk(s, b) && b.0 != s.users[t]
    ensures LogOk(Step(s, t, answer), b)
  {
    assert UserOk(s, b.0);
  }

  lemma StepLog(s: State, t: nat, answer: Answer, b: (User, Entry))
    requires Inv(s) && Enabled(s, t) && b in s.built
    ensures LogOk(Step(s, t, answer), b)
  {
    assert LogOk(s, b);
    if b.0 != s.users[t] {
      StepLogElsewhere(s, t, answer, b);
    } else {
      assert BuildOk(s, t) && UserOk(s, b.0);
    }
  }

  lemma StepLogDistinct(s: State, t: nat, answer: Answer)
    requires Inv(s) && Enabled(s, t)
    ensures var b := Step(s, t, answer).built; forall i, j | 0 <= i < j < |b| :: b[i].0 != b[j].0
  {
    if s.pcs[t].Building? {
      assert BuildOk(s, t);
      forall i | 0 <= i < |s.built| ensures s.built[i].0 != s.users[t] {
        assert LogOk(s, s.built[i]);
      }
    }
  }

  lemma StepGoroutines(s: State, t: nat, answer: Answer)
    requires Inv(s) && Enabled(s, t)
    ensures var s' := Step(s, t, answer);
            forall k | 0 <= k < |s.pcs| :: LockOk(s', k) && BuildOk(s', k) && ResultOk(s', k)
  {
    var s' := Step(s, t, answer);
    forall k | 0 <= k < |s.pcs| ensures LockOk(s', k) && BuildOk(s', k) && ResultOk(s', k) {
      StepLock(s, t, answer, k);
      StepBuild(s, t, answer, k);
      StepResult(s, t, answer, k);
    }
  }

  lemma StepLogs(s: State, t: nat, answer: Answer)
    requires Inv(s) && Enabled(s, t)
    ensures var s' := Step(s, t, answer); forall b | b in s'.built :: LogOk(s', b)
  {
    var s' := Step(s, t, answer);
    forall b | b in s'.built ensures LogOk(s', b) {
      if b in s.built {
        StepLog(s, t, answer, b);
      } else {
        assert BuildOk(s, t);
      }
    }
  }

  lemma StepInv(s: State, t: nat, answer: Answer)
    requires Inv(s) && Enabled(s, t)
    ensures Inv(Step(s, t, answer))
  {
    StepGoroutines(s, t, answer);
    StepLogs(s, t, answer);
    StepLogDistinct(s, t, answer);
    forall u ensures UserOk(Step(s, t, answer), u) {
      StepUser(s, t, answer, u);
    }
  }

  // ----- whole runs -----

  datatype Move = Move(t: nat, answer: Answer)

  /** `trace` is a run from the empty pool: the environment picks who moves and what the factory says. */
  ghost predicate IsRun(users: seq<User>, trace: seq<State>, moves: seq<Move>) {
    && |trace| == |moves| + 1
    && trace[0] == Init(users)
    && forall i | 0 <= i < |moves| ::
         && |trace[i].users| == |trace[i].pcs|
         && Enabled(trace[i], moves[i].t)
         && trace[i + 1] == Step(trace[i], moves[i].t, moves[i].answer)
  }

  lemma {:induction false} RunInv(users: seq<User>, trace: seq<State>, moves: seq<Move>, i: nat)
    requires IsRun(users, trace, moves) && i < |trace|
    ensures Inv(trace[i])
    ensures trace[i].users == users
  {
    if i == 0 {
      InitInv(users);
    } else {
      RunInv(users, trace, moves, i - 1);
      StepInv(trace[i - 1], moves[i - 1].t, moves[i - 1].answer);
    }
  }

  /** No user has two factory calls in flight, or two successful ones in the whole history. */
  ghost predicate BuildsOnce(s: State)
    requires |s.users| == |s.pcs|
  {
    && (forall t, k | 0 <= t < k < |s.pcs| && s.pcs[t].Building? && s.pcs[k].Building? :: s.users[t] != s.users[k])
    && (forall i, j | 0 <= i < j < |s.built| :: s.built[i].0 != s.built[j].0)
  }

  /** Successful calls of one user return the one agent built for that user, which is the cached one. */
  ghost predicate SharesEntry(s: State)
    requires |s.users| == |s.pcs|
  {
    forall t | 0 <= t < |s.pcs| && s.pcs[t].Done? && s.pcs[t].result.Ok? ::
      var e := s.pcs[t].result.entry;
      && s.users[t] in s.entries && s.entries[s.users[t]] == e
      && (s.users[t], e) in s.built
      && (forall b | b in s.built && b.0 == s.users[t] :: b.1 == e)
  }

  /** All calls that took part in one flight return the same outcome; an error is one of that flight's factory. */
  ghost predicate SharesFate(s: State)
    requires |s.users| == |s.pcs|
  {
    && (forall t, k | 0 <= t < |s.pcs| && 0 <= k < |s.pcs| && s.pcs[t].Done? && s.pcs[k].Done?
          && t in s.joined && Flight(s, t) == Flight(s, k) :: s.pcs[t].result == s.pcs[k].result)
    && (forall t | 0 <= t < |s.pcs| && s.pcs[t].Done? && s.pcs[t].result.Failed? ::
          (Flight(s, t), s.pcs[t].result.reason) in s.failures)
  }

  lemma InvSafe(s: State)
    requires Inv(s)
    ensures BuildsOnce(s) && SharesEntry(s) && SharesFate(s)
  {
    forall t, k | 0 <= t < k < |s.pcs| && s.pcs[t].Building? && s.pcs[k].Building?
      ensures s.users[t] != s.users[k]
    {
      assert BuildOk(s, t) && BuildOk(s, k);
    }
    forall t | 0 <= t < |s.pcs| && s.pcs[t].Done? && s.pcs[t].result.Ok?
      ensures Explained(s, t, s.pcs[t].result) && (s.users[t], s.pcs[t].result.entry) in s.built
    {
      assert ResultOk(s, t) && UserOk(s, s.users[t]);
    }
    forall t, k | 0 <= t < |s.pcs| && 0 <= k < |s.pcs| && s.pcs[t].Done? && s.pcs[k].Done?
      && t in s.joined && Flight(s, t) == Flight(s, k)
      ensures s.pcs[t].result == s.pcs[k].result
    {
      assert ResultOk(s, t) && ResultOk(s, k);
    }
    forall t | 0 <= t < |s.pcs| && s.pcs[t].Done? && s.pcs[t].result.Failed?
      ensures (Flight(s, t), s.pcs[t].result.reason) in s.failures
    {
      assert ResultOk(s, t);
    }
  }

  lemma RunSafe(users: seq<User>, trace: seq<State>, moves: seq<Move>, i: nat)
    requires IsRun(users, trace, moves) && i < |trace|
    ensures |trace[i].users| == |trace[i].pcs|
    ensures BuildsOnce(trace[i]) && SharesEntry(trace[i]) && SharesFate(trace[i])
  {
    RunInv(users, trace, moves, i);
    InvSafe(trace[i]);
  }

  // ----- answers are the factory's -----

  /** At the `k`-th move the factory call of goroutine `g` returns `answer`. */
  predicate Says(trace: seq<State>, moves: seq<Move>, k: nat, g: nat, answer: Answer) {
    k < |moves| && k < |trace| && moves[k] == Move(g, answer) && g < |trace[k].pcs| && trace[k].pcs[g].Building?
  }

  lemma StepBuilt(s: State, t: nat, answer: Answer)
    requires |s.users| == |s.pcs| && Enabled(s, t)
    ensures Step(s, t, answer).built
         == if s.pcs[t].Building? && answer.Built? then s.built + [(s.users[t], Entry(t, answer.uid))] else s.built
  {
  }

  lemma StepFailed(s: State, t: nat, answer: Answer)
    requires |s.users| == |s.pcs| && Enabled(s, t)
    ensures Step(s, t, answer).failures
         == if s.pcs[t].Building? && answer.Refused? then s.failures + {(t, answer.reason)} else s.failures
  {
  }

  lemma {:induction false} RunUsers(users: seq<User>, trace: seq<State>, moves: seq<Move>, i: nat)
    requires IsRun(users, trace, moves) && i < |trace|
    ensures trace[i].users == users && |trace[i].pcs| == |users|
  {
    if i > 0 {
      RunUsers(users, trace, moves, i - 1);
    }
  }

  /** The log of failures holds exactly what factory calls have refused. */
  lemma {:induction false} FailuresAreRefusals(users: seq<User>, trace: seq<State>, moves: seq<Move>, i: nat,
                                               g: nat, x: string)
    requires IsRun(users, trace, moves) && i < |trace|
    ensures (g, x) in trace[i].failures <==> exists k :: 0 <= k < i && Says(trace, moves, k, g, Refused(x))
  {
    if i > 0 {
      FailuresAreRefusals(users, trace, moves, i - 1, g, x);
      StepFailed(trace[i - 1], moves[i - 1].t, moves[i - 1].answer);
      SaysLast(users, trace, moves, i - 1, g, Refused(x));
    }
  }

  lemma SaysLast(users: seq<User>, trace: seq<State>, moves: seq<Move>, k: nat, g: nat, answer: Answer)
    requires IsRun(users, trace, moves) && k < |moves|
    ensures |trace[k].users| == |trace[k].pcs| && Enabled(trace[k], moves[k].t)
    ensures Says(trace, moves, k, g, answer)
            <==> g == moves[k].t && trace[k].pcs[moves[k].t].Building? && moves[k].answer == answer
  {
  }

  lemma BuiltNext(users: seq<User>, trace: seq<State>, moves: seq<Move>, k: nat, u: User, e: Entry)
    requires IsRun(users, trace, moves) && k < |moves|
    ensures (u, e) in trace[k + 1].built
            <==> (u, e) in trace[k].built
                 || (e.builder < |users| && users[e.builder] == u && Says(trace, moves, k, e.builder, Built(e.uid)))
  {
    RunUsers(users, trace, moves, k);
    StepBuilt(trace[k], moves[k].t, moves[k].answer);
    SaysLast(users, trace, moves, k, e.builder, Built(e.uid));
  }

  /** The log of builds holds exactly the agents factory calls have returned, each for its caller's user. */
  lemma {:induction false} BuildsAreAnswers(users: seq<User>, trace: seq<State>, moves: seq<Move>, i: nat,
                                            u: User, e: Entry)
    requires IsRun(users, trace, moves) && i < |trace|
    ensures (u, e) in trace[i].built
            <==> e.builder < |users| && users[e.builder] == u
                 && exists k :: 0 <= k < i && Says(trace, moves, k, e.builder, Built(e.uid))
  {
    if i > 0 {
      BuildsAreAnswers(users, trace, moves, i - 1, u, e);
      BuiltNext(users, trace, moves, i - 1, u, e);
    }
  }

  /** The flight a goroutine took part in was one for its own user. */
  lemma FlightIsOwn(s: State, t: nat)
    requires Inv(s) && t < |s.pcs|
    ensures Flight(s, t) < |s.pcs| && s.users[Flight(s, t)] == s.users[t]
  {
    assert ResultOk(s, t);
  }

  /** A call fails only with an error that the factory returned, for the same user and in the flight the call was in. */
  lemma RunErrorsAreRefusals(users: seq<User>, trace: seq<State>, moves: seq<Move>, i: nat, t: nat)
    requires IsRun(users, trace, moves) && i < |trace| && t < |trace[i].pcs|
    requires trace[i].pcs[t].Done? && trace[i].pcs[t].result.Failed?
    ensures var g, x := Flight(trace[i], t), trace[i].pcs[t].result.reason;
            g < |users| && t < |users| && users[g] == users[t]
            && exists k :: 0 <= k < i && Says(trace, moves, k, g, Refused(x))
  {
    RunInv(users, trace, moves, i);
    InvSafe(trace[i]);
    FlightIsOwn(trace[i], t);
    FailuresAreRefusals(users, trace, moves, i, Flight(trace[i], t), trace[i].pcs[t].result.reason);
  }

  /** A call succeeds only with an agent that the factory returned for the same user. */
  lemma RunAgentsAreBuilt(users: seq<User>, trace: seq<State>, moves: seq<Move>, i: nat, t: nat)
    requires IsRun(users, trace, moves) && i < |trace| && t < |trace[i].pcs|
    requires trace[i].pcs[t].Done? && trace[i].pcs[t].result.Ok?
    ensures var e := trace[i].pcs[t].result.entry;
            e.builder < |users| && t < |users| && users[e.builder] == users[t]
            && exists k :: 0 <= k < i && Says(trace, moves, k, e.builder, Built(e.uid))
  {
    RunInv(users, trace, moves, i);
    InvSafe(trace[i]);
    BuildsAreAnswers(users, trace, moves, i, users[t], trace[i].pcs[t].result.entry);
  }

  lemma FastStep(s: State, t: nat, answer: Answer, g: nat)
    requires Inv(s) && Enabled(s, t) && g < |s.pcs| && s.users[g] in s.entries
    requires s.pcs[g].Start? || s.pcs[g].FastRead? || s.pcs[g] == Done(Ok(s.entries[s.users[g]]))
    ensures var pc := Step(s, t, answer).pcs[g];
            pc.Start? || pc.FastRead? || pc == Done(Ok(s.entries[s.users[g]]))
  {
  }

  /** A call that starts when its user's agent is cached reads it and returns it: it enters no flight and waits for
      nobody's factory, whatever others do. */
  lemma {:induction false} CachedCallIsFast(users: seq<User>, trace: seq<State>, moves: seq<Move>, i: nat, j: nat,
                                            g: nat)
    requires IsRun(users, trace, moves) && i <= j < |trace| && g < |users|
    requires users[g] in trace[i].entries && g < |trace[i].pcs| && trace[i].pcs[g].Start?
    ensures g < |trace[j].pcs|
    ensures var pc := trace[j].pcs[g];
            pc.Start? || pc.FastRead? || pc == Done(Ok(trace[i].entries[users[g]]))
    decreases j
  {
    RunInv(users, trace, moves, j);
    if i < j {
      CachedCallIsFast(users, trace, moves, i, j - 1, g);
      RunInv(users, trace, moves, j - 1);
      RunKeepsEntries(users, trace, moves, i, j - 1, users[g]);
      FastStep(trace[j - 1], moves[j - 1].t, moves[j - 1].answer, g);
    }
  }

  /** While a goroutine writes the map nobody reads it, and nobody else writes. */
  lemma RunExclusive(users: seq<User>, trace: seq<State>, moves: seq<Move>, i: nat, t: nat, k: nat)
    requires IsRun(users, trace, moves) && i < |trace| && t < |trace[i].pcs| && k < |trace[i].pcs| && t != k
    requires trace[i].pcs[t].Writing?
    ensures !Reads(trace[i].pcs[k]) && !trace[i].pcs[k].Writing?
  {
    RunInv(users, trace, moves, i);
    assert LockOk(trace[i], t) && LockOk(trace[i], k);
  }

  lemma StepKeepsEntries(s: State, t: nat, answer: Answer, u: User)
    requires Inv(s) && Enabled(s, t) && u in s.entries
    ensures u in Step(s, t, answer).entries && Step(s, t, answer).entries[u] == s.entries[u]
  {
    assert BuildOk(s, t);
  }

  /** A cached agent is never replaced, whatever happens later. */
  lemma {:induction false} RunKeepsEntries(users: seq<User>, trace: seq<State>, moves: seq<Move>, i: nat, j: nat,
                                           u: User)
    requires IsRun(users, trace, moves) && i <= j < |trace| && u in trace[i].entries
    ensures u in trace[j].entries && trace[j].entries[u] == trace[i].entries[u]
    decreases j
  {
    if i < j {
      RunKeepsEntries(users, trace, moves, i, j - 1, u);
      RunInv(users, trace, moves, j - 1);
      StepKeepsEntries(trace[j - 1], moves[j - 1].t, moves[j - 1].answer, u);
    }
  }

  lemma StepLeavesEntries(s: State, t: nat, answer: Answer, u: User)
    requires |s.users| == |s.pcs| && Enabled(s, t) && u != s.users[t]
    ensures var s' := Step(s, t, answer);
            (u in s'.entries <==> u in s.entries) && (u in s.entries ==> s'.entries[u] == s.entries[u])
  {
  }

  lemma StepLeavesFlights(s: State, t: nat, answer: Answer, u: User)
    requires |s.users| == |s.pcs| && Enabled(s, t) && u != s.users[t]
    ensures var s' := Step(s, t, answer);
            (u in s'.flights <==> u in s.flights) && (u in s.flights ==> s'.flights[u] == s.flights[u])
  {
  }

  /** A step for one user leaves the cache, the flight and the goroutines of every other user alone. */
  lemma StepLeavesOthers(s: State, t: nat, answer: Answer, u: User)
    requires Inv(s) && Enabled(s, t) && u != s.users[t]
    ensures var s' := Step(s, t, answer);
            && (u in s'.entries <==> u in s.entries) && (u in s.entries ==> s'.entries[u] == s.entries[u])
            && (u in s'.flights <==> u in s.flights) && (u in s.flights ==> s'.flights[u] == s.flights[u])
            && (forall k | 0 <= k < |s.pcs| && s.users[k] == u :: s'.pcs[k] == s.pcs[k])
  {
    StepLeavesEntries(s, t, answer, u);
    StepLeavesFlights(s, t, answer, u);
  }

  /** A failed build caches nothing: the next caller of that user starts afresh. */
  lemma FailedBuildCachesNothing(s: State, t: nat, reason: string)
    requires Inv(s) && t < |s.pcs| && s.pcs[t].Building?
    ensures var s' := Step(s, t, Refused(reason));
            s'.entries == s.entries && s.users[t] !in s'.entries && s'.built == s.built
            && s'.pcs[t] == FnDone(Failed(reason))
  {
    assert BuildOk(s, t);
  }

  // ----- progress -----

  /** Some goroutine can always move until all have returned. */
  lemma NoDeadlock(s: State, t: nat) returns (k: nat)
    requires Inv(s) && t < |s.pcs| && !s.pcs[t].Done?
    ensures Enabled(s, k)
  {
    k := t;
    if s.pcs[t].Waiting? {
      k := s.pcs[t].leader;
      assert ResultOk(s, t);
      if k in s.results {
        return t;
      }
    }
    if s.writer.Some? && !Enabled(s, k) {
      k := s.writer.value;
      assert LockOk(s, k);
    }
    if !Enabled(s, k) {
      assert s.pcs[k].Pending?;
      k :| k in s.readers;
      assert LockOk(s, k);
    }
  }

  function Rank(pc: Pc): nat {
    match pc
    case Start => 11
    case FastRead => 10
    case Missed => 9
    case Recheck => 8
    case RecheckRead => 7
    case Building => 6
    case WantLock(_) => 5
    case Pending(_) => 4
    case Writing(_) => 3
    case FnDone(_) => 2
    case Waiting(_) => 1
    case Done(_) => 0
  }

  function Work(pcs: seq<Pc>): nat {
    if pcs == [] then 0 else Rank(pcs[0]) + Work(pcs[1..])
  }

  lemma {:induction false} WorkUpdate(pcs: seq<Pc>, t: nat, pc: Pc)
    requires t < |pcs|
    ensures Work(pcs[t := pc]) == Work(pcs) - Rank(pcs[t]) + Rank(pc)
  {
    if t == 0 {
      assert pcs[t := pc][1..] == pcs[1..];
    } else {
      assert pcs[t := pc][1..] == pcs[1..][t - 1 := pc];
      WorkUpdate(pcs[1..], t - 1, pc);
    }
  }

  lemma {:induction false} WorkBound(pcs: seq<Pc>)
    requires forall i | 0 <= i < |pcs| :: pcs[i].Start?
    ensures Work(pcs) == 11 * |pcs|
  {
    if pcs != [] {
      WorkBound(pcs[1..]);
    }
  }

  lemma StepWorks(s: State, t: nat, answer: Answer)
    requires |s.users| == |s.pcs| && Enabled(s, t)
    ensures Work(Step(s, t, answer).pcs) < Work(s.pcs)
  {
    WorkUpdate(s.pcs, t, NextPc(s, t, answer));
  }

  /** One entries map extends another: nothing cached was dropped or replaced. */
  ghost predicate Extends(prior: map<User, Entry>, later: map<User, Entry>) {
    forall u | u in prior :: u in later && later[u] == prior[u]
  }

  lemma StepExtends(s: State, t: nat, answer: Answer)
    requires Inv(s) && Enabled(s, t)
    ensures Extends(s.entries, Step(s, t, answer).entries)
  {
    forall u | u in s.entries
      ensures u in Step(s, t, answer).entries && Step(s, t, answer).entries[u] == s.entries[u]
    {
      StepKeepsEntries(s, t, answer, u);
    }
  }

  /** No run of n calls takes more than 11 n steps: the pool cannot loop, however it is scheduled. */
  lemma {:induction false} RunBound(users: seq<User>, trace: seq<State>, moves: seq<Move>, i: nat)
    requires IsRun(users, trace, moves) && i < |trace|
    ensures i + Work(trace[i].pcs) <= 11 * |users|
  {
    if i == 0 {
      WorkBound(trace[0].pcs);
    } else {
      RunBound(users, trace, moves, i - 1);
      StepWorks(trace[i - 1], moves[i - 1].t, moves[i - 1].answer);
    }
  }

  /** A run that cannot be extended has answered every call; if no factory call was refused, every answer is an
      agent. */
  lemma MaximalRunAnswers(users: seq<User>, trace: seq<State>, moves: seq<Move>)
    requires IsRun(users, trace, moves)
    requires forall t: nat :: !Enabled(trace[|moves|], t)
    ensures |trace[|moves|].pcs| == |users|
    ensures forall t | 0 <= t < |users| :: trace[|moves|].pcs[t].Done?
    ensures (forall k, g, x | 0 <= k < |moves| :: !Says(trace, moves, k, g, Refused(x))) ==>
              forall t | 0 <= t < |users| :: trace[|moves|].pcs[t].Done? && trace[|moves|].pcs[t].result.Ok?
  {
    var s := trace[|moves|];
    RunInv(users, trace, moves, |moves|);
    forall t | 0 <= t < |s.pcs| ensures s.pcs[t].Done? {
      if !s.pcs[t].Done? {
        var k := NoDeadlock(s, t);
      }
    }
    if forall k, g, x | 0 <= k < |moves| :: !Says(trace, moves, k, g, Refused(x)) {
      forall t | 0 <= t < |users| ensures s.pcs[t].result.Ok? {
        if s.pcs[t].result.Failed? {
          RunErrorsAreRefusals(users, trace, moves, |moves|, t);
        }
      }
    }
  }

  // ----- parallel construction -----

  /** The first `k` goroutines are in their factories, the others have not started. */
  ghost predicate Underway(s: State, users: seq<User>, k: nat) {
    && s.users == users && |s.pcs| == |users| && k <= |users|
    && (forall i | 0 <= i < |users| :: s.pcs[i] == if i < k then Building else Start)
    && s.entries == map[] && s.readers == {} && s.writer.None?
    && (forall u | u in s.flights :: exists i :: 0 <= i < k && users[i] == u)
  }

  lemma OneMore(users: seq<User>, trace: seq<State>, moves: seq<Move>, t: nat)
    returns (trace': seq<State>, moves': seq<Move>)
    requires IsRun(users, trace, moves) && |trace[|moves|].users| == |trace[|moves|].pcs| && Enabled(trace[|moves|], t)
    ensures IsRun(users, trace', moves') && trace'[|moves'|] == Step(trace[|moves|], t, Refused(""))
  {
    trace' := trace + [Step(trace[|moves|], t, Refused(""))];
    moves' := moves + [Move(t, Refused(""))];
  }

  /** Users do not wait for each other: some run has the factories of all of them in flight at once. */
  lemma {:induction false} BuildsInParallel(users: seq<User>, k: nat) returns (trace: seq<State>, moves: seq<Move>)
    requires k <= |users| && forall i, j | 0 <= i < j < |users| :: users[i] != users[j]
    ensures IsRun(users, trace, moves) && Underway(trace[|moves|], users, k)
  {
    if k == 0 {
      trace, moves := [Init(users)], [];
    } else {
      var t := k - 1;
      trace, moves := BuildsInParallel(users, t);
      trace, moves := OneMore(users, trace, moves, t);
      trace, moves := OneMore(users, trace, moves, t);
      trace, moves := OneMore(users, trace, moves, t);
      trace, moves := OneMore(users, trace, moves, t);
      trace, moves := OneMore(users, trace, moves, t);
    }
  }

  // ----- the pool as it is written: fields changed by one goroutine at a time -----

  class AgentPool {
    const users: seq<User>
    var pcs: seq<Pc>
    var entries: map<User, Entry>
    var readers: set<nat>
    var writer: Option<nat>
    var flights: map<User, nat>
    var results: map<nat, Outcome>
    ghost var joined: map<nat, nat>
    ghost var built: seq<(User, Entry)>
    ghost var failures: set<(nat, string)>

    ghost function View(): State
      reads this
    {
      State(users, pcs, entries, readers, writer, flights, results, joined, built, failures)
    }

    constructor (users: seq<User>)
      ensures this.users == users && View() == Init(users)
    {
      this.users := users;
      pcs := seq(|users|, _ => Start);
      entries, readers, writer, flights, results := map[], {}, None, map[], map[];
      joined, built, failures := map[], [], {};
    }

    /** Goroutine `t` runs up to its next synchronisation point. */
    method Advance(t: nat, answer: Answer)
      requires |users| == |pcs| && Enabled(View(), t)
      modifies this
      ensures View() == Step(old(View()), t, answer)
    {
      var u := users[t];
      match pcs[t] {
        case Start =>
          readers := readers + {t};
          pcs := pcs[t := FastRead];
        case FastRead =>
          var next := if u in entries then Done(Ok(entries[u])) else Missed;
          readers := readers - {t};
          pcs := pcs[t := next];
        case Missed =>
          if u in flights {
            joined := joined[t := flights[u]];
            pcs := pcs[t := Waiting(flights[u])];
          } else {
            flights := flights[u := t];
            pcs := pcs[t := Recheck];
          }
        case Recheck =>
          readers := readers + {t};
          pcs := pcs[t := RecheckRead];
        case RecheckRead =>
          var next := if u in entries then FnDone(Ok(entries[u])) else Building;
          readers := readers - {t};
          pcs := pcs[t := next];
        case Building =>
          match answer {
            case Refused(reason) =>
              failures := failures + {(t, reason)};
              pcs := pcs[t := FnDone(Failed(reason))];
            case Built(uid) =>
              built := built + [(u, Entry(t, uid))];
              pcs := pcs[t := WantLock(Entry(t, uid))];
          }
        case WantLock(e) =>
          writer := Some(t);
          pcs := pcs[t := Pending(e)];
        case Pending(e) =>
          pcs := pcs[t := Writing(e)];
        case Writing(e) =>
          entries := entries[u := e];
          writer := None;
          pcs := pcs[t := FnDone(Ok(e))];
        case FnDone(r) =>
          flights := flights - {u};
          results := results[t := r];
          pcs := pcs[t := Done(r)];
        case Waiting(l) =>
          pcs := pcs[t := Done(results[l])];
      }
    }

    /** Some goroutine that can move; which one is up to the scheduler. */
    method Pick() returns (t: nat)
      requires Inv(View()) && exists k | 0 <= k < |pcs| :: !pcs[k].Done?
      ensures Enabled(View(), t)
    {
      ghost var waiting :| 0 <= waiting < |pcs| && !pcs[waiting].Done?;
      ghost var able := NoDeadlock(View(), waiting);
      assert able < |pcs| && Movable(able);
      t :| t < |pcs| && Movable(t);
      assert Movable(t);
    }

    /** Any scheduler that keeps picking a goroutine able to move finishes all calls, whatever the factory says. */
    method Drive(answers: nat -> Answer) returns (steps: nat)
      requires Inv(View())
      modifies this
      ensures Inv(View())
      ensures |pcs| == old(|pcs|) && forall t | 0 <= t < |pcs| :: pcs[t].Done?
      ensures steps + Work(pcs) <= old(Work(pcs))
      ensures Extends(old(entries), entries)
    {
      steps := 0;
      while exists t | 0 <= t < |pcs| :: !pcs[t].Done?
        invariant Inv(View()) && |pcs| == old(|pcs|)
        invariant steps + Work(pcs) <= old(Work(pcs))
        invariant Extends(old(entries), entries)
        decreases Work(pcs)
      {
        var t := Pick();
        StepInv(View(), t, answers(steps));
        StepWorks(View(), t, answers(steps));
        StepExtends(View(), t, answers(steps));
        Advance(t, answers(steps));
        steps := steps + 1;
      }
    }

    /** `Enabled`, read off the fields that exist at run time. */
    predicate Movable(t: nat)
      reads this
      ensures Movable(t) <==> Enabled(View(), t)
    {
      Enabled(State(users, pcs, entries, readers, writer, flights, results, map[], [], {}), t)
    }
  }
}
