/**
  What an account shows after imports: every import offers the closing balance of its last row in file order that has
  one (internal/importer/importer.go:95-104), and the caller hands it to the guarded update
  (cmd/finagent/import.go:141-145, internal/api/import.go:217-221).
 */
module StatementBalance {
  import opened Common
  import opened Calendar
  import opened Importer
  import opened Balance

  type StatementFile = xs: seq<Item> | Dated(xs)

  predicate Dated(xs: seq<Item>) {
    forall i | 0 <= i < |xs| :: Valid(xs[i].row.date)
  }

  function DayOf(x: Item): int
    requires Valid(x.row.date)
  {
    Serial(x.row.date)
  }

  function ClosingOf(xs: StatementFile): Option<Closing> {
    if xs == [] then None
    else
      var last := xs[|xs| - 1];
      if last.row.balance.Some? then Some(Closing(last.row.balance.value, DayOf(last))) else ClosingOf(xs[..|xs| - 1])
  }

  /** It is what the import's scan finds. */
  lemma {:induction false} ScanFindsClosing(xs: StatementFile, latest: Option<Closing>)
    ensures LatestIs(xs, latest) <==> latest == ClosingOf(xs)
  {
    if xs != [] {
      var n := |xs| - 1;
      if xs[n].row.balance.Some? {
        assert LastWithBalance(xs, n);
      } else {
        ScanFindsClosing(xs[..n], latest);
        ScanSkips(xs, latest);
      }
    }
  }

  lemma SkipKeepsLast(xs: StatementFile, i: nat)
    requires xs != [] && xs[|xs| - 1].row.balance.None?
    ensures LastWithBalance(xs, i) <==> LastWithBalance(xs[..|xs| - 1], i)
  {
  }

  lemma ScanSkips(xs: StatementFile, latest: Option<Closing>)
    requires xs != [] && xs[|xs| - 1].row.balance.None?
    ensures LatestIs(xs, latest) <==> LatestIs(xs[..|xs| - 1], latest)
  {
    var init := xs[..|xs| - 1];
    if latest.Some? {
      if i: nat :| LastWithBalance(xs, i) && latest.value == Closing(xs[i].row.balance.value, DayOf(xs[i])) {
        SkipKeepsLast(xs, i);
        assert LastWithBalance(init, i) && init[i] == xs[i];
      }
      if i: nat :| LastWithBalance(init, i) && latest.value == Closing(init[i].row.balance.value, DayOf(init[i])) {
        SkipKeepsLast(xs, i);
        assert LastWithBalance(xs, i) && init[i] == xs[i];
      }
    }
  }

  function Imported(a: Account, xs: StatementFile): Account {
    if ClosingOf(xs).None? then a else Update(a, ClosingOf(xs).value)
  }

  function ImportedAll(a: Account, sts: seq<StatementFile>): Account {
    if sts == [] then a else Imported(ImportedAll(a, sts[..|sts| - 1]), sts[|sts| - 1])
  }

  /** The closing balances offered, one a statement that has any. */
  function Closings(sts: seq<StatementFile>): seq<Closing> {
    if sts == [] then []
    else
      var c := ClosingOf(sts[|sts| - 1]);
      Closings(sts[..|sts| - 1]) + if c.Some? then [c.value] else []
  }

  lemma UpdateSnoc(a: Account, cs: seq<Closing>, c: Closing)
    ensures UpdateAll(a, cs + [c]) == Update(UpdateAll(a, cs), c)
  {
    assert (cs + [c])[..|cs|] == cs;
  }

  /** Importing statements is applying their closing balances. */
  lemma {:induction false} ImportsAreUpdates(a: Account, sts: seq<StatementFile>)
    ensures ImportedAll(a, sts) == UpdateAll(a, Closings(sts))
  {
    if sts != [] {
      var n := |sts| - 1;
      ImportsAreUpdates(a, sts[..n]);
      if ClosingOf(sts[n]).Some? {
        UpdateSnoc(a, Closings(sts[..n]), ClosingOf(sts[n]).value);
      } else {
        assert Closings(sts[..n]) + [] == Closings(sts[..n]);
      }
    }
  }

  // ----- whether the newest balance is shown -----

  /** Every row with a balance is dated `day` or earlier. */
  ghost predicate NoneAfter(xs: StatementFile, day: int) {
    forall i | 0 <= i < |xs| && xs[i].row.balance.Some? :: DayOf(xs[i]) <= day
  }

  /** The statement's last row with a balance has that date. */
  predicate ClosesOn(xs: StatementFile, day: int) {
    ClosingOf(xs).Some? && ClosingOf(xs).value.day == day
  }

  lemma {:induction false} ClosingFromRow(xs: StatementFile)
    requires ClosingOf(xs).Some?
    ensures exists i :: 0 <= i < |xs| && xs[i].row.balance.Some?
              && ClosingOf(xs).value == Closing(xs[i].row.balance.value, DayOf(xs[i]))
  {
    var n := |xs| - 1;
    if xs[n].row.balance.None? {
      ClosingFromRow(xs[..n]);
      var i :| 0 <= i < n && xs[i].row.balance.Some?
        && ClosingOf(xs).value == Closing(xs[i].row.balance.value, DayOf(xs[i]));
    }
  }

  lemma {:induction false} ClosingsOf(sts: seq<StatementFile>, c: Closing)
    ensures c in Closings(sts) <==> exists k :: 0 <= k < |sts| && ClosingOf(sts[k]) == Some(c)
  {
    if sts != [] {
      var n := |sts| - 1;
      ClosingsOf(sts[..n], c);
      if ClosingOf(sts[n]) == Some(c) {
        assert c in Closings(sts);
      }
      if k :| 0 <= k < n && ClosingOf(sts[k]) == Some(c) {
        assert sts[..n][k] == sts[k];
      }
    }
  }

  lemma ClosingsNotAfter(sts: seq<StatementFile>, day: int)
    requires forall k | 0 <= k < |sts| :: NoneAfter(sts[k], day)
    ensures forall c | c in Closings(sts) :: c.day <= day
  {
    forall c | c in Closings(sts) ensures c.day <= day {
      ClosingsOf(sts, c);
      var k :| 0 <= k < |sts| && ClosingOf(sts[k]) == Some(c);
      ClosingFromRow(sts[k]);
      assert NoneAfter(sts[k], day);
    }
  }

  /** When `day` is the newest date of any balance in any statement, a new account comes to show that day exactly when
      some statement's last row with a balance has it; in which order statements are imported does not matter. */
  lemma ShowsNewestIff(a: Account, sts: seq<StatementFile>, day: int)
    requires a.asOf.None? && forall k | 0 <= k < |sts| :: NoneAfter(sts[k], day)
    ensures ImportedAll(a, sts).asOf == Some(day) <==> exists k :: 0 <= k < |sts| && ClosesOn(sts[k], day)
  {
    ImportsAreUpdates(a, sts);
    ClosingsNotAfter(sts, day);
    var cs := Closings(sts);
    if cs != [] {
      var i := LastGreatestExists(cs);
      FinalIsLastGreatest(a, cs, i);
    }
    ClosesIff(sts, day);
  }

  lemma ClosesIff(sts: seq<StatementFile>, day: int)
    ensures (exists c :: c in Closings(sts) && c.day == day) <==> exists k :: 0 <= k < |sts| && ClosesOn(sts[k], day)
  {
    if c :| c in Closings(sts) && c.day == day {
      ClosingsOf(sts, c);
    }
    if k :| 0 <= k < |sts| && ClosesOn(sts[k], day) {
      ClosingsOf(sts, ClosingOf(sts[k]).value);
    }
  }

  /** A statement listed oldest first closes on its newest date. */
  lemma {:induction false} OldestFirst(xs: StatementFile)
    requires forall i, j | 0 <= i < j < |xs| :: DayOf(xs[i]) <= DayOf(xs[j])
    requires ClosingOf(xs).Some?
    ensures NoneAfter(xs, ClosingOf(xs).value.day)
  {
    var n := |xs| - 1;
    if xs[n].row.balance.None? {
      OldestFirst(xs[..n]);
      forall i | 0 <= i < |xs| && xs[i].row.balance.Some? ensures DayOf(xs[i]) <= ClosingOf(xs).value.day {
        assert xs[..n][i] == xs[i];
      }
    }
  }

  /** One listed newest first closes on its oldest: the account shows the balance the statement began with. */
  lemma {:induction false} NewestFirst(xs: StatementFile)
    requires forall i, j | 0 <= i < j < |xs| :: DayOf(xs[i]) >= DayOf(xs[j])
    requires ClosingOf(xs).Some?
    ensures forall i | 0 <= i < |xs| && xs[i].row.balance.Some? :: ClosingOf(xs).value.day <= DayOf(xs[i])
  {
    var n := |xs| - 1;
    if xs[n].row.balance.None? {
      NewestFirst(xs[..n]);
      forall i | 0 <= i < |xs| && xs[i].row.balance.Some? ensures ClosingOf(xs).value.day <= DayOf(xs[i]) {
        assert xs[..n][i] == xs[i];
      }
    }
  }

  // ----- which balance is shown -----

  lemma {:induction false} ShownDayIsBounded(a: Account, sts: seq<StatementFile>, day: int)
    requires a.asOf.None? || a.asOf.value <= day
    requires forall k | 0 <= k < |sts| :: ClosingOf(sts[k]).None? || ClosingOf(sts[k]).value.day <= day
    ensures ImportedAll(a, sts).asOf.None? || ImportedAll(a, sts).asOf.value <= day
  {
    if sts != [] {
      ShownDayIsBounded(a, sts[..|sts| - 1], day);
    }
  }

  /** Statement `k` closes on a day as late as any before it and later than any after it. */
  ghost predicate Decides(a: Account, sts: seq<StatementFile>, k: nat) {
    && k < |sts| && ClosingOf(sts[k]).Some?
    && var day := ClosingOf(sts[k]).value.day;
    && (a.asOf.None? || a.asOf.value <= day)
    && (forall j | 0 <= j < k :: ClosingOf(sts[j]).None? || ClosingOf(sts[j]).value.day <= day)
    && (forall j | k < j < |sts| :: ClosingOf(sts[j]).None? || ClosingOf(sts[j]).value.day < day)
  }

  /** Then the account shows the balance of that statement's last row with one, whatever was imported besides. */
  lemma {:induction false} ShowsClosing(a: Account, sts: seq<StatementFile>, k: nat, i: nat)
    requires Decides(a, sts, k) && LastWithBalance(sts[k], i)
    ensures var row := sts[k][i].row; ImportedAll(a, sts) == Account(row.balance.value, Some(Serial(row.date)))
  {
    var n := |sts| - 1;
    if k < n {
      assert Decides(a, sts[..n], k);
      ShowsClosing(a, sts[..n], k, i);
      ClosingIsRow(sts[k], i);
    } else {
      ClosingIsRow(sts[k], i);
      ShownDayIsBounded(a, sts[..n], ClosingOf(sts[k]).value.day);
    }
  }

  lemma ClosingIsRow(xs: StatementFile, i: nat)
    requires LastWithBalance(xs, i)
    ensures ClosingOf(xs) == Some(Closing(xs[i].row.balance.value, DayOf(xs[i])))
  {
    ScanFindsClosing(xs, Some(Closing(xs[i].row.balance.value, DayOf(xs[i]))));
  }
}
