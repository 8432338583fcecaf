/** What every run of the portfolio cache guarantees, and where the funds half falls short. */
module PortfolioTheorems {
  import opened Common
  import opened Portfolio
  import Balance
  import Money
  import MoneyTheorems

  // ----- runs -----

  datatype Step = Step(op: Op, world: World)

  /** Any operations in any worlds, from an empty cache. */
  ghost predicate IsRun(trace: seq<State>, steps: seq<Step>) {
    && |trace| == |steps| + 1
    && trace[0].equity == [] && trace[0].mf == []
    && forall i | 0 <= i < |steps| :: trace[i + 1] == Perform(trace[i], steps[i].op, steps[i].world).0
  }

  /** The operation gets as far as asking the API. */
  predicate Syncs(s: State, op: Op, w: World) {
    && (op.ReadEquity? || op.ReadFunds? || op.Sync?)
    && LoadToken(s, w).Some?
    && var (s1, found) := FindAccount(s, LoadToken(s, w).value.client, w.faults);
    && found && (op.Sync? || !Fresh(s1, w))
  }

  lemma NewAccountKeepsRows(s: State, client: string, same: bool, f: Faults)
    ensures var s1 := NewAccount(s, client, same, f).0; s1.equity == s.equity && s1.mf == s.mf && s1.token == s.token
  {
  }

  lemma FindAccountKeepsRows(s: State, client: string, f: Faults)
    ensures var s1 := FindAccount(s, client, f).0; s1.equity == s.equity && s1.mf == s.mf && s1.token == s.token
  {
    NewAccountKeepsRows(s, client, true, f);
  }

  /** An operation that does not ask the API keeps both tables. */
  lemma OnlySyncsReplace(s: State, op: Op, w: World)
    requires !Syncs(s, op, w)
    ensures Perform(s, op, w).0.equity == s.equity && Perform(s, op, w).0.mf == s.mf
  {
    if op.AddAccount? {
      NewAccountKeepsRows(s, op.client, op.same, w.faults);
    } else if LoadToken(s, w).Some? {
      FindAccountKeepsRows(s, LoadToken(s, w).value.client, w.faults);
    }
  }

  lemma SyncEffect(s: State, op: Op, w: World)
    requires Syncs(s, op, w)
    ensures var s1 := FindAccount(s, LoadToken(s, w).value.client, w.faults).0;
            && s1.equity == s.equity && s1.mf == s.mf
            && Perform(s, op, w).0 == Synced(s1, w).0
  {
    FindAccountKeepsRows(s, LoadToken(s, w).value.client, w.faults);
  }

  /** The operation asks the API and stores the equity half of its answer. */
  predicate StoresEquity(s: State, op: Op, w: World) {
    Syncs(s, op, w) && w.holdings.Some? && EquityFits(w.holdings.value, w.faults.equityAt)
  }

  /** It then asks for the funds and stores them too. */
  predicate StoresFunds(s: State, op: Op, w: World) {
    StoresEquity(s, op, w) && w.mfHoldings.Some? && MfFits(w.mfHoldings.value, w.faults.mfAt)
  }

  /** One operation keeps a table unless it fetched and stored a whole answer, which then is the table. */
  lemma PerformStores(s: State, op: Op, w: World)
    ensures var s' := Perform(s, op, w).0;
            && s'.equity == (if StoresEquity(s, op, w) then EquityRows(w.holdings.value, w.now) else s.equity)
            && s'.mf == (if StoresFunds(s, op, w) then MfRows(w.mfHoldings.value, w.now) else s.mf)
  {
    if Syncs(s, op, w) {
      SyncEffect(s, op, w);
    } else {
      OnlySyncsReplace(s, op, w);
    }
  }

  predicate StoresEquityAt(trace: seq<State>, steps: seq<Step>, i: nat)
    requires i < |steps| < |trace|
  {
    StoresEquity(trace[i], steps[i].op, steps[i].world)
  }

  predicate StoresFundsAt(trace: seq<State>, steps: seq<Step>, i: nat)
    requires i < |steps| < |trace|
  {
    StoresFunds(trace[i], steps[i].op, steps[i].world)
  }

  /** `last` is the last of the first `n` steps to store equity, if any did. */
  ghost predicate LastEquity(trace: seq<State>, steps: seq<Step>, n: nat, last: Option<nat>)
    requires n <= |steps| < |trace|
  {
    && (last.Some? ==> last.value < n && StoresEquityAt(trace, steps, last.value))
    && forall i | (if last.Some? then last.value + 1 else 0) <= i < n :: !StoresEquityAt(trace, steps, i)
  }

  ghost predicate LastFunds(trace: seq<State>, steps: seq<Step>, n: nat, last: Option<nat>)
    requires n <= |steps| < |trace|
  {
    && (last.Some? ==> last.value < n && StoresFundsAt(trace, steps, last.value))
    && forall i | (if last.Some? then last.value + 1 else 0) <= i < n :: !StoresFundsAt(trace, steps, i)
  }

  lemma {:induction false} EquityIsLastAnswer(trace: seq<State>, steps: seq<Step>, n: nat) returns (e: Option<nat>)
    requires IsRun(trace, steps) && n < |trace|
    ensures LastEquity(trace, steps, n, e)
    ensures trace[n].equity ==
            if e.None? then [] else EquityRows(steps[e.value].world.holdings.value, steps[e.value].world.now)
  {
    if n == 0 {
      e := None;
    } else {
      e := EquityIsLastAnswer(trace, steps, n - 1);
      PerformStores(trace[n - 1], steps[n - 1].op, steps[n - 1].world);
      if StoresEquityAt(trace, steps, n - 1) {
        e := Some(n - 1);
      }
    }
  }

  lemma {:induction false} FundsAreLastAnswer(trace: seq<State>, steps: seq<Step>, n: nat) returns (f: Option<nat>)
    requires IsRun(trace, steps) && n < |trace|
    ensures LastFunds(trace, steps, n, f)
    ensures trace[n].mf ==
            if f.None? then [] else MfRows(steps[f.value].world.mfHoldings.value, steps[f.value].world.now)
  {
    if n == 0 {
      f := None;
    } else {
      f := FundsAreLastAnswer(trace, steps, n - 1);
      PerformStores(trace[n - 1], steps[n - 1].op, steps[n - 1].world);
      if StoresFundsAt(trace, steps, n - 1) {
        f := Some(n - 1);
      }
    }
  }

  /** In every run each table is exactly the answer fetched by the last step that stored it, whole, converted and under
      that step's stamp, or empty if no step did: never a mixture, never a partial one, never one nobody fetched. */
  lemma TablesAreWholeAnswers(trace: seq<State>, steps: seq<Step>, n: nat) returns (e: Option<nat>, f: Option<nat>)
    requires IsRun(trace, steps) && n < |trace|
    ensures LastEquity(trace, steps, n, e) && LastFunds(trace, steps, n, f)
    ensures trace[n].equity ==
            if e.None? then [] else EquityRows(steps[e.value].world.holdings.value, steps[e.value].world.now)
    ensures trace[n].mf ==
            if f.None? then [] else MfRows(steps[f.value].world.mfHoldings.value, steps[f.value].world.now)
  {
    e := EquityIsLastAnswer(trace, steps, n);
    f := FundsAreLastAnswer(trace, steps, n);
  }

  /** Prices of whole paise, as floats, are stored as themselves, each in its own column, exactly when they survive
      the float chain: always below 2^45 rupees. */
  lemma ConversionIsExactIff(h: Holding, avg: int, last: int, pnl: int, day: int, now: int)
    requires h.avg == Money.Rupees(avg) && h.last == Money.Rupees(last) && h.pnl == Money.Rupees(pnl)
    requires h.dayChange == Money.Rupees(day)
    ensures var row := EquityRowOf(h, now);
            && (row.avgPaise == avg <==> MoneyTheorems.Survives(Abs(avg)))
            && (row.lastPaise == last <==> MoneyTheorems.Survives(Abs(last)))
            && (row.pnlPaise == pnl <==> MoneyTheorems.Survives(Abs(pnl)))
            && (row.dayChangePaise == day <==> MoneyTheorems.Survives(Abs(day)))
            && (row.quantity == h.quantity <==> -0x8000_0000 <= h.quantity < 0x8000_0000)
            && row.symbol == h.symbol && row.exchange == h.exchange && row.syncedAt == now
            && (row.isin.Some? ==> row.isin.value == h.isin) && (row.isin.None? <==> h.isin == "")
  {
    MoneyTheorems.RoundTripIff(avg);
    MoneyTheorems.RoundTripIff(last);
    MoneyTheorems.RoundTripIff(pnl);
    MoneyTheorems.RoundTripIff(day);
  }

  // ----- freshness of equity -----

  predicate Young(stamp: int, now: int) { now - stamp < TTL }

  predicate EquityYoung(rows: seq<EquityRow>, now: int) {
    forall i | 0 <= i < |rows| :: Young(rows[i].syncedAt, now)
  }

  predicate FundsYoung(rows: seq<MfRow>, now: int) {
    forall i | 0 <= i < |rows| :: Young(rows[i].syncedAt, now)
  }

  lemma {:induction false} LatestOfRows(rows: seq<EquityRow>)
    ensures Latest(rows).None? <==> rows == []
    ensures Latest(rows).Some? ==> forall i | 0 <= i < |rows| :: rows[i].syncedAt <= Latest(rows).value
    ensures Latest(rows).Some? ==> exists i :: 0 <= i < |rows| && rows[i].syncedAt == Latest(rows).value
  {
    if rows != [] {
      LatestOfRows(rows[..|rows| - 1]);
    }
  }

  ghost predicate OneStamp(rows: seq<EquityRow>) {
    forall i, j | 0 <= i < |rows| && 0 <= j < |rows| :: rows[i].syncedAt == rows[j].syncedAt
  }

  lemma RunOneStamp(trace: seq<State>, steps: seq<Step>, n: nat)
    requires IsRun(trace, steps) && n < |trace|
    ensures OneStamp(trace[n].equity)
  {
    var e := EquityIsLastAnswer(trace, steps, n);
  }

  /** A successful equity read returns only rows under twenty-four hours old; if it returns none, the API said so
      in that very read. */
  lemma EquityReadIsFresh(trace: seq<State>, steps: seq<Step>, n: nat)
    requires IsRun(trace, steps) && n < |steps|
    requires steps[n].op.ReadEquity? && Perform(trace[n], steps[n].op, steps[n].world).1
    ensures var rows, w := trace[n + 1].equity, steps[n].world;
            && EquityYoung(rows, w.now)
            && (rows == [] ==> w.holdings == Some([]))
  {
    RunOneStamp(trace, steps, n);
    LatestOfRows(trace[n].equity);
  }

  /** An empty equity portfolio is never fresh: every successful read of either kind goes to the API for both halves. */
  lemma EmptyEquityAlwaysSyncs(s: State, op: Op, w: World)
    requires s.equity == [] && (op.ReadEquity? || op.ReadFunds?) && Perform(s, op, w).1
    ensures var s' := Perform(s, op, w).0;
            && w.holdings.Some? && s'.equity == EquityRows(w.holdings.value, w.now)
            && w.mfHoldings.Some? && s'.mf == MfRows(w.mfHoldings.value, w.now)
  {
  }

  // ----- freshness of funds, which is judged by the equity stamp -----

  /** No fund row is older than the newest equity row. */
  ghost predicate FundsKeepUp(s: State) {
    Latest(s.equity).Some? ==> forall i | 0 <= i < |s.mf| :: s.mf[i].syncedAt >= Latest(s.equity).value
  }

  /** The equity half of a sync would be stored and the fund half would fail. */
  predicate HalfSync(w: World) {
    && w.holdings.Some? && EquityFits(w.holdings.value, w.faults.equityAt)
    && (w.mfHoldings.None? || !MfFits(w.mfHoldings.value, w.faults.mfAt))
  }

  lemma SyncKeepsUp(s: State, w: World)
    requires FundsKeepUp(s) && !HalfSync(w)
    ensures FundsKeepUp(Synced(s, w).0)
  {
    if Synced(s, w).1 {
      LatestOfRows(EquityRows(w.holdings.value, w.now));
    }
  }

  /** Funds keep up with equity through every operation, except one whose sync stores equity and fails on funds. */
  lemma FundsKeepUpUnlessHalfSynced(s: State, op: Op, w: World)
    requires FundsKeepUp(s) && (Syncs(s, op, w) ==> !HalfSync(w))
    ensures FundsKeepUp(Perform(s, op, w).0)
  {
    if Syncs(s, op, w) {
      SyncEffect(s, op, w);
      SyncKeepsUp(FindAccount(s, LoadToken(s, w).value.client, w.faults).0, w);
    } else {
      OnlySyncsReplace(s, op, w);
    }
  }

  /** That one leaves them behind as soon as a fund row is older than the answer and there is any equity. */
  lemma HalfSyncFallsBehindIff(s: State, w: World)
    requires HalfSync(w)
    ensures !Synced(s, w).1 && Synced(s, w).0.mf == s.mf
    ensures FundsKeepUp(Synced(s, w).0) <==>
            w.holdings.value == [] || forall i | 0 <= i < |s.mf| :: s.mf[i].syncedAt >= w.now
  {
    LatestOfRows(EquityRows(w.holdings.value, w.now));
  }

  lemma ReadEffect(s: State, w: World)
    requires Perform(s, ReadFunds, w).1
    ensures var s' := Perform(s, ReadFunds, w).0;
            if Fresh(s, w) then s'.mf == s.mf && s'.equity == s.equity
            else w.mfHoldings.Some? && s'.mf == MfRows(w.mfHoldings.value, w.now)
  {
    FindAccountKeepsRows(s, s.token.value.client, w.faults);
  }

  /** A successful fund read serves only rows under a day old exactly when equity is stale at that moment or the
      stored fund rows are themselves young: when equity is fresh they are served whatever their age. */
  lemma FundsReadIsFreshIff(s: State, w: World)
    requires Perform(s, ReadFunds, w).1
    ensures FundsYoung(Perform(s, ReadFunds, w).0.mf, w.now) <==> !Fresh(s, w) || FundsYoung(s.mf, w.now)
  {
    ReadEffect(s, w);
  }

  /** While the funds keep up, a successful fund read is as fresh as an equity read. */
  lemma FundsReadIsFresh(s: State, w: World)
    requires FundsKeepUp(s) && Perform(s, ReadFunds, w).1
    ensures FundsYoung(Perform(s, ReadFunds, w).0.mf, w.now)
  {
    ReadEffect(s, w);
  }

  /** Hence in a run without half syncs every successful fund read is fresh. */
  lemma {:induction false} RunFundsFresh(trace: seq<State>, steps: seq<Step>, n: nat)
    requires IsRun(trace, steps) && n < |trace|
    requires forall i | 0 <= i < n :: Syncs(trace[i], steps[i].op, steps[i].world) ==> !HalfSync(steps[i].world)
    ensures FundsKeepUp(trace[n])
    ensures n < |steps| && steps[n].op.ReadFunds? && Perform(trace[n], steps[n].op, steps[n].world).1 ==>
              FundsYoung(trace[n + 1].mf, steps[n].world.now)
  {
    if n > 0 {
      RunFundsFresh(trace, steps, n - 1);
      FundsKeepUpUnlessHalfSynced(trace[n - 1], steps[n - 1].op, steps[n - 1].world);
    }
    if n < |steps| && steps[n].op.ReadFunds? && Perform(trace[n], steps[n].op, steps[n].world).1 {
      FundsReadIsFresh(trace[n], steps[n].world);
    }
  }

  /** A world without database faults and with a valid token for the linked account. */
  predicate Smooth(s: State, w: World) {
    && s.linked.Some? && s.token.Some? && s.token.value.expires.Some? && w.now <= s.token.value.expires.value
    && !w.faults.token && !w.faults.list && !w.faults.stamp && !w.faults.read && w.faults.equityAt.None?
  }

  /** How old funds come to be served: equity is replaced, the fund fetch fails and that read reports an error; the
      next read within a day succeeds without any fetch and returns the same old fund rows, however old. */
  lemma OldFundsAreServed(s: State, w1: World, w2: World)
    requires Smooth(s, w1) && !Fresh(s, w1)
    requires w1.holdings.Some? && w1.holdings.value != [] && EquityFits(w1.holdings.value, None) && w1.mfHoldings.None?
    requires Smooth(s, w2) && w1.now <= w2.now < w1.now + TTL
    ensures var (s1, ok1) := Perform(s, ReadFunds, w1);
            var (s2, ok2) := Perform(s1, ReadFunds, w2);
            !ok1 && ok2 && s1.mf == s.mf && s2.mf == s.mf && s1.equity == EquityRows(w1.holdings.value, w1.now)
  {
    var (s1, ok1) := Perform(s, ReadFunds, w1);
    LatestOfRows(s1.equity);
  }

  // ----- the account -----

  /** An account of `client` stands in the way: it has no member, and the user has no account. */
  predicate Blocked(s: State, client: string) {
    s.linked.None? && client in s.orphans && s.token.Some? && s.token.value.client == client
  }

  /** A step that could lift the block: a token of another client, or an account that is really added. */
  predicate Unblocks(s: State, op: Op, w: World, client: string) {
    || (op.SetToken? && op.token.client != client)
    || (op.AddAccount? && Perform(s, op, w).1)
  }

  lemma BlockedStep(s: State, op: Op, w: World, client: string)
    requires Blocked(s, client) && !Unblocks(s, op, w, client)
    ensures var (s', ok) := Perform(s, op, w);
            && (op.ReadEquity? || op.ReadFunds? || op.Sync? ==> !ok)
            && Blocked(s', client) && s'.equity == s.equity && s'.mf == s.mf
  {
  }

  /** Account and membership are made by two separate statements.  If the second alone fails, the account stays without
      a member and holds its client code: from then on every read and sync fails and both tables stay as they are,
      whatever succeeds, until a token of another client arrives or an account is added by another route. */
  lemma {:induction false} BlockedUntilUnblocked(trace: seq<State>, steps: seq<Step>, i: nat, j: nat,
                                                 client: string)
    requires IsRun(trace, steps) && i <= j < |trace| && Blocked(trace[i], client)
    requires forall k | i <= k < j :: !Unblocks(trace[k], steps[k].op, steps[k].world, client)
    ensures Blocked(trace[j], client) && trace[j].equity == trace[i].equity && trace[j].mf == trace[i].mf
    ensures j < |steps| && (steps[j].op.ReadEquity? || steps[j].op.ReadFunds? || steps[j].op.Sync?) ==>
              !Perform(trace[j], steps[j].op, steps[j].world).1
    decreases j
  {
    if i < j {
      BlockedUntilUnblocked(trace, steps, i, j - 1, client);
      BlockedStep(trace[j - 1], steps[j - 1].op, steps[j - 1].world, client);
    }
    if j < |steps| && !Unblocks(trace[j], steps[j].op, steps[j].world, client) {
      BlockedStep(trace[j], steps[j].op, steps[j].world, client);
    }
  }

  /** How the block arises: a read or sync with a new client code, when the membership insert alone fails. */
  lemma BlockArisesIff(s: State, op: Op, w: World)
    requires op.ReadEquity? || op.ReadFunds? || op.Sync?
    requires LoadToken(s, w).Some? && s.token.value.client !in s.orphans && s.linked.None?
    ensures Blocked(Perform(s, op, w).0, s.token.value.client)
            <==> !w.faults.list && !w.faults.create && w.faults.member
  {
    if !w.faults.list && !w.faults.create && !w.faults.member {
      SyncedKeepsLink(FindAccount(s, s.token.value.client, w.faults).0, w);
    }
  }

  lemma SyncedKeepsLink(s: State, w: World)
    ensures Synced(s, w).0.linked == s.linked
  {
  }

  /** An added account lifts it, under any client code that is not taken or any other spelling of the institution. */
  lemma AddedAccountUnblocks(s: State, w: World, client: string, added: string, same: bool)
    requires Blocked(s, client)
    ensures var (s', ok) := Perform(s, AddAccount(added, same), w);
            && (ok <==> !w.faults.create && !w.faults.member && (same ==> added !in s.orphans))
            && (ok ==> forall f: Faults | !f.list :: FindAccount(s', client, f).1)
  {
  }

  // ----- the balance -----

  /** After a completed sync the account shows the value of the rows just stored, if the date guard lets it and both
      summaries were read; a summary that failed silently counts as zero. */
  lemma BalanceAfterSync(s: State, w: World)
    requires Synced(s, w).1 && !w.faults.balance && Balance.Applies(s.balance, Balance.Closing(0, w.day))
    ensures var s' := Synced(s, w).0;
            var value := EquityValue(s'.equity) + Money.Round(MfValue(s'.mf) as real / 10000.0);
            && s'.balance.asOf == Some(w.day)
            && (s'.balance.balance == value <==>
                  (if w.faults.equitySum then EquityValue(s'.equity) else 0)
                  + (if w.faults.mfSum then Money.Round(MfValue(s'.mf) as real / 10000.0) else 0) == 0)
  {
  }
}
