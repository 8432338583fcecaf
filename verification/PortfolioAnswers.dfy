/** When the operations of the portfolio cache succeed and what they store, in terms of the API's answers. */
module PortfolioAnswers {
  import opened Common
  import opened Portfolio
  import opened PortfolioTheorems
  import Balance
  import Binary64
  import Money
  import MoneyTheorems

  // ----- the rows -----

  /** `n` in 32 bits. */
  ghost predicate In32Bits(stored: int, n: int) {
    -0x8000_0000 <= stored < 0x8000_0000 && (n - stored) % 0x1_0000_0000 == 0
  }

  ghost predicate InPaise(paise: int, rupees: real) { Money.Nearest(rupees * 100.0, paise) }

  ghost predicate HoldingAsFetched(row: EquityRow, h: Holding, now: int) {
    && row.symbol == h.symbol && row.exchange == h.exchange && row.syncedAt == now
    && (if h.isin == "" then row.isin.None? else row.isin == Some(h.isin))
    && In32Bits(row.quantity, h.quantity)
    && InPaise(row.avgPaise, h.avg) && InPaise(row.lastPaise, h.last)
    && InPaise(row.pnlPaise, h.pnl) && InPaise(row.dayChangePaise, h.dayChange)
  }

  /** The gain of a fund: what a unit gained, times the units, each as a float. */
  ghost predicate GainOf(h: MfHolding, gain: real) {
    var unit := Binary64.Fl(h.nav - h.avgNav);
    Binary64.Near(h.nav - h.avgNav, unit) && NearProduct(unit, h.units, gain)
  }

  ghost predicate NearProduct(x: real, y: real, z: real) { Binary64.Near(x * y, z) }

  /** The units to four decimals, a tie going to the even digit. */
  ghost predicate ToFourDecimals(units: int, x: real) {
    && -0.5 <= x * 10000.0 - units as real <= 0.5
    && (x * 10000.0 - units as real in {-0.5, 0.5} ==> units % 2 == 0)
  }

  ghost predicate FundAsFetched(row: MfRow, h: MfHolding, now: int) {
    && row.folio == h.folio && row.fund == h.fund && row.symbol == h.symbol && row.syncedAt == now
    && ToFourDecimals(row.units, h.units)
    && InPaise(row.avgNavPaise, h.avgNav) && InPaise(row.navPaise, h.nav) && InPaise(row.pnlPaise, Gain(h))
    && GainOf(h, Gain(h))
  }

  lemma HoldingStored(h: Holding, now: int)
    ensures HoldingAsFetched(EquityRowOf(h, now), h, now)
  {
    Money.FromRupeesNearest(h.avg);
    Money.FromRupeesNearest(h.last);
    Money.FromRupeesNearest(h.pnl);
    Money.FromRupeesNearest(h.dayChange);
  }

  lemma ProductStored(x: real, y: real)
    ensures NearProduct(x, y, Binary64.FlTimes(x, y))
  {
    Binary64.FlNear(x * y);
  }

  lemma GainStored(h: MfHolding)
    ensures GainOf(h, Gain(h))
  {
    var unit := Binary64.Fl(h.nav - h.avgNav);
    Binary64.FlNear(h.nav - h.avgNav);
    ProductStored(unit, h.units);
  }

  lemma UnitsStored(h: MfHolding, now: int)
    ensures ToFourDecimals(MfRowOf(h, now).units, h.units)
  {
  }

  lemma NavsStored(h: MfHolding, now: int)
    ensures InPaise(MfRowOf(h, now).avgNavPaise, h.avgNav) && InPaise(MfRowOf(h, now).navPaise, h.nav)
    ensures InPaise(MfRowOf(h, now).pnlPaise, Gain(h))
  {
    Money.FromRupeesNearest(Gain(h));
    Money.FromRupeesNearest(h.avgNav);
    Money.FromRupeesNearest(h.nav);
  }

  lemma FundStored(h: MfHolding, now: int)
    ensures FundAsFetched(MfRowOf(h, now), h, now)
  {
    GainStored(h);
    UnitsStored(h, now);
    NavsStored(h, now);
  }

  /** The rows of an answer, one a holding, in its order. */
  lemma RowsAsFetched(holdings: seq<Holding>, funds: seq<MfHolding>, now: int)
    ensures |EquityRows(holdings, now)| == |holdings| && |MfRows(funds, now)| == |funds|
    ensures forall i | 0 <= i < |holdings| :: HoldingAsFetched(EquityRows(holdings, now)[i], holdings[i], now)
    ensures forall i | 0 <= i < |funds| :: FundAsFetched(MfRows(funds, now)[i], funds[i], now)
  {
    forall i | 0 <= i < |holdings| ensures HoldingAsFetched(EquityRows(holdings, now)[i], holdings[i], now) {
      HoldingStored(holdings[i], now);
    }
    forall i | 0 <= i < |funds| ensures FundAsFetched(MfRows(funds, now)[i], funds[i], now) {
      FundStored(funds[i], now);
    }
  }

  /** Values of whole paise are stored as themselves, each in its own column, exactly when they survive the floats. */
  lemma FundConversionIsExactIff(h: MfHolding, avg: int, nav: int, now: int)
    requires h.avgNav == Money.Rupees(avg) && h.nav == Money.Rupees(nav)
    ensures MfRowOf(h, now).avgNavPaise == avg <==> MoneyTheorems.Survives(Abs(avg))
    ensures MfRowOf(h, now).navPaise == nav <==> MoneyTheorems.Survives(Abs(nav))
  {
    MoneyTheorems.RoundTripIff(avg);
    MoneyTheorems.RoundTripIff(nav);
  }

  // ----- the token -----

  ghost predicate AsksApi(op: Op) { op == ReadEquity || op == ReadFunds || op == Sync }

  /** There is a token with an expiry that has not passed. */
  ghost predicate TokenServes(s: State, w: World) {
    !w.faults.token && s.token.Some? && s.token.value.expires.Some? && w.now <= s.token.value.expires.value
  }

  /** Without such a token nothing is read, fetched or changed. */
  lemma NoTokenFails(s: State, op: Op, w: World)
    requires AsksApi(op) && !TokenServes(s, w)
    ensures Perform(s, op, w) == (s, false)
  {
  }

  /** A token is stored as given, and only by its own operation. */
  lemma TokenIsStored(s: State, op: Op, w: World)
    ensures var (s', ok) := Perform(s, op, w);
            && (op.SetToken? ==> (ok <==> !w.faults.token) && s' == if ok then s.(token := Some(op.token)) else s)
            && (!op.SetToken? ==> s'.token == s.token)
  {
    if AsksApi(op) && TokenServes(s, w) {
      FindAccountKeepsRows(s, s.token.value.client, w.faults);
    }
  }

  ghost predicate StoresToken(trace: seq<State>, steps: seq<Step>, k: nat)
    requires k < |steps| < |trace|
  {
    steps[k].op.SetToken? && Perform(trace[k], steps[k].op, steps[k].world).1
  }

  lemma {:induction false} TokenStays(trace: seq<State>, steps: seq<Step>, i: nat, j: nat)
    requires IsRun(trace, steps) && i <= j <= |steps| && forall k | i <= k < j :: !StoresToken(trace, steps, k)
    ensures trace[j].token == trace[i].token
    decreases j
  {
    if i < j {
      TokenStays(trace, steps, i, j - 1);
      assert !StoresToken(trace, steps, j - 1);
      TokenIsStored(trace[j - 1], steps[j - 1].op, steps[j - 1].world);
    }
  }

  /** Once the stored token has run out, every read and sync fails and changes nothing, along every run until another
      token is stored. */
  lemma ExpiredUntilReplaced(trace: seq<State>, steps: seq<Step>, i: nat, j: nat)
    requires IsRun(trace, steps) && i <= j < |steps| && forall k | i <= k < j :: !StoresToken(trace, steps, k)
    requires AsksApi(steps[j].op) && !TokenServes(trace[i], steps[j].world)
    ensures Perform(trace[j], steps[j].op, steps[j].world) == (trace[j], false)
  {
    TokenStays(trace, steps, i, j);
    NoTokenFails(trace[j], steps[j].op, steps[j].world);
  }

  // ----- the account -----

  /** The user's account is found, or made with the token's client code. */
  ghost predicate AccountServes(s: State, w: World)
    requires s.token.Some?
  {
    !w.faults.list && (s.linked.Some? || (s.token.value.client !in s.orphans && !w.faults.create && !w.faults.member))
  }

  /** What becomes of the accounts: an empty client code is filled in if it can be; a missing account is made, and left
      without a member if only that insert failed. */
  ghost predicate AccountAfter(s: State, s': State, w: World)
    requires s.token.Some?
  {
    var client, f := s.token.value.client, w.faults;
    if f.list then s'.linked == s.linked && s'.orphans == s.orphans
    else if s.linked == Some("") && client !in s.orphans && !f.backfill then
      s'.linked == Some(client) && s'.orphans == s.orphans
    else if s.linked.Some? || f.create || client in s.orphans then s'.linked == s.linked && s'.orphans == s.orphans
    else if f.member then s'.linked.None? && s'.orphans == s.orphans + {client}
    else s'.linked == Some(client) && s'.orphans == s.orphans
  }

  lemma FoundIff(s: State, w: World)
    requires s.token.Some?
    ensures var (s', ok) := FindAccount(s, s.token.value.client, w.faults);
            && (ok <==> AccountServes(s, w)) && AccountAfter(s, s', w)
            && s'.equity == s.equity && s'.mf == s.mf && s'.balance == s.balance && s'.token == s.token
  {
  }

  lemma SyncedKeepsAccount(s: State, w: World)
    ensures var s' := Synced(s, w).0; s'.linked == s.linked && s'.orphans == s.orphans && s'.token == s.token
  {
  }

  /** Every read and sync with a token leaves the accounts so. */
  lemma AccountIsKept(s: State, op: Op, w: World)
    requires AsksApi(op) && TokenServes(s, w)
    ensures AccountAfter(s, Perform(s, op, w).0, w)
  {
    FoundIff(s, w);
    SyncedKeepsAccount(FindAccount(s, s.token.value.client, w.faults).0, w);
  }

  /** Adding an account by hand: refused when there is one, or when its code is taken. */
  lemma AddAccountIff(s: State, client: string, same: bool, w: World)
    ensures var (s', ok) := Perform(s, AddAccount(client, same), w);
            && (ok <==> s.linked.None? && !w.faults.create && !w.faults.member && (same ==> client !in s.orphans))
            && (ok ==> s' == s.(linked := Some(client)))
            && (!ok ==> s'.linked == s.linked && s'.equity == s.equity && s'.mf == s.mf)
  {
  }

  // ----- the sync -----

  /** The equity answer arrives, no two of its holdings share symbol and exchange, and every statement works. */
  ghost predicate EquityArrives(w: World) {
    && w.holdings.Some?
    && (forall i, j | 0 <= i < j < |w.holdings.value| ::
          w.holdings.value[i].symbol != w.holdings.value[j].symbol
          || w.holdings.value[i].exchange != w.holdings.value[j].exchange)
    && (w.faults.equityAt.Some? ==> w.faults.equityAt.value > |w.holdings.value|)
  }

  /** The same for funds, whose key is folio and symbol. */
  ghost predicate FundsArrive(w: World) {
    && w.mfHoldings.Some?
    && (forall i, j | 0 <= i < j < |w.mfHoldings.value| ::
          w.mfHoldings.value[i].folio != w.mfHoldings.value[j].folio
          || w.mfHoldings.value[i].symbol != w.mfHoldings.value[j].symbol)
    && (w.faults.mfAt.Some? ==> w.faults.mfAt.value > |w.mfHoldings.value|)
  }

  lemma EquityArrivesIff(w: World)
    ensures EquityArrives(w) <==> w.holdings.Some? && EquityFits(w.holdings.value, w.faults.equityAt)
  {
    if w.holdings.Some? {
      var hs := w.holdings.value;
      assert forall i, j | 0 <= i < j < |hs| ::
          !SameEquityKey(hs[i], hs[j]) <==> hs[i].symbol != hs[j].symbol || hs[i].exchange != hs[j].exchange;
    }
  }

  lemma FundsArriveIff(w: World)
    ensures FundsArrive(w) <==> w.mfHoldings.Some? && MfFits(w.mfHoldings.value, w.faults.mfAt)
  {
    if w.mfHoldings.Some? {
      var hs := w.mfHoldings.value;
      assert forall i, j | 0 <= i < j < |hs| ::
          !SameMfKey(hs[i], hs[j]) <==> hs[i].folio != hs[j].folio || hs[i].symbol != hs[j].symbol;
    }
  }

  ghost predicate EquityStored(s: State, w: World)
    requires w.holdings.Some?
  {
    && |s.equity| == |w.holdings.value|
    && forall i | 0 <= i < |s.equity| :: HoldingAsFetched(s.equity[i], w.holdings.value[i], w.now)
  }

  ghost predicate FundsStored(s: State, w: World)
    requires w.mfHoldings.Some?
  {
    && |s.mf| == |w.mfHoldings.value|
    && forall i | 0 <= i < |s.mf| :: FundAsFetched(s.mf[i], w.mfHoldings.value[i], w.now)
  }

  /** A sync succeeds when both halves arrive, and stores each half that arrives, funds only after equity. */
  lemma SyncStores(s: State, w: World)
    ensures var (s', ok) := Synced(s, w);
            && (ok <==> EquityArrives(w) && FundsArrive(w))
            && (EquityArrives(w) ==> EquityStored(s', w))
            && (ok ==> FundsStored(s', w))
            && (!EquityArrives(w) ==> s'.equity == s.equity)
            && (!ok ==> s'.mf == s.mf && s'.balance == s.balance)
  {
    EquityArrivesIff(w);
    FundsArriveIff(w);
    if EquityArrives(w) && FundsArrive(w) {
      RowsAsFetched(w.holdings.value, w.mfHoldings.value, w.now);
    } else if EquityArrives(w) {
      RowsAsFetched(w.holdings.value, [], w.now);
    }
  }

  // ----- when operations succeed -----

  /** The newest equity row was fetched less than twenty-four hours ago. */
  ghost predicate UnderADay(s: State, w: World) {
    !w.faults.stamp && exists i :: 0 <= i < |s.equity| && w.now - s.equity[i].syncedAt < 86400
  }

  lemma FreshIff(s: State, w: World)
    ensures Fresh(s, w) <==> UnderADay(s, w)
  {
    LatestOfRows(s.equity);
  }

  /** When a read or sync succeeds: with a token and an account, with fresh equity or a working sync; a read must also
      be able to list the rows. */
  lemma SucceedsIff(s: State, op: Op, w: World)
    requires AsksApi(op)
    ensures Perform(s, op, w).1 <==>
            && TokenServes(s, w) && AccountServes(s, w)
            && ((op != Sync && UnderADay(s, w)) || (EquityArrives(w) && FundsArrive(w)))
            && (op != Sync ==> !w.faults.read)
  {
    if TokenServes(s, w) {
      FoundIff(s, w);
      var s1 := FindAccount(s, s.token.value.client, w.faults).0;
      FreshIff(s1, w);
      SyncStores(s1, w);
    }
  }

  /** A fresh cache is not asked for: a read keeps both tables and the balance, whatever the API would say. */
  lemma FreshReadKeeps(s: State, op: Op, w: World)
    requires (op == ReadEquity || op == ReadFunds) && UnderADay(s, w)
    ensures var s' := Perform(s, op, w).0; s'.equity == s.equity && s'.mf == s.mf && s'.balance == s.balance
  {
    if TokenServes(s, w) {
      FoundIff(s, w);
      FreshIff(s, w);
      FreshIff(FindAccount(s, s.token.value.client, w.faults).0, w);
    }
  }

  /** A sync, or a read of a stale cache, that succeeds has stored both answers. */
  lemma StaleReadStores(s: State, op: Op, w: World)
    requires AsksApi(op) && (op == Sync || !UnderADay(s, w)) && Perform(s, op, w).1
    ensures w.holdings.Some? && w.mfHoldings.Some?
    ensures EquityStored(Perform(s, op, w).0, w) && FundsStored(Perform(s, op, w).0, w)
  {
    SucceedsIff(s, op, w);
    FoundIff(s, w);
    FreshIff(FindAccount(s, s.token.value.client, w.faults).0, w);
    SyncStores(FindAccount(s, s.token.value.client, w.faults).0, w);
  }

  // ----- the balance -----

  /** The sum of `f` over the first `n` indices. */
  function Sum(n: nat, f: nat -> int): int {
    if n == 0 then 0 else Sum(n - 1, f) + f(n - 1)
  }

  lemma {:induction false} SumSame(n: nat, f: nat -> int, g: nat -> int)
    requires forall i | 0 <= i < n :: f(i) == g(i)
    ensures Sum(n, f) == Sum(n, g)
  {
    if n > 0 {
      SumSame(n - 1, f, g);
    }
  }

  function Worth(rows: seq<EquityRow>): int {
    Sum(|rows|, (i: nat) => if i < |rows| then rows[i].quantity * rows[i].lastPaise else 0)
  }

  /** In ten-thousandths of a paisa. */
  function FundWorth(rows: seq<MfRow>): int {
    Sum(|rows|, (i: nat) => if i < |rows| then rows[i].units * rows[i].navPaise else 0)
  }

  lemma {:induction false} EquityValueIsWorth(rows: seq<EquityRow>)
    ensures EquityValue(rows) == Worth(rows)
  {
    if rows != [] {
      var init := rows[..|rows| - 1];
      EquityValueIsWorth(init);
      SumSame(|init|, (i: nat) => if i < |init| then init[i].quantity * init[i].lastPaise else 0,
              (i: nat) => if i < |rows| then rows[i].quantity * rows[i].lastPaise else 0);
    }
  }

  lemma {:induction false} FundValueIsWorth(rows: seq<MfRow>)
    ensures MfValue(rows) == FundWorth(rows)
  {
    if rows != [] {
      var init := rows[..|rows| - 1];
      FundValueIsWorth(init);
      SumSame(|init|, (i: nat) => if i < |init| then init[i].units * init[i].navPaise else 0,
              (i: nat) => if i < |rows| then rows[i].units * rows[i].navPaise else 0);
    }
  }

  /** After a sync the account shows, as of that day, quantity times last price over the equity rows plus units times
      NAV over the fund rows, the latter rounded once to paise; a summary that failed counts as zero.  It keeps its
      balance when that is of a later day or the update failed. */
  lemma BalanceIsWorth(s: State, w: World)
    requires Synced(s, w).1
    ensures var s' := Synced(s, w).0;
            if w.faults.balance || (s.balance.asOf.Some? && s.balance.asOf.value > w.day) then s'.balance == s.balance
            else
              && s'.balance.asOf == Some(w.day)
              && var funds := s'.balance.balance - if w.faults.equitySum then 0 else Worth(s'.equity);
                 if w.faults.mfSum then funds == 0 else FundsRounded(funds, FundWorth(s'.mf))
  {
    var s' := Synced(s, w).0;
    EquityValueIsWorth(s'.equity);
    FundValueIsWorth(s'.mf);
    RoundedWorth(FundWorth(s'.mf));
  }

  /** The nearest paisa, halves away from zero. */
  ghost predicate FundsRounded(paise: int, worth: int) {
    && -5000 <= worth - 10000 * paise <= 5000
    && (worth - 10000 * paise == 5000 ==> paise < 0)
    && (worth - 10000 * paise == -5000 ==> paise > 0)
  }

  lemma RoundedWorth(worth: int)
    ensures FundsRounded(Money.Round(worth as real / 10000.0), worth)
  {
  }
}
