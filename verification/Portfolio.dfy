/**
  The lazily synchronised brokerage cache of one user (internal/store/zerodha_store.go).

  An operation happens at one instant, `now`, which is both the program's and the database's clock.  The
  API answers as it likes, and any database statement may fail.  Prices and units are floats.
 */
module Portfolio {
  import opened Common
  import Balance
  import Binary64
  import Money
  import Ordering

  /** Twenty-four hours, in seconds. */
  const TTL := 86400

  datatype Holding = Holding(symbol: string, exchange: string, isin: string, quantity: int,
                             avg: real, last: real, pnl: real, dayChange: real)

  datatype EquityRow = EquityRow(symbol: string, exchange: string, isin: Option<string>, quantity: int,
                                 avgPaise: int, lastPaise: int, pnlPaise: int, dayChangePaise: int, syncedAt: int)

  datatype MfHolding = MfHolding(folio: string, fund: string, symbol: string, units: real, avgNav: real, nav: real)

  /** `units` counts ten-thousandths: the column keeps four decimals. */
  datatype MfRow = MfRow(folio: string, fund: string, symbol: string, units: int, avgNavPaise: int, navPaise: int,
                         pnlPaise: int, syncedAt: int)

  datatype Token = Token(client: string, expires: Option<int>)

  /** `linked` is the account the user is a member of; `orphans` are client codes of accounts nobody is a member of. */
  datatype State = State(token: Option<Token>, linked: Option<string>, orphans: set<string>,
                         equity: seq<EquityRow>, mf: seq<MfRow>, balance: Balance.Account)

  /** `equityAt` and `mfAt` are the inserts that fail, if any; the number of rows stands for the commit. */
  datatype Faults = Faults(token: bool, list: bool, backfill: bool, create: bool, member: bool, stamp: bool,
                           equityAt: Option<nat>, mfAt: Option<nat>, equitySum: bool, mfSum: bool, balance: bool,
                           read: bool)

  /** What one operation meets: the time, the API's answers (None is a failed fetch) and the faults. */
  datatype World = World(now: int, day: int, holdings: Option<seq<Holding>>, mfHoldings: Option<seq<MfHolding>>,
                         faults: Faults)

  /** int32(x) in Go. */
  function Int32(x: int): int { (x + 0x8000_0000) % 0x1_0000_0000 - 0x8000_0000 }

  // ----- converted answers -----

  function EquityRowOf(h: Holding, now: int): EquityRow {
    EquityRow(h.symbol, h.exchange, if h.isin != "" then Some(h.isin) else None, Int32(h.quantity),
              Money.FromRupees(h.avg), Money.FromRupees(h.last), Money.FromRupees(h.pnl),
              Money.FromRupees(h.dayChange), now)
  }

  function EquityRows(hs: seq<Holding>, now: int): (rows: seq<EquityRow>)
    ensures |rows| == |hs|
  {
    seq(|hs|, i requires 0 <= i < |hs| => EquityRowOf(hs[i], now))
  }

  /** Units are printed with four decimals, which rounds the exact value and ties to even. */
  function MfRowOf(h: MfHolding, now: int): MfRow {
    MfRow(h.folio, h.fund, h.symbol, Binary64.RoundEven(h.units * 10000.0),
          Money.FromRupees(h.avgNav), Money.FromRupees(h.nav),
          Money.FromRupees(Gain(h)), now)
  }

  function Gain(h: MfHolding): real { Binary64.FlTimes(Binary64.Fl(h.nav - h.avgNav), h.units) }

  function MfRows(hs: seq<MfHolding>, now: int): (rows: seq<MfRow>)
    ensures |rows| == |hs|
  {
    seq(|hs|, i requires 0 <= i < |hs| => MfRowOf(hs[i], now))
  }

  /** The unique keys of the two tables. */
  predicate SameEquityKey(a: Holding, b: Holding) { a.symbol == b.symbol && a.exchange == b.exchange }

  predicate SameMfKey(a: MfHolding, b: MfHolding) { a.folio == b.folio && a.symbol == b.symbol }

  /** The whole answer can be inserted: no insert nor the commit fails, and no two rows share a key. */
  predicate EquityFits(hs: seq<Holding>, faultAt: Option<nat>) {
    && (faultAt.None? || faultAt.value > |hs|)
    && forall i, j | 0 <= i < j < |hs| :: !SameEquityKey(hs[i], hs[j])
  }

  predicate MfFits(hs: seq<MfHolding>, faultAt: Option<nat>) {
    && (faultAt.None? || faultAt.value > |hs|)
    && forall i, j | 0 <= i < j < |hs| :: !SameMfKey(hs[i], hs[j])
  }

  // ----- valuation -----

  function EquityValue(rows: seq<EquityRow>): int {
    if rows == [] then 0 else EquityValue(rows[..|rows| - 1]) + rows[|rows| - 1].quantity * rows[|rows| - 1].lastPaise
  }

  /** In ten-thousandths of a paisa. */
  function MfValue(rows: seq<MfRow>): int {
    if rows == [] then 0 else MfValue(rows[..|rows| - 1]) + rows[|rows| - 1].units * rows[|rows| - 1].navPaise
  }

  /** Equity plus funds, the latter rounded to paise. A summary query that fails counts as zero. */
  function Total(s: State, f: Faults): int {
    (if f.equitySum then 0 else EquityValue(s.equity))
    + (if f.mfSum then 0 else Money.Round(MfValue(s.mf) as real / 10000.0))
  }

  // ----- the operations -----

  function LoadToken(s: State, w: World): Option<Token> {
    if w.faults.token || s.token.None? || s.token.value.expires.None? || w.now > s.token.value.expires.value then None
    else s.token
  }

  /** The account, found or made in two statements outside a transaction. */
  function FindAccount(s: State, client: string, f: Faults): (State, bool) {
    if f.list then (s, false)
    else if s.linked.Some? then
      (if client != "" && s.linked.value == "" && !f.backfill && client !in s.orphans
       then s.(linked := Some(client)) else s, true)
    else NewAccount(s, client, true, f)
  }

  /** A new account and its membership, in two statements.  `same` says that the institution is spelled as the store
      spells it; only then can the client code be taken. */
  function NewAccount(s: State, client: string, same: bool, f: Faults): (State, bool) {
    if f.create || (same && client in s.orphans) then (s, false)
    else if f.member then (if same then s.(orphans := s.orphans + {client}) else s, false)
    else (s.(linked := Some(client)), true)
  }

  function Latest(rows: seq<EquityRow>): Option<int> {
    if rows == [] then None
    else
      var r, before := rows[|rows| - 1].syncedAt, Latest(rows[..|rows| - 1]);
      Some(if before.Some? && before.value > r then before.value else r)
  }

  /** Fresh means a stamp under twenty-four hours old; without equity rows there is no stamp. */
  predicate Fresh(s: State, w: World) {
    !w.faults.stamp && Latest(s.equity).Some? && w.now - Latest(s.equity).value < TTL
  }

  function Synced(s: State, w: World): (State, bool) {
    if w.holdings.None? || !EquityFits(w.holdings.value, w.faults.equityAt) then (s, false)
    else
      var s1 := s.(equity := EquityRows(w.holdings.value, w.now));
      if w.mfHoldings.None? || !MfFits(w.mfHoldings.value, w.faults.mfAt) then (s1, false)
      else
        var s2 := s1.(mf := MfRows(w.mfHoldings.value, w.now));
        (if w.faults.balance then s2
         else s2.(balance := Balance.Update(s2.balance, Balance.Closing(Total(s2, w.faults), w.day))), true)
  }

  function EnsureFresh(s: State, w: World): (State, bool) {
    var token := LoadToken(s, w);
    if token.None? then (s, false)
    else
      var (s1, found) := FindAccount(s, token.value.client, w.faults);
      if !found then (s1, false) else if Fresh(s1, w) then (s1, true) else Synced(s1, w)
  }

  function ForceSync(s: State, w: World): (State, bool) {
    var token := LoadToken(s, w);
    if token.None? then (s, false)
    else
      var (s1, found) := FindAccount(s, token.value.client, w.faults);
      if !found then (s1, false) else Synced(s1, w)
  }

  /** `AddAccount` is the account form of the web interface and the command line. */
  datatype Op = ReadEquity | ReadFunds | Sync | SetToken(token: Token) | AddAccount(client: string, same: bool)

  /** The new state and whether the operation succeeds. */
  function Perform(s: State, op: Op, w: World): (State, bool) {
    match op
    case SetToken(t) => if w.faults.token then (s, false) else (s.(token := Some(t)), true)
    case Sync => ForceSync(s, w)
    case AddAccount(client, same) => if s.linked.Some? then (s, false) else NewAccount(s, client, same, w.faults)
    case _ => var (s1, ok) := EnsureFresh(s, w); (s1, ok && !w.faults.read)
  }

  // ----- the code -----

  class ZerodhaService {
    var token: Option<Token>
    var linked: Option<string>
    var orphans: set<string>
    var equity: seq<EquityRow>
    var mf: seq<MfRow>
    var balance: Balance.Account

    function View(): State
      reads this
    {
      State(token, linked, orphans, equity, mf, balance)
    }

    method FindOrCreateAccount(client: string, f: Faults) returns (ok: bool)
      modifies this
      ensures (View(), ok) == FindAccount(old(View()), client, f)
    {
      if f.list {
        return false;
      }
      if linked.Some? {
        if client != "" && linked.value == "" {
          if !f.backfill && client !in orphans {
            linked := Some(client);
          }
        }
        return true;
      }
      if f.create || client in orphans {
        return false;
      }
      orphans := orphans + {client};
      if f.member {
        return false;
      }
      orphans := orphans - {client};
      linked := Some(client);
      ok := true;
    }

    /** Delete, then insert row by row; any failure rolls the whole replacement back. */
    method ReplaceEquity(hs: seq<Holding>, now: int, faultAt: Option<nat>) returns (ok: bool)
      modifies this`equity
      ensures ok == EquityFits(hs, faultAt)
      ensures equity == if ok then EquityRows(hs, now) else old(equity)
    {
      var saved := equity;
      equity := [];
      for i := 0 to |hs|
        invariant equity == EquityRows(hs[..i], now)
        invariant faultAt.None? || faultAt.value >= i
        invariant forall a, b | 0 <= a < b < i :: !SameEquityKey(hs[a], hs[b])
      {
        if faultAt == Some(i) || (exists a | 0 <= a < i :: SameEquityKey(hs[a], hs[i])) {
          equity := saved;
          return false;
        }
        equity := equity + [EquityRowOf(hs[i], now)];
      }
      assert hs[..|hs|] == hs;
      if faultAt == Some(|hs|) {
        equity := saved;
        return false;
      }
      ok := true;
    }

    method ReplaceFunds(hs: seq<MfHolding>, now: int, faultAt: Option<nat>) returns (ok: bool)
      modifies this`mf
      ensures ok == MfFits(hs, faultAt)
      ensures mf == if ok then MfRows(hs, now) else old(mf)
    {
      var saved := mf;
      mf := [];
      for i := 0 to |hs|
        invariant mf == MfRows(hs[..i], now)
        invariant faultAt.None? || faultAt.value >= i
        invariant forall a, b | 0 <= a < b < i :: !SameMfKey(hs[a], hs[b])
      {
        if faultAt == Some(i) || (exists a | 0 <= a < i :: SameMfKey(hs[a], hs[i])) {
          mf := saved;
          return false;
        }
        mf := mf + [MfRowOf(hs[i], now)];
      }
      assert hs[..|hs|] == hs;
      if faultAt == Some(|hs|) {
        mf := saved;
        return false;
      }
      ok := true;
    }

    method DoSync(w: World) returns (ok: bool)
      modifies this
      ensures (View(), ok) == Synced(old(View()), w)
    {
      if w.holdings.None? {
        return false;
      }
      ok := ReplaceEquity(w.holdings.value, w.now, w.faults.equityAt);
      if !ok {
        return;
      }
      if w.mfHoldings.None? {
        return false;
      }
      ok := ReplaceFunds(w.mfHoldings.value, w.now, w.faults.mfAt);
      if !ok {
        return;
      }
      var total := Total(View(), w.faults);
      if !w.faults.balance {
        balance := Balance.Update(balance, Balance.Closing(total, w.day));
      }
    }

    method Refresh(force: bool, w: World) returns (ok: bool)
      modifies this
      ensures (View(), ok) == if force then ForceSync(old(View()), w) else EnsureFresh(old(View()), w)
    {
      if w.faults.token || token.None? {
        return false;
      }
      if token.value.expires.None? || w.now > token.value.expires.value {
        return false;
      }
      ok := FindOrCreateAccount(token.value.client, w.faults);
      if !ok {
        return;
      }
      if !force && Fresh(View(), w) {
        return true;
      }
      ok := DoSync(w);
    }

    method GetEquityHoldings(w: World, le: Ordering.Collation) returns (rows: Option<seq<EquityRow>>)
      requires Ordering.Total(le)
      modifies this
      ensures (View(), rows.Some?) == Perform(old(View()), ReadEquity, w)
      ensures rows.Some? ==> multiset(rows.value) == multiset(equity)
      ensures rows.Some? ==> Ordering.OrderedBy(rows.value, (r: EquityRow) => r.symbol, le)
    {
      var ok := Refresh(false, w);
      if !ok || w.faults.read {
        return None;
      }
      Ordering.OrderByOrders(equity, (r: EquityRow) => r.symbol, le);
      rows := Some(Ordering.OrderBy(equity, (r: EquityRow) => r.symbol, le));
    }

    method GetMFHoldings(w: World, le: Ordering.Collation) returns (rows: Option<seq<MfRow>>)
      requires Ordering.Total(le)
      modifies this
      ensures (View(), rows.Some?) == Perform(old(View()), ReadFunds, w)
      ensures rows.Some? ==> multiset(rows.value) == multiset(mf)
      ensures rows.Some? ==> Ordering.OrderedBy(rows.value, (r: MfRow) => r.fund, le)
    {
      var ok := Refresh(false, w);
      if !ok || w.faults.read {
        return None;
      }
      Ordering.OrderByOrders(mf, (r: MfRow) => r.fund, le);
      rows := Some(Ordering.OrderBy(mf, (r: MfRow) => r.fund, le));
    }
  }
}
