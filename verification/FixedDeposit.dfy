/**
  Fixed deposits: the manage_fd tool (internal/tools/manage_fd.go) over the transactional store
  (internal/store/fd_store.go) and its SQL (internal/sqlc/fixed_deposits.sql.go).

  Tables are maps from generated ids.  A statement may fail for its own reasons (no such row, a taken
  institution and account number) or because the database says so (`Faults`).  Text dates arrive parsed;
  an id or user text that does not parse is one that matches no row.  Amounts and rates are floats.
 */
module FixedDeposit {
  import opened Common
  import opened Calendar
  import Decimal
  import Money

  type User = string

  datatype Payout = Cumulative | Monthly | Quarterly | Annual
  datatype Renewal = NoRenewal | PrincipalOnly | PrincipalAndInterest
  datatype Status = Active | Matured | PrematurelyClosed | Renewed

  datatype FD = FD(
    user: User, account: nat, bankNumber: Option<string>,
    principal: int, rateBps: int, tenure: int,
    start: Date, maturity: Date, expected: int, paidOut: int,
    payout: Payout, renewal: Renewal, status: Status, renewedFrom: Option<nat>, notes: Option<string>)

  /** The bank's number, or a generated one. */
  datatype ExternalId = Given(number: string) | Generated(n: nat)

  datatype Account = Account(institution: string, external: ExternalId, name: string)

  datatype Db = Db(accounts: map<nat, Account>, members: set<(nat, User)>, fds: map<nat, FD>,
                   nextAccount: nat, nextFd: nat)

  datatype Reply = Ok(id: nat) | Error(reason: string)

  /** Which statements the database refuses. */
  datatype Faults = Faults(get: bool, begin: bool, mark: bool, account: bool, member: bool, insert: bool, commit: bool)

  const NO_FAULTS := Faults(false, false, false, false, false, false, false)

  /** int16(x) in Go. */
  function Int16(x: int): int { (x + 0x8000) % 0x1_0000 - 0x8000 }

  // ----- the store -----

  datatype NewFD = NewFD(
    user: User, institution: string, accountName: string, bankNumber: Option<string>,
    principal: int, rateBps: int, tenure: int, start: Date, maturity: Date, expected: int,
    payout: Payout, renewal: Renewal, notes: Option<string>)

  function ExternalOf(bankNumber: Option<string>, next: nat): ExternalId {
    if bankNumber.Some? && bankNumber.value != "" then Given(bankNumber.value) else Generated(next)
  }

  predicate Taken(db: Db, institution: string, external: ExternalId) {
    exists a | a in db.accounts :: db.accounts[a].institution == institution && db.accounts[a].external == external
  }

  function RowOf(p: NewFD, account: nat, parent: Option<nat>): FD {
    FD(p.user, account, p.bankNumber, p.principal, p.rateBps, p.tenure, p.start, p.maturity, p.expected, 0,
       p.payout, p.renewal, Active, parent, p.notes)
  }

  predicate Owns(db: Db, id: nat, user: User) {
    id in db.fds && db.fds[id].user == user
  }

  /** The tables with one more account and deposit. */
  function WithNew(db: Db, p: NewFD, parent: Option<nat>): Db {
    Db(db.accounts[db.nextAccount := Account(p.institution, ExternalOf(p.bankNumber, db.nextAccount), p.accountName)],
       db.members + {(db.nextAccount, p.user)},
       db.fds[db.nextFd := RowOf(p, db.nextAccount, parent)],
       db.nextAccount + 1, db.nextFd + 1)
  }

  function Marked(db: Db, id: nat, status: Status, paidOut: int): Db
    requires id in db.fds
  {
    db.(fds := db.fds[id := db.fds[id].(status := status, paidOut := paidOut)])
  }

  /** A parent, if one is named, must exist. */
  predicate NoSuchParent(db: Db, parent: Option<nat>) { parent.Some? && parent.value !in db.fds }

  /** Creation is one step: account, member and deposit together, or nothing. */
  function Created(db: Db, p: NewFD, parent: Option<nat>, f: Faults): (Db, Reply) {
    if f.begin || f.account || f.member || f.insert || f.commit || NoSuchParent(db, parent)
       || Taken(db, p.institution, ExternalOf(p.bankNumber, db.nextAccount))
    then (db, Error("create fd"))
    else (WithNew(db, p, parent), Ok(db.nextFd))
  }

  /** Renewal is one step: the parent is marked and the child created, or nothing. */
  function RenewedFD(db: Db, prior: nat, paidOut: int, p: NewFD, f: Faults): (Db, Reply) {
    if f.begin || f.mark || f.account || f.member || f.insert || f.commit
       || !Owns(db, prior, p.user) || Taken(db, p.institution, ExternalOf(p.bankNumber, db.nextAccount))
    then (db, Error("renew fd"))
    else (WithNew(Marked(db, prior, Renewed, paidOut), p, Some(prior)), Ok(db.nextFd))
  }

  function StatusUpdated(db: Db, id: nat, user: User, status: Status, paidOut: int, f: Faults): (Db, Reply) {
    if f.mark || !Owns(db, id, user) then (db, Error("update fd")) else (Marked(db, id, status, paidOut), Ok(id))
  }

  class FDStore {
    var accounts: map<nat, Account>
    var members: set<(nat, User)>
    var fds: map<nat, FD>
    var nextAccount: nat
    var nextFd: nat

    function View(): Db
      reads this
    {
      Db(accounts, members, fds, nextAccount, nextFd)
    }

    constructor ()
      ensures View() == Db(map[], {}, map[], 0, 0)
    {
      accounts, members, fds, nextAccount, nextFd := map[], {}, map[], 0, 0;
    }

    /** The rollback every transaction is given; after a commit it is not reached. */
    method Rollback(saved: Db)
      modifies this
      ensures View() == saved
    {
      accounts, members, fds := saved.accounts, saved.members, saved.fds;
      nextAccount, nextFd := saved.nextAccount, saved.nextFd;
    }

    method CreateAccount(institution: string, external: ExternalId, name: string, fault: bool) returns (id: Option<nat>)
      modifies this
      ensures id.None? <==> fault || Taken(old(View()), institution, external)
      ensures id.None? ==> View() == old(View())
      ensures id.Some? ==> id.value == old(nextAccount)
      ensures id.Some? ==>
                View() == old(View()).(accounts := old(accounts)[id.value := Account(institution, external, name)],
                                       nextAccount := old(nextAccount) + 1)
    {
      if fault || Taken(View(), institution, external) {
        return None;
      }
      accounts := accounts[nextAccount := Account(institution, external, name)];
      id := Some(nextAccount);
      nextAccount := nextAccount + 1;
    }

    method CreateWithAccount(p: NewFD, parent: Option<nat>, f: Faults) returns (r: Reply)
      modifies this
      ensures (View(), r) == Created(old(View()), p, parent, f)
    {
      if f.begin {
        return Error("create fd");
      }
      var saved := View();
      r := InsertRows(p, parent, f);
      if r.Error? || f.commit {
        Rollback(saved);
        return Error("create fd");
      }
    }

    /** The three inserts both transactions end with; on failure the transaction is left half done. */
    method InsertRows(p: NewFD, parent: Option<nat>, f: Faults) returns (r: Reply)
      modifies this
      ensures r.Error? <==> f.account || f.member || f.insert || NoSuchParent(old(View()), parent)
                            || Taken(old(View()), p.institution, ExternalOf(p.bankNumber, old(nextAccount)))
      ensures r.Ok? ==> View() == WithNew(old(View()), p, parent) && r.id == old(nextFd)
    {
      var account := CreateAccount(p.institution, ExternalOf(p.bankNumber, nextAccount), p.accountName, f.account);
      if account.None? || f.member {
        return Error("insert");
      }
      members := members + {(account.value, p.user)};
      if f.insert || (parent.Some? && parent.value !in fds) {
        return Error("insert");
      }
      fds := fds[nextFd := RowOf(p, account.value, parent)];
      r := Ok(nextFd);
      nextFd := nextFd + 1;
    }

    method RenewFD(prior: nat, paidOut: int, p: NewFD, f: Faults) returns (r: Reply)
      modifies this
      ensures (View(), r) == RenewedFD(old(View()), prior, paidOut, p, f)
    {
      if f.begin {
        return Error("renew fd");
      }
      var saved := View();
      if f.mark || prior !in fds || fds[prior].user != p.user {
        return Error("renew fd");
      }
      fds := fds[prior := fds[prior].(status := Renewed, paidOut := paidOut)];
      assert View() == Marked(saved, prior, Renewed, paidOut);
      r := InsertRows(p, Some(prior), f);
      if r.Error? || f.commit {
        Rollback(saved);
        return Error("renew fd");
      }
    }

    method Get(id: nat, user: User, fault: bool) returns (fd: Option<FD>)
      ensures fd == if fault || !Owns(View(), id, user) then None else Some(fds[id])
    {
      if fault || id !in fds || fds[id].user != user {
        return None;
      }
      fd := Some(fds[id]);
    }

    method UpdateStatus(id: nat, user: User, status: Status, paidOut: int, f: Faults) returns (r: Reply)
      modifies this
      ensures (View(), r) == StatusUpdated(old(View()), id, user, status, paidOut, f)
    {
      if f.mark || id !in fds || fds[id].user != user {
        return Error("update fd");
      }
      fds := fds[id := fds[id].(status := status, paidOut := paidOut)];
      r := Ok(id);
    }
  }

  // ----- the tool -----

  datatype Args = Args(
    action: string, user: User, fdId: Option<nat>,
    institution: string, accountName: string, bankNumber: string,
    principal: real, rate: real, tenure: int,
    start: Option<Date>, maturity: Option<Date>, expected: real,
    payout: string, renewal: string, notes: string,
    paidOut: real, newRate: real, newTenure: int, newBankNumber: string)

  function OrElse(a: string, b: string): string { if a != "" then a else b }

  function Maybe(s: string): Option<string> { if s != "" then Some(s) else None }

  function ParsePayout(s: string): Option<Payout> {
    if s == "" || s == "cumulative" then Some(Cumulative)
    else if s == "monthly" then Some(Monthly)
    else if s == "quarterly" then Some(Quarterly)
    else if s == "annual" then Some(Annual)
    else None
  }

  function ParseRenewal(s: string): Option<Renewal> {
    if s == "" || s == "none" then Some(NoRenewal)
    else if s == "principal_only" then Some(PrincipalOnly)
    else if s == "principal_and_interest" then Some(PrincipalAndInterest)
    else None
  }

  function DefaultName(institution: string, tenure: int, suffix: string): string {
    institution + " FD " + Decimal.FormatInt(tenure) + "M" + suffix
  }

  /** int16(math.Round(rate * 100)). */
  function BasisPoints(rate: real): int { Int16(Money.FromRupees(rate)) }

  predicate CreateArgsOk(a: Args) {
    && a.institution != "" && a.principal > 0.0 && 0.0 < a.rate <= 30.0 && a.tenure > 0
    && a.start.Some? && Valid(a.start.value) && a.maturity.Some? && Valid(a.maturity.value)
    && ParsePayout(a.payout).Some? && ParseRenewal(a.renewal).Some?
  }

  function NewFromArgs(a: Args, user: User): NewFD
    requires CreateArgsOk(a)
  {
    NewFD(user, a.institution, OrElse(a.accountName, DefaultName(a.institution, a.tenure, "")), Maybe(a.bankNumber),
          Money.FromRupees(a.principal), BasisPoints(a.rate), Int16(a.tenure),
          a.start.value, a.maturity.value, Money.FromRupees(a.expected),
          ParsePayout(a.payout).value, ParseRenewal(a.renewal).value, Maybe(a.notes))
  }

  predicate RenewArgsOk(a: Args) {
    a.fdId.Some? && 0.0 < a.newRate <= 30.0 && a.newTenure > 0 && a.paidOut > 0.0 && a.institution != ""
  }

  /** The next term: it starts when the old one matures and lasts `newTenure` months. */
  function NextTerm(prior: FD, a: Args): NewFD
    requires RenewArgsOk(a) && Valid(prior.maturity)
  {
    NewFD(prior.user, a.institution, OrElse(a.accountName, DefaultName(a.institution, a.newTenure, " (renewal)")),
          Maybe(a.newBankNumber),
          if prior.renewal.PrincipalOnly? then prior.principal else Money.FromRupees(a.paidOut),
          BasisPoints(a.newRate), Int16(a.newTenure),
          prior.maturity, AddMonths(prior.maturity, a.newTenure), 0, prior.payout, prior.renewal, None)
  }

  /** Every stored date is a calendar date. */
  predicate DatesOk(db: Db) {
    forall id | id in db.fds :: Valid(db.fds[id].start) && Valid(db.fds[id].maturity)
  }

  /** One tool call. */
  function Execute(db: Db, currentUser: User, a: Args, f: Faults): (Db, Reply)
    requires DatesOk(db)
  {
    var user := OrElse(a.user, currentUser);
    if a.action == "create" then
      if CreateArgsOk(a) then Created(db, NewFromArgs(a, user), None, f) else (db, Error("create"))
    else if a.action == "mark_matured" || a.action == "mark_prematurely_closed" then
      if a.fdId.None? then (db, Error("fd_id is required"))
      else StatusUpdated(db, a.fdId.value, user, if a.action == "mark_matured" then Matured else PrematurelyClosed,
                         Money.FromRupees(a.paidOut), f)
    else if a.action == "mark_renewed" then
      if !RenewArgsOk(a) || f.get || !Owns(db, a.fdId.value, user) then (db, Error("renew"))
      else RenewedFD(db, a.fdId.value, Money.FromRupees(a.paidOut), NextTerm(db.fds[a.fdId.value], a), f)
    else (db, Error("unknown action"))
  }

  class ManageFD {
    const userID: User
    const fds: FDStore

    constructor (userID: User, fds: FDStore)
      ensures this.userID == userID && this.fds == fds
    {
      this.userID, this.fds := userID, fds;
    }

    method Run(a: Args, f: Faults) returns (r: Reply)
      requires DatesOk(fds.View())
      modifies fds
      ensures fds.View() == Execute(old(fds.View()), userID, a, f).0
      ensures r.Ok? <==> Execute(old(fds.View()), userID, a, f).1.Ok?
      ensures r.Ok? ==> r == Execute(old(fds.View()), userID, a, f).1
    {
      var user := OrElse(a.user, userID);
      match a.action {
        case "create" => r := Create(user, a, f);
        case "mark_matured" => r := Update(user, a, Matured, f);
        case "mark_prematurely_closed" => r := Update(user, a, PrematurelyClosed, f);
        case "mark_renewed" => r := Renew(user, a, f);
        case _ => r := Error("unknown action");
      }
    }

    method Create(user: User, a: Args, f: Faults) returns (r: Reply)
      modifies fds
      ensures if CreateArgsOk(a) then (fds.View(), r) == Created(old(fds.View()), NewFromArgs(a, user), None, f)
              else fds.View() == old(fds.View()) && r.Error?
    {
      if a.institution == "" { return Error("institution is required"); }
      if a.principal <= 0.0 { return Error("principal_amount is required"); }
      if a.rate <= 0.0 { return Error("interest_rate is required"); }
      if a.rate > 30.0 { return Error("interest_rate is unreasonably high"); }
      if a.tenure <= 0 { return Error("tenure_months is required"); }
      if a.start.None? || !Valid(a.start.value) { return Error("invalid start_date"); }
      if a.maturity.None? || !Valid(a.maturity.value) { return Error("invalid maturity_date"); }
      var payout := Cumulative;
      if a.payout != "" {
        if ParsePayout(a.payout).None? { return Error("invalid interest_payout"); }
        payout := ParsePayout(a.payout).value;
      }
      var renewal := NoRenewal;
      if a.renewal != "" {
        if ParseRenewal(a.renewal).None? { return Error("invalid auto_renewal_type"); }
        renewal := ParseRenewal(a.renewal).value;
      }
      var name := OrElse(a.accountName, DefaultName(a.institution, a.tenure, ""));
      r := fds.CreateWithAccount(
        NewFD(user, a.institution, name, Maybe(a.bankNumber), Money.FromRupees(a.principal),
              BasisPoints(a.rate), Int16(a.tenure), a.start.value, a.maturity.value,
              Money.FromRupees(a.expected), payout, renewal, Maybe(a.notes)), None, f);
    }

    method Update(user: User, a: Args, status: Status, f: Faults) returns (r: Reply)
      modifies fds
      ensures if a.fdId.None? then fds.View() == old(fds.View()) && r.Error?
              else (fds.View(), r)
                   == StatusUpdated(old(fds.View()), a.fdId.value, user, status, Money.FromRupees(a.paidOut), f)
    {
      if a.fdId.None? { return Error("fd_id is required"); }
      r := fds.UpdateStatus(a.fdId.value, user, status, Money.FromRupees(a.paidOut), f);
    }

    method Renew(user: User, a: Args, f: Faults) returns (r: Reply)
      requires DatesOk(fds.View())
      modifies fds
      ensures if !RenewArgsOk(a) || f.get || !Owns(old(fds.View()), a.fdId.value, user)
              then fds.View() == old(fds.View()) && r.Error?
              else (fds.View(), r) == RenewedFD(old(fds.View()), a.fdId.value, Money.FromRupees(a.paidOut),
                                                NextTerm(old(fds.fds)[a.fdId.value], a), f)
    {
      if a.fdId.None? { return Error("fd_id is required"); }
      if a.newRate <= 0.0 { return Error("new_interest_rate is required"); }
      if a.newRate > 30.0 { return Error("new_interest_rate is unreasonably high"); }
      if a.newTenure <= 0 { return Error("new_tenure_months is required"); }
      if a.paidOut <= 0.0 { return Error("actual_payout_amount is required"); }
      if a.institution == "" { return Error("institution is required for renewal"); }
      var got := fds.Get(a.fdId.value, user, f.get);
      if got.None? { return Error("get fd"); }
      var prior := got.value;
      var newStart := prior.maturity;
      assert Valid(newStart);
      var newMaturity := AddMonths(newStart, a.newTenure);
      var newPrincipal := Money.FromRupees(a.paidOut);
      if prior.renewal == PrincipalOnly {
        newPrincipal := prior.principal;
      }
      var name := OrElse(a.accountName, DefaultName(a.institution, a.newTenure, " (renewal)"));
      r := fds.RenewFD(a.fdId.value, Money.FromRupees(a.paidOut),
        NewFD(user, a.institution, name, Maybe(a.newBankNumber), newPrincipal,
              BasisPoints(a.newRate), Int16(a.newTenure), newStart, newMaturity, 0,
              prior.payout, prior.renewal, None), f);
    }
  }
}
