/** When each manage_fd action succeeds and what it leaves in the tables, in terms of the arguments as sent. */
module FdStored {
  import opened Common
  import opened Calendar
  import opened FixedDeposit
  import opened FdLifecycle
  import Decimal
  import Money
  import Binary64
  import MoneyTheorems

  // ----- the arguments as sent -----

  /** The user named in the arguments, or else the one talking. */
  function Caller(a: Args, current: User): User { if a.user == "" then current else a.user }

  /** The renewal type is the one whose name was sent; none is the default. */
  ghost predicate RenewalAsSent(renewal: Renewal, text: string) {
    && (renewal.NoRenewal? <==> text == "" || text == "none")
    && (renewal.PrincipalOnly? <==> text == "principal_only")
    && (renewal.PrincipalAndInterest? <==> text == "principal_and_interest")
  }

  /** The payout is the one whose name was sent; cumulative is the default. */
  ghost predicate PayoutAsSent(payout: Payout, text: string) {
    && (payout.Cumulative? <==> text == "" || text == "cumulative")
    && (payout.Monthly? <==> text == "monthly")
    && (payout.Quarterly? <==> text == "quarterly")
    && (payout.Annual? <==> text == "annual")
  }

  /** An optional text: null when it was left empty. */
  ghost predicate TextAsSent(stored: Option<string>, text: string) {
    if text == "" then stored.None? else stored == Some(text)
  }

  /** `n` in 16 bits. */
  ghost predicate In16Bits(stored: int, n: int) {
    -32768 <= stored <= 32767 && (n - stored) % 65536 == 0 && (0 <= n <= 32767 ==> stored == n)
  }

  /** Rupees to paise, or percent to basis points: the nearest whole number. */
  ghost predicate InHundredths(stored: int, x: real) { Money.Nearest(x * 100.0, stored) }

  lemma Sixteen(n: int)
    ensures In16Bits(Int16(n), n)
  {
  }

  lemma Converted(x: real)
    ensures InHundredths(Money.FromRupees(x), x)
  {
    Money.FromRupeesNearest(x);
  }

  lemma RateConverted(rate: real)
    requires 0.0 < rate <= 30.0
    ensures InHundredths(BasisPoints(rate), rate)
  {
    RateFits(rate);
  }

  // ----- success -----

  /** No account of the institution has the number; an empty number will be replaced by a new one. */
  ghost predicate NumberFree(db: Db, institution: string, number: string) {
    number != "" ==>
      forall k | k in db.accounts ::
        db.accounts[k].institution == institution ==> db.accounts[k].external != Given(number)
  }

  lemma TakenIff(db: Db, institution: string, number: string)
    requires Inv(db)
    ensures Taken(db, institution, ExternalOf(Maybe(number), db.nextAccount)) <==> !NumberFree(db, institution, number)
  {
  }

  lemma TextsKnown(a: Args)
    ensures ParsePayout(a.payout).Some? <==> a.payout in {"", "cumulative", "monthly", "quarterly", "annual"}
    ensures ParseRenewal(a.renewal).Some? <==> a.renewal in {"", "none", "principal_only", "principal_and_interest"}
  {
  }

  /** When a deposit is created. */
  lemma CreateSucceedsIff(db: Db, user: User, a: Args, f: Faults)
    requires Inv(db) && DatesOk(db) && a.action == "create"
    ensures Execute(db, user, a, f).1.Ok? <==>
            && a.institution != "" && a.principal > 0.0 && 0.0 < a.rate <= 30.0 && a.tenure > 0
            && a.start.Some? && Valid(a.start.value) && a.maturity.Some? && Valid(a.maturity.value)
            && a.payout in {"", "cumulative", "monthly", "quarterly", "annual"}
            && a.renewal in {"", "none", "principal_only", "principal_and_interest"}
            && NumberFree(db, a.institution, a.bankNumber)
            && !f.begin && !f.account && !f.member && !f.insert && !f.commit
  {
    TextsKnown(a);
    TakenIff(db, a.institution, a.bankNumber);
  }

  /** When a deposit is renewed.  Its status plays no part. */
  lemma RenewSucceedsIff(db: Db, user: User, a: Args, f: Faults)
    requires Inv(db) && DatesOk(db) && a.action == "mark_renewed"
    ensures Execute(db, user, a, f).1.Ok? <==>
            && a.fdId.Some? && a.fdId.value in db.fds && db.fds[a.fdId.value].user == Caller(a, user)
            && 0.0 < a.newRate <= 30.0 && a.newTenure > 0 && a.paidOut > 0.0 && a.institution != ""
            && NumberFree(db, a.institution, a.newBankNumber)
            && !f.get && !f.begin && !f.mark && !f.account && !f.member && !f.insert && !f.commit
  {
    TakenIff(db, a.institution, a.newBankNumber);
    RenewalGoesThrough(db, user, a, f);
  }

  /** When a deposit is marked, as matured or as closed early: amounts are not checked. */
  lemma MarkSucceedsIff(db: Db, user: User, a: Args, f: Faults)
    requires DatesOk(db) && (a.action == "mark_matured" || a.action == "mark_prematurely_closed")
    ensures Execute(db, user, a, f).1.Ok? <==>
            && a.fdId.Some? && a.fdId.value in db.fds && db.fds[a.fdId.value].user == Caller(a, user) && !f.mark
  {
  }

  /** There is no other action. */
  lemma OtherActionFails(db: Db, user: User, a: Args, f: Faults)
    requires DatesOk(db)
    requires a.action !in {"create", "mark_matured", "mark_prematurely_closed", "mark_renewed"}
    ensures Execute(db, user, a, f).1.Error? && Execute(db, user, a, f).0 == db
  {
  }

  // ----- create -----

  /** The row of a new deposit. */
  ghost predicate RowAsSent(fd: FD, a: Args, current: User) {
    && fd.user == Caller(a, current) && fd.status == Active && fd.renewedFrom.None? && fd.paidOut == 0
    && InHundredths(fd.principal, a.principal) && InHundredths(fd.rateBps, a.rate)
    && InHundredths(fd.expected, a.expected) && In16Bits(fd.tenure, a.tenure)
    && Some(fd.start) == a.start && Some(fd.maturity) == a.maturity
    && PayoutAsSent(fd.payout, a.payout) && RenewalAsSent(fd.renewal, a.renewal)
    && TextAsSent(fd.bankNumber, a.bankNumber) && TextAsSent(fd.notes, a.notes)
  }

  lemma NewRow(a: Args, current: User, account: nat)
    requires CreateArgsOk(a)
    ensures RowAsSent(RowOf(NewFromArgs(a, Caller(a, current)), account, None), a, current)
  {
    Converted(a.principal);
    Converted(a.expected);
    RateConverted(a.rate);
    Sixteen(a.tenure);
  }

  /** The account of a deposit: new, of that institution, under the bank's number or one made for it, with that name or
      else the one made from its term, and the caller its only member. */
  ghost predicate AccountAsSent(before: Db, after: Db, account: nat, owner: User, institution: string, number: string,
                                name: string, defaultName: string) {
    && account !in before.accounts && after.accounts.Keys == before.accounts.Keys + {account}
    && after.accounts[account].institution == institution
    && after.accounts[account].name == (if name == "" then defaultName else name)
    && (if number == "" then after.accounts[account].external.Generated?
        else after.accounts[account].external == Given(number))
    && after.members == before.members + {(account, owner)}
    && forall k | k in before.accounts :: after.accounts[k] == before.accounts[k]
  }

  lemma CreateTables(db: Db, user: User, a: Args, f: Faults)
    requires Inv(db) && DatesOk(db) && a.action == "create" && Execute(db, user, a, f).1.Ok?
    ensures CreateArgsOk(a)
    ensures Execute(db, user, a, f) == (WithNew(db, NewFromArgs(a, Caller(a, user)), None), Ok(db.nextFd))
  {
  }

  /** A new deposit's row says what was sent, in an account of its own, and no other row changes. */
  lemma CreateStores(db: Db, user: User, a: Args, f: Faults)
    requires Inv(db) && DatesOk(db) && a.action == "create" && Execute(db, user, a, f).1.Ok?
    ensures var (db', r) := Execute(db, user, a, f);
            && r.id !in db.fds && db'.fds.Keys == db.fds.Keys + {r.id}
            && RowAsSent(db'.fds[r.id], a, user)
            && AccountAsSent(db, db', db'.fds[r.id].account, Caller(a, user), a.institution, a.bankNumber,
                             a.accountName, a.institution + " FD " + Decimal.FormatInt(a.tenure) + "M")
            && forall k | k in db.fds :: db'.fds[k] == db.fds[k]
  {
    CreateTables(db, user, a, f);
    NewRow(a, user, db.nextAccount);
    NewAccount(db, NewFromArgs(a, Caller(a, user)), None, a.bankNumber, a.accountName,
               a.institution + " FD " + Decimal.FormatInt(a.tenure) + "M");
    NextIsNew(db);
  }

  /** A deposit created under a parent points to it; without such a parent nothing is created. */
  lemma ParentMustExist(db: Db, p: NewFD, parent: nat, f: Faults)
    requires Inv(db)
    ensures var (db', r) := Created(db, p, Some(parent), f);
            && (parent !in db.fds ==> r.Error?)
            && if r.Error? then db' == db else r.id !in db.fds && db'.fds[r.id].renewedFrom == Some(parent)
  {
    NextIsNew(db);
  }

  // ----- the marks -----

  /** Marking a deposit sets its status to the one the action names and its payout to the amount sent, and changes
      nothing else. */
  lemma MarkStores(db: Db, user: User, a: Args, f: Faults)
    requires DatesOk(db) && (a.action == "mark_matured" || a.action == "mark_prematurely_closed")
    requires Execute(db, user, a, f).1.Ok?
    ensures a.fdId.Some? && a.fdId.value in db.fds
    ensures var (db', r) := Execute(db, user, a, f);
            && Some(r.id) == a.fdId && db'.fds.Keys == db.fds.Keys
            && db' == db.(fds := db'.fds)
            && (forall k | k in db.fds && k != r.id :: db'.fds[k] == db.fds[k])
            && var was, now := db.fds[r.id], db'.fds[r.id];
            && (a.action == "mark_matured" ==> now.status == Matured)
            && (a.action == "mark_prematurely_closed" ==> now.status == PrematurelyClosed)
            && InHundredths(now.paidOut, a.paidOut)
            && now == was.(status := now.status, paidOut := now.paidOut)
  {
    Converted(a.paidOut);
  }

  // ----- renewal -----

  /** The row of the next term. */
  ghost predicate NextTermAsSent(was: FD, parent: FD, child: FD, a: Args) {
    && child.user == was.user && child.status == Active && child.renewedFrom == a.fdId && child.paidOut == 0
    && (was.renewal.PrincipalOnly? ==> child.principal == was.principal)
    && (!was.renewal.PrincipalOnly? ==> child.principal == parent.paidOut)
    && InHundredths(child.rateBps, a.newRate) && In16Bits(child.tenure, a.newTenure) && child.expected == 0
    && child.start == was.maturity && Valid(was.maturity) && a.newTenure > 0
    && child.maturity == AddMonths(was.maturity, a.newTenure)
    && child.payout == was.payout && child.renewal == was.renewal
    && TextAsSent(child.bankNumber, a.newBankNumber) && child.notes.None?
  }

  lemma NextRow(was: FD, a: Args, account: nat)
    requires RenewArgsOk(a) && Valid(was.maturity)
    ensures a.newTenure > 0
    ensures var parent := was.(status := Renewed, paidOut := Money.FromRupees(a.paidOut));
            NextTermAsSent(was, parent, RowOf(NextTerm(was, a), account, a.fdId), a)
  {
    RateConverted(a.newRate);
    Sixteen(a.newTenure);
  }

  lemma NewAccount(db: Db, p: NewFD, parent: Option<nat>, number: string, name: string, defaultName: string)
    requires Inv(db) && p.bankNumber == Maybe(number) && p.accountName == OrElse(name, defaultName)
    ensures AccountAsSent(db, WithNew(db, p, parent), db.nextAccount, p.user, p.institution, number, name, defaultName)
  {
    NextIsNew(db);
  }

  lemma NextRows(db: Db, id: nat, paidOut: int, p: NewFD)
    requires Inv(db) && id in db.fds
    ensures var fds := WithNew(Marked(db, id, Renewed, paidOut), p, Some(id)).fds;
            && db.nextFd !in db.fds && fds.Keys == db.fds.Keys + {db.nextFd}
            && fds[id] == db.fds[id].(status := Renewed, paidOut := paidOut)
            && fds[db.nextFd] == RowOf(p, db.nextAccount, Some(id))
            && forall k | k in db.fds && k != id :: fds[k] == db.fds[k]
  {
    NextIsNew(db);
  }

  /** A successful renewal marks the parent with the payout and adds the next term, in an account of its own; no other
      row changes. */
  lemma RenewStores(db: Db, user: User, a: Args, f: Faults)
    requires Inv(db) && DatesOk(db) && a.action == "mark_renewed" && Execute(db, user, a, f).1.Ok?
    ensures a.fdId.Some? && a.fdId.value in db.fds && a.newTenure > 0
    ensures var (db', r) := Execute(db, user, a, f);
            && r.id !in db.fds && db'.fds.Keys == db.fds.Keys + {r.id}
            && var was, parent, child := db.fds[a.fdId.value], db'.fds[a.fdId.value], db'.fds[r.id];
            && parent == was.(status := Renewed, paidOut := parent.paidOut)
            && InHundredths(parent.paidOut, a.paidOut)
            && NextTermAsSent(was, parent, child, a)
            && AccountAsSent(db, db', child.account, Caller(a, user), a.institution, a.newBankNumber, a.accountName,
                             a.institution + " FD " + Decimal.FormatInt(a.newTenure) + "M (renewal)")
            && forall k | k in db.fds && k != a.fdId.value :: db'.fds[k] == db.fds[k]
  {
    RenewTables(db, user, a, f);
    RenewSucceedsIff(db, user, a, f);
    var id, paidOut := a.fdId.value, Money.FromRupees(a.paidOut);
    var p := NextTerm(db.fds[id], a);
    NextRow(db.fds[id], a, db.nextAccount);
    NextRows(db, id, paidOut, p);
    NewAccount(db, p, a.fdId, a.newBankNumber, a.accountName,
               a.institution + " FD " + Decimal.FormatInt(a.newTenure) + "M (renewal)");
    Converted(a.paidOut);
  }

  /** A renewal with a payout of 0.001 rupees leaves an active deposit without a principal. */
  lemma TinyPayout(db: Db, user: User, a: Args, f: Faults)
    requires Inv(db) && DatesOk(db) && a.action == "mark_renewed" && Execute(db, user, a, f).1.Ok?
    requires a.fdId.Some? && a.fdId.value in db.fds && !db.fds[a.fdId.value].renewal.PrincipalOnly?
    requires a.paidOut == Binary64.Fl(0.001)
    ensures var (db', r) := Execute(db, user, a, f);
            r.id in db'.fds && db'.fds[r.id].status == Active && db'.fds[r.id].principal == 0
  {
    RenewStores(db, user, a, f);
    FourThousandths(0.001);
    MoneyTheorems.PositiveIff(a.paidOut * 100.0);
  }

  // ----- over runs -----

  /** A deposit created with "principal_only" keeps the principal it was created with along every chain of renewals, in
      every later state of every run. */
  lemma PrincipalOnlyForever(trace: seq<Db>, calls: seq<Call>, i: nat, j: nat, path: seq<nat>)
    requires IsRun(trace, calls) && i < |calls| && i < j < |trace| && path != []
    requires calls[i].args.action == "create" && calls[i].args.renewal == "principal_only"
    requires DatesOk(trace[i]) && Execute(trace[i], calls[i].user, calls[i].args, calls[i].faults).1 == Ok(path[0])
    requires Chain(trace[j], path)
    ensures path[0] in trace[i + 1].fds
    ensures trace[j].fds[path[|path| - 1]].principal == trace[i + 1].fds[path[0]].principal
    ensures InHundredths(trace[j].fds[path[|path| - 1]].principal, calls[i].args.principal)
  {
    RunKeeps(trace, calls, i, i);
    CreateStores(trace[i], calls[i].user, calls[i].args, calls[i].faults);
    RunKeeps(trace, calls, i + 1, j);
    ChainInherits(trace[j], path);
  }

  /** Without it, every renewal starts again from what was paid out. */
  lemma RenewedFromPayout(trace: seq<Db>, calls: seq<Call>, i: nat, j: nat, child: nat)
    requires IsRun(trace, calls) && i < |calls| && i < j < |trace|
    requires calls[i].args.action == "mark_renewed"
    requires DatesOk(trace[i]) && Execute(trace[i], calls[i].user, calls[i].args, calls[i].faults).1 == Ok(child)
    ensures child in trace[j].fds && calls[i].args.fdId == trace[j].fds[child].renewedFrom
    ensures !trace[j].fds[child].renewal.PrincipalOnly? ==>
              InHundredths(trace[j].fds[child].principal, calls[i].args.paidOut)
  {
    RunKeeps(trace, calls, i, i);
    RenewStores(trace[i], calls[i].user, calls[i].args, calls[i].faults);
    RunKeeps(trace, calls, i + 1, j);
  }
}
