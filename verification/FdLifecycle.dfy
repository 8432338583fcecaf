/** What every sequence of manage_fd calls keeps, and what chains of renewals look like. */
module FdLifecycle {
  import opened Common
  import opened Calendar
  import opened FixedDeposit
  import Binary64
  import Money
  import MoneyTheorems

  /** A renewed term: same user, starts when its parent matures, lasts n > 0 months, inherits the terms. */
  ghost predicate Linked(parent: FD, child: FD) {
    && child.user == parent.user
    && child.start == parent.maturity
    && child.payout == parent.payout && child.renewal == parent.renewal
    && (parent.renewal.PrincipalOnly? ==> child.principal == parent.principal)
    && Valid(child.start)
    && exists n: nat :: n > 0 && child.maturity == AddMonths(child.start, n) && child.tenure == Int16(n)
  }

  ghost predicate FdOk(db: Db, id: nat)
    requires id in db.fds
  {
    var fd := db.fds[id];
    && id < db.nextFd
    && fd.account in db.accounts && (fd.account, fd.user) in db.members
    && Valid(fd.start) && Valid(fd.maturity)
    && (fd.renewedFrom.Some? ==>
          fd.renewedFrom.value in db.fds && fd.renewedFrom.value < id && Linked(db.fds[fd.renewedFrom.value], fd))
  }

  /** A generated number is that of an earlier account. */
  predicate NumberOk(db: Db, a: nat)
    requires a in db.accounts
  {
    db.accounts[a].external.Generated? ==> db.accounts[a].external.n < db.nextAccount
  }

  /** Accounts are numbered in order, no two deposits share one, and no two share a number at one institution. */
  ghost predicate AccountsOk(db: Db) {
    && (forall a | a in db.accounts :: a < db.nextAccount && NumberOk(db, a))
    && (forall i, j | i in db.fds && j in db.fds && i != j :: db.fds[i].account != db.fds[j].account)
    && (forall a, b | a in db.accounts && b in db.accounts && a != b ::
          || db.accounts[a].institution != db.accounts[b].institution
          || db.accounts[a].external != db.accounts[b].external)
  }

  ghost predicate Inv(db: Db) {
    && AccountsOk(db)
    && forall id | id in db.fds :: FdOk(db, id)
  }

  /** Only status and payout of an existing deposit ever change. */
  ghost predicate Frozen(before: Db, after: Db) {
    && (forall id | id in before.fds :: id in after.fds
          && after.fds[id] == before.fds[id].(status := after.fds[id].status, paidOut := after.fds[id].paidOut))
    && (forall a | a in before.accounts :: a in after.accounts && after.accounts[a] == before.accounts[a])
    && before.members <= after.members
  }

  lemma MarkedKeeps(db: Db, id: nat, status: Status, paidOut: int)
    requires Inv(db) && id in db.fds
    ensures Inv(Marked(db, id, status, paidOut)) && Frozen(db, Marked(db, id, status, paidOut))
  {
    var db' := Marked(db, id, status, paidOut);
    forall k | k in db'.fds ensures FdOk(db', k) {
      assert FdOk(db, k);
    }
  }

  lemma WithNewFds(db: Db, p: NewFD, parent: Option<nat>, k: nat)
    requires Inv(db) && Valid(p.start) && Valid(p.maturity)
    requires parent.Some? ==>
               parent.value in db.fds && Linked(db.fds[parent.value], RowOf(p, db.nextAccount, parent))
    requires k in WithNew(db, p, parent).fds
    ensures FdOk(WithNew(db, p, parent), k)
  {
    if parent.Some? {
      assert FdOk(db, parent.value);
    }
    if k in db.fds {
      assert FdOk(db, k);
    }
  }

  lemma NextIsNew(db: Db)
    requires Inv(db)
    ensures db.nextFd !in db.fds && db.nextAccount !in db.accounts
    ensures forall i | i in db.fds :: db.fds[i].account != db.nextAccount
  {
    forall k | k in db.fds ensures k != db.nextFd && db.fds[k].account != db.nextAccount {
      assert FdOk(db, k);
    }
  }

  lemma WithNewAccounts(db: Db, p: NewFD, parent: Option<nat>)
    requires Inv(db) && !Taken(db, p.institution, ExternalOf(p.bankNumber, db.nextAccount))
    ensures AccountsOk(WithNew(db, p, parent)) && Frozen(db, WithNew(db, p, parent))
  {
    NextIsNew(db);
  }

  lemma WithNewKeeps(db: Db, p: NewFD, parent: Option<nat>)
    requires Inv(db) && Valid(p.start) && Valid(p.maturity)
    requires !Taken(db, p.institution, ExternalOf(p.bankNumber, db.nextAccount))
    requires parent.Some? ==>
               parent.value in db.fds && Linked(db.fds[parent.value], RowOf(p, db.nextAccount, parent))
    ensures Inv(WithNew(db, p, parent)) && Frozen(db, WithNew(db, p, parent))
  {
    WithNewAccounts(db, p, parent);
    forall k | k in WithNew(db, p, parent).fds ensures FdOk(WithNew(db, p, parent), k) {
      WithNewFds(db, p, parent, k);
    }
  }

  lemma NextTermLinked(prior: FD, a: Args, account: nat, id: nat)
    requires RenewArgsOk(a) && Valid(prior.maturity)
    ensures Linked(prior, RowOf(NextTerm(prior, a), account, Some(id)))
    ensures Serial(NextTerm(prior, a).maturity) > Serial(NextTerm(prior, a).start)
  {
    var n: nat := a.newTenure;
    SpanIsWholeMonths(prior.maturity, n);
    assert NextTerm(prior, a).maturity == AddMonths(prior.maturity, n);
  }

  lemma InvDates(db: Db)
    requires Inv(db)
    ensures DatesOk(db)
  {
    forall id | id in db.fds ensures Valid(db.fds[id].start) && Valid(db.fds[id].maturity) {
      assert FdOk(db, id);
    }
  }

  /** The tables are in order, old rows are frozen, and an error changed nothing. */
  ghost predicate Kept(before: Db, r: (Db, Reply)) {
    Inv(r.0) && Frozen(before, r.0) && (r.1.Error? ==> r.0 == before)
  }

  lemma CreateKeeps(db: Db, p: NewFD, f: Faults)
    requires Inv(db) && Valid(p.start) && Valid(p.maturity)
    ensures Kept(db, Created(db, p, None, f))
  {
    if Created(db, p, None, f).1.Ok? {
      WithNewKeeps(db, p, None);
    }
  }

  lemma StatusKeeps(db: Db, id: nat, user: User, status: Status, paidOut: int, f: Faults)
    requires Inv(db)
    ensures Kept(db, StatusUpdated(db, id, user, status, paidOut, f))
  {
    if StatusUpdated(db, id, user, status, paidOut, f).1.Ok? {
      MarkedKeeps(db, id, status, paidOut);
    }
  }

  lemma RenewKeeps(db: Db, id: nat, a: Args, f: Faults)
    requires Inv(db) && RenewArgsOk(a) && id in db.fds && Valid(db.fds[id].maturity)
    ensures Kept(db, RenewedFD(db, id, Money.FromRupees(a.paidOut), NextTerm(db.fds[id], a), f))
  {
    var p, paidOut := NextTerm(db.fds[id], a), Money.FromRupees(a.paidOut);
    if RenewedFD(db, id, paidOut, p, f).1.Ok? {
      var m := Marked(db, id, Renewed, paidOut);
      MarkedKeeps(db, id, Renewed, paidOut);
      NextTermLinked(m.fds[id], a, m.nextAccount, id);
      assert NextTerm(m.fds[id], a) == p;
      WithNewKeeps(m, p, Some(id));
    }
  }

  lemma MarkKeeps(db: Db, user: User, a: Args, f: Faults)
    requires Inv(db) && DatesOk(db) && (a.action == "mark_matured" || a.action == "mark_prematurely_closed")
    ensures Kept(db, Execute(db, user, a, f))
  {
    if a.fdId.Some? {
      StatusKeeps(db, a.fdId.value, OrElse(a.user, user),
        if a.action == "mark_matured" then Matured else PrematurelyClosed, Money.FromRupees(a.paidOut), f);
    }
  }

  /** Every call keeps the invariant and the frozen parts; a call that reports an error changes nothing. */
  lemma ExecuteKeeps(db: Db, user: User, a: Args, f: Faults)
    requires Inv(db)
    ensures DatesOk(db)
    ensures Kept(db, Execute(db, user, a, f))
  {
    InvDates(db);
    if a.action == "create" {
      if CreateArgsOk(a) {
        CreateKeeps(db, NewFromArgs(a, OrElse(a.user, user)), f);
      }
    } else if a.action == "mark_renewed" {
      if RenewArgsOk(a) && Owns(db, a.fdId.value, OrElse(a.user, user)) {
        RenewKeeps(db, a.fdId.value, a, f);
      }
    } else if a.action == "mark_matured" || a.action == "mark_prematurely_closed" {
      MarkKeeps(db, user, a, f);
    }
  }

  // ----- runs -----

  datatype Call = Call(user: User, args: Args, faults: Faults)

  /** Tables reached by any calls of any users from tables without deposits. */
  ghost predicate IsRun(trace: seq<Db>, calls: seq<Call>) {
    && |trace| == |calls| + 1
    && trace[0].fds == map[] && Inv(trace[0])
    && forall i | 0 <= i < |calls| ::
         DatesOk(trace[i]) && trace[i + 1] == Execute(trace[i], calls[i].user, calls[i].args, calls[i].faults).0
  }

  lemma {:induction false} RunKeeps(trace: seq<Db>, calls: seq<Call>, i: nat, j: nat)
    requires IsRun(trace, calls) && i <= j < |trace|
    ensures Inv(trace[j]) && Frozen(trace[i], trace[j])
    decreases j
  {
    if j > 0 {
      RunKeeps(trace, calls, if i < j then i else i - 1, j - 1);
      ExecuteKeeps(trace[j - 1], calls[j - 1].user, calls[j - 1].args, calls[j - 1].faults);
    }
  }

  // ----- renewal chains -----

  /** `path[0]` was renewed into `path[1]`, and so on. */
  ghost predicate Chain(db: Db, path: seq<nat>) {
    && path != []
    && (forall k | 0 <= k < |path| :: path[k] in db.fds)
    && (forall k | 0 <= k < |path| - 1 :: db.fds[path[k + 1]].renewedFrom == Some(path[k]))
  }

  lemma {:induction false} ChainGrows(db: Db, path: seq<nat>, i: nat, j: nat)
    requires Inv(db) && Chain(db, path) && i < j < |path|
    ensures path[i] < path[j]
    decreases j
  {
    assert FdOk(db, path[j]);
    assert db.fds[path[j - 1 + 1]].renewedFrom == Some(path[j - 1]);
    if i < j - 1 {
      ChainGrows(db, path, i, j - 1);
    }
  }

  /** No deposit is, through any number of renewals, its own ancestor. */
  lemma NoCycle(db: Db, path: seq<nat>)
    requires Inv(db) && Chain(db, path) && |path| > 1
    ensures path[0] != path[|path| - 1]
  {
    ChainGrows(db, path, 0, |path| - 1);
  }

  /** Along a chain the user and the terms of renewal never change; principal-only chains keep the root principal. */
  lemma {:induction false} ChainInherits(db: Db, path: seq<nat>)
    requires Inv(db) && Chain(db, path)
    ensures var root, last := db.fds[path[0]], db.fds[path[|path| - 1]];
            && last.user == root.user && last.payout == root.payout && last.renewal == root.renewal
            && (root.renewal.PrincipalOnly? ==> last.principal == root.principal)
  {
    var n := |path| - 1;
    if n > 0 {
      assert Chain(db, path[..n]);
      ChainInherits(db, path[..n]);
      assert FdOk(db, path[n]);
      assert db.fds[path[n - 1 + 1]].renewedFrom == Some(path[n - 1]);
    }
  }

  /** Each renewed term ends after it starts, and terms follow one another without gap or overlap. */
  lemma TermFollows(db: Db, id: nat)
    requires Inv(db) && id in db.fds && db.fds[id].renewedFrom.Some?
    ensures db.fds[id].renewedFrom.value in db.fds
    ensures var fd, parent := db.fds[id], db.fds[db.fds[id].renewedFrom.value];
            && Valid(fd.start) && Valid(fd.maturity)
            && fd.start == parent.maturity
            && Serial(fd.start) + 28 <= Serial(fd.maturity)
  {
    assert FdOk(db, id);
    var fd := db.fds[id];
    var n: nat :| n > 0 && fd.maturity == AddMonths(fd.start, n) && fd.tenure == Int16(n);
    SpanIsWholeMonths(fd.start, n);
  }

  /** The stored tenure is the one the maturity date was computed with. */
  predicate TenureStored(fd: FD) {
    Valid(fd.start) && fd.tenure > 0 && fd.maturity == AddMonths(fd.start, fd.tenure)
  }

  /** It is, exactly when the requested tenure fits an int16: the date uses the whole number, the row keeps 16 bits. */
  lemma TenureStoredIff(prior: FD, a: Args, account: nat, id: nat)
    requires RenewArgsOk(a) && Valid(prior.maturity)
    ensures TenureStored(RowOf(NextTerm(prior, a), account, Some(id))) <==> a.newTenure <= 0x7fff
  {
    var d, n: nat := prior.maturity, a.newTenure;
    Int16Wraps(n);
    if n > 0x7fff && Int16(n) > 0 {
      LongerEndsElsewhere(d, Int16(n), n);
    }
  }

  lemma Int16Wraps(n: nat)
    ensures if n <= 0x7fff then Int16(n) == n else Int16(n) + 1 < n
  {
  }

  /** Along every chain the maturities are those of consecutive terms of some `ns` months, which the rows keep in 16
      bits; from a root maturity on day 28 or earlier, the last is their sum later, on the same day of the month. */
  lemma {:induction false} ChainMaturity(db: Db, path: seq<nat>) returns (ns: seq<nat>)
    requires Inv(db) && Chain(db, path)
    ensures |ns| == |path| - 1
    ensures forall k | 0 <= k < |ns| ::
              ns[k] > 0 && db.fds[path[k + 1]].tenure == Int16(ns[k]) && (ns[k] <= 0x7fff ==> Int16(ns[k]) == ns[k])
    ensures var root, last := db.fds[path[0]].maturity, db.fds[path[|path| - 1]].maturity;
            && Valid(root) && Valid(last) && last == AddAll(root, ns)
            && (root.day <= 28 ==> last.day == root.day && MonthIndex(last) == MonthIndex(root) + Total(ns))
  {
    var n := |path| - 1;
    assert FdOk(db, path[0]);
    if n == 0 {
      ns := [];
    } else {
      assert Chain(db, path[..n]);
      var init := ChainMaturity(db, path[..n]);
      var m := LastTerm(db, path);
      ns := init + [m];
      assert ns[..|ns| - 1] == init;
      Int16Wraps(m);
      if db.fds[path[0]].maturity.day <= 28 {
        ChainOfTerms(db.fds[path[0]].maturity, ns);
      }
    }
  }

  lemma LastTerm(db: Db, path: seq<nat>) returns (m: nat)
    requires Inv(db) && Chain(db, path) && |path| > 1
    ensures var last, parent := db.fds[path[|path| - 1]], db.fds[path[|path| - 2]];
            m > 0 && Valid(parent.maturity) && Valid(last.maturity)
            && last.maturity == AddMonths(parent.maturity, m) && last.tenure == Int16(m)
  {
    var n := |path| - 1;
    var fd := db.fds[path[n]];
    assert FdOk(db, path[n]);
    assert db.fds[path[n - 1 + 1]].renewedFrom == Some(path[n - 1]);
    m :| m > 0 && fd.maturity == AddMonths(fd.start, m) && fd.tenure == Int16(m);
  }

  // ----- what is not guarded -----

  lemma RenewalGoesThrough(db: Db, user: User, a: Args, f: Faults)
    requires DatesOk(db) && a.action == "mark_renewed"
    ensures Execute(db, user, a, f).1.Ok? <==>
            && RenewArgsOk(a) && Owns(db, a.fdId.value, OrElse(a.user, user))
            && !Taken(db, a.institution, ExternalOf(Maybe(a.newBankNumber), db.nextAccount))
            && !(f.get || f.begin || f.mark || f.account || f.member || f.insert || f.commit)
  {
  }

  lemma RenewTables(db: Db, user: User, a: Args, f: Faults)
    requires Inv(db) && DatesOk(db) && a.action == "mark_renewed" && Execute(db, user, a, f).1.Ok?
    ensures RenewArgsOk(a) && a.fdId.value in db.fds
    ensures var (db', r) := Execute(db, user, a, f);
            var m := Marked(db, a.fdId.value, Renewed, Money.FromRupees(a.paidOut));
            r.id == db.nextFd && db' == WithNew(m, NextTerm(db.fds[a.fdId.value], a), a.fdId)
  {
  }

  lemma RenewOnce(db: Db, user: User, a: Args) returns (db': Db, id: nat)
    requires Inv(db) && a.action == "mark_renewed" && RenewArgsOk(a) && a.newBankNumber == ""
    requires Owns(db, a.fdId.value, OrElse(a.user, user))
    ensures DatesOk(db) && Execute(db, user, a, NO_FAULTS) == (db', Ok(id))
    ensures Inv(db') && Frozen(db, db') && Owns(db', a.fdId.value, OrElse(a.user, user))
    ensures id !in db.fds && id in db'.fds && db'.fds[id].renewedFrom == a.fdId
  {
    ExecuteKeeps(db, user, a, NO_FAULTS);
    assert !Taken(db, a.institution, Generated(db.nextAccount));
    RenewalGoesThrough(db, user, a, NO_FAULTS);
    RenewTables(db, user, a, NO_FAULTS);
    NextIsNew(db);
    var r := Execute(db, user, a, NO_FAULTS);
    db', id := r.0, r.1.id;
  }

  lemma MaturedLater(db: Db, user: User, a: Args)
    requires DatesOk(db) && a.action == "mark_matured" && a.fdId.Some? && Owns(db, a.fdId.value, OrElse(a.user, user))
    ensures Execute(db, user, a, NO_FAULTS)
         == (Marked(db, a.fdId.value, Matured, Money.FromRupees(a.paidOut)), Ok(a.fdId.value))
  {
  }

  /** Hence one deposit can be renewed twice, into two children, and its status then overwritten once more. */
  lemma RenewedTwice(db: Db, user: User, a: Args) returns (db1: Db, db2: Db, db3: Db, child1: nat, child2: nat)
    requires Inv(db) && a.action == "mark_renewed" && RenewArgsOk(a) && a.newBankNumber == ""
    requires Owns(db, a.fdId.value, OrElse(a.user, user))
    ensures DatesOk(db) && Execute(db, user, a, NO_FAULTS) == (db1, Ok(child1))
    ensures DatesOk(db1) && Execute(db1, user, a, NO_FAULTS) == (db2, Ok(child2))
    ensures DatesOk(db2) && Execute(db2, user, a.(action := "mark_matured"), NO_FAULTS) == (db3, Ok(a.fdId.value))
    ensures child1 != child2 && child1 in db3.fds && child2 in db3.fds && a.fdId.value in db3.fds
    ensures db3.fds[child1].renewedFrom == a.fdId == db3.fds[child2].renewedFrom
    ensures db3.fds[a.fdId.value].status == Matured
  {
    db1, child1 := RenewOnce(db, user, a);
    db2, child2 := RenewOnce(db1, user, a);
    InvDates(db2);
    MaturedLater(db2, user, a.(action := "mark_matured"));
    db3 := Marked(db2, a.fdId.value, Matured, Money.FromRupees(a.paidOut));
  }

  lemma RateFits(rate: real)
    requires 0.0 < rate <= 30.0
    ensures BasisPoints(rate) == Money.FromRupees(rate) && Money.Nearest(rate * 100.0, BasisPoints(rate))
  {
    Money.FromRupeesNearest(rate);
    SmallRate(rate * 100.0, Money.FromRupees(rate));
  }

  lemma SmallRate(x: real, n: int)
    requires 0.0 < x <= 3000.0 && Money.Nearest(x, n)
    ensures -1 <= n <= 3001
  {
    assert x * Binary64.UNIT_ROUNDOFF <= x * 0.0001;
  }

  /** An amount of whole paise, read from text, is stored as itself exactly when it survives the float chain:
      always below 2^45 rupees. */
  lemma PrincipalIsExactIff(a: Args, user: User, paise: nat)
    requires CreateArgsOk(a) && paise <= Binary64.HIGH && a.principal == Binary64.Fl(paise as real / 100.0)
    ensures NewFromArgs(a, user).principal == paise <==> MoneyTheorems.Survives(paise)
  {
    MoneyTheorems.ParsedIff(paise);
  }

  /** A positive amount is accepted even when it rounds to nothing: the principal is positive exactly when the amount
      times 100 is half a paisa or rounds up to it. */
  lemma PrincipalPositiveIff(a: Args, user: User)
    requires CreateArgsOk(a)
    ensures NewFromArgs(a, user).principal >= 0
    ensures NewFromArgs(a, user).principal > 0 <==> a.principal * 100.0 >= MoneyTheorems.HALF
  {
    MoneyTheorems.PositiveIff(a.principal * 100.0);
  }

  lemma NextPrincipal(prior: FD, a: Args)
    requires RenewArgsOk(a) && Valid(prior.maturity)
    ensures NextTerm(prior, a).principal
         == if prior.renewal.PrincipalOnly? then prior.principal else Money.FromRupees(a.paidOut)
  {
  }

  lemma PaiseArePositiveIff(rupees: real)
    requires rupees > 0.0
    ensures Money.FromRupees(rupees) > 0 <==> rupees * 100.0 >= MoneyTheorems.HALF
  {
    MoneyTheorems.PositiveIff(rupees * 100.0);
  }

  /** A renewal keeps a positive principal of a principal-only deposit; otherwise the new one is positive exactly when
      the payout times 100 is half a paisa or rounds up to it. */
  lemma RenewedPrincipalPositiveIff(prior: FD, a: Args)
    requires RenewArgsOk(a) && Valid(prior.maturity)
    ensures NextTerm(prior, a).principal > 0
            <==> if prior.renewal.PrincipalOnly? then prior.principal > 0 else a.paidOut * 100.0 >= MoneyTheorems.HALF
  {
    NextPrincipal(prior, a);
    PaiseArePositiveIff(a.paidOut);
  }

  /** An accepted rate is stored as a positive one exactly when it times 100 is half a basis point or rounds up to
      it. */
  lemma RatePositiveIff(rate: real)
    requires 0.0 < rate <= 30.0
    ensures BasisPoints(rate) >= 0
    ensures BasisPoints(rate) > 0 <==> rate * 100.0 >= MoneyTheorems.HALF
  {
    RateFits(rate);
    MoneyTheorems.PositiveIff(rate * 100.0);
  }

  lemma FourThousandths(x: real)
    requires 0.0 < x <= 0.004
    ensures Binary64.Fl(x) * 100.0 < MoneyTheorems.HALF
  {
    Binary64.FlNear(x);
    MoneyTheorems.NearUpper(x, Binary64.Fl(x));
  }

  /** A deposit of 0.004 rupees is accepted and stored without a principal. */
  lemma TinyPrincipal(a: Args, user: User)
    requires CreateArgsOk(a) && a.principal == Binary64.Fl(0.004)
    ensures NewFromArgs(a, user).principal == 0
  {
    FourThousandths(0.004);
    PrincipalPositiveIff(a, user);
  }

  /** A renewal for 32768 months stores the tenure -32768. */
  lemma LongTenure(prior: FD, a: Args, account: nat, id: nat)
    requires RenewArgsOk(a) && Valid(prior.maturity) && a.newTenure == 32768
    ensures RowOf(NextTerm(prior, a), account, Some(id)).tenure == -32768
  {
    ThirtyTwoK();
  }

  lemma ThirtyTwoK()
    ensures Int16(32768) == -32768
  {
  }
}
