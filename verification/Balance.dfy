/**
  The account balance fed by statement imports: the guarded UPDATE of internal/sqlc/accounts.sql.go and the
  choice of a closing balance in internal/importer/importer.go.  Dates are day numbers.
 */
module Balance {
  import opened Common

  datatype Account = Account(balance: int, asOf: Option<int>)

  /** One import's closing balance and the date of the row it came from. */
  datatype Closing = Closing(balance: int, day: int)

  /** WHERE balance_as_of IS NULL OR balance_as_of <= day: an equal date overwrites. */
  predicate Applies(a: Account, c: Closing) { a.asOf.None? || a.asOf.value <= c.day }

  function Update(a: Account, c: Closing): Account {
    if Applies(a, c) then Account(c.balance, Some(c.day)) else a
  }

  function UpdateAll(a: Account, cs: seq<Closing>): Account {
    if cs == [] then a else Update(UpdateAll(a, cs[..|cs| - 1]), cs[|cs| - 1])
  }

  class AccountRow {
    var balance: int
    var asOf: Option<int>

    function View(): Account
      reads this
    {
      Account(balance, asOf)
    }

    method UpdateBalance(c: Closing)
      modifies this
      ensures View() == Update(old(View()), c)
    {
      if asOf.None? || asOf.value <= c.day {
        balance, asOf := c.balance, Some(c.day);
      }
    }
  }

  /** `i` is the last of the updates with the greatest date. */
  ghost predicate LastGreatest(cs: seq<Closing>, i: nat) {
    && i < |cs|
    && (forall j | 0 <= j < |cs| :: cs[j].day <= cs[i].day)
    && (forall j | i < j < |cs| :: cs[j].day < cs[i].day)
  }

  lemma {:induction false} LastGreatestExists(cs: seq<Closing>) returns (i: nat)
    requires cs != []
    ensures LastGreatest(cs, i)
  {
    var n := |cs| - 1;
    if n == 0 {
      i := 0;
    } else {
      i := LastGreatestExists(cs[..n]);
      if cs[n].day >= cs[i].day {
        i := n;
      }
    }
  }

  /** The stored date never goes back. */
  lemma {:induction false} AsOfNeverDecreases(a: Account, cs: seq<Closing>)
    ensures a.asOf.Some? ==> UpdateAll(a, cs).asOf.Some? && UpdateAll(a, cs).asOf.value >= a.asOf.value
  {
    if cs != [] {
      AsOfNeverDecreases(a, cs[..|cs| - 1]);
    }
  }

  /** The final balance is the last update applied among those with the greatest date; older ones leave no trace. */
  lemma {:induction false} FinalIsLastGreatest(a: Account, cs: seq<Closing>, i: nat)
    requires LastGreatest(cs, i)
    ensures UpdateAll(a, cs) == if Applies(a, cs[i]) then Account(cs[i].balance, Some(cs[i].day)) else a
  {
    var n := |cs| - 1;
    if i < n {
      assert LastGreatest(cs[..n], i);
      FinalIsLastGreatest(a, cs[..n], i);
    } else if n > 0 {
      var k := LastGreatestExists(cs[..n]);
      FinalIsLastGreatest(a, cs[..n], k);
    }
  }

  ghost predicate DistinctDays(cs: seq<Closing>) {
    forall i, j | 0 <= i < j < |cs| :: cs[i].day != cs[j].day
  }

  lemma {:induction false} LastIndexOf(cs: seq<Closing>, c: Closing) returns (i: nat)
    requires c in cs
    ensures i < |cs| && cs[i] == c && c !in cs[i + 1..]
  {
    var n := |cs| - 1;
    if cs[n] == c {
      i := n;
    } else {
      i := LastIndexOf(cs[..n], c);
      assert cs[i + 1..] == cs[..n][i + 1..] + [cs[n]];
    }
  }

  /** For closing balances of distinct dates the order of import does not matter, nor do repetitions. */
  lemma OrderDoesNotMatter(a: Account, cs: seq<Closing>, ds: seq<Closing>)
    requires DistinctDays(cs) && forall c :: c in cs <==> c in ds
    ensures UpdateAll(a, cs) == UpdateAll(a, ds)
  {
    assert forall k | 0 <= k < |ds| :: ds[k] in cs;
    if cs != [] {
      var i := LastGreatestExists(cs);
      assert cs[i] in ds;
      var j := LastIndexOf(ds, cs[i]);
      forall k | 0 <= k < |ds| ensures ds[k].day <= ds[j].day && (k > j ==> ds[k].day < ds[j].day) {
        assert ds[k] in cs;
        var m :| 0 <= m < |cs| && cs[m] == ds[k];
        assert k > j ==> ds[k] == ds[j + 1..][k - (j + 1)];
      }
      FinalIsLastGreatest(a, cs, i);
      FinalIsLastGreatest(a, ds, j);
    }
  }

  /** Two updates may be swapped exactly when their dates or balances make no difference, or both are outdated. */
  lemma CommuteIff(a: Account, c: Closing, d: Closing)
    ensures Update(Update(a, c), d) == Update(Update(a, d), c)
            <==> c.day != d.day || c.balance == d.balance || !Applies(a, c)
  {
  }
}
