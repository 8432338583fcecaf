/**
  The idempotency key of an imported row (internal/importer/importer.go): a SHA-256 over account, date,
  amount and description.  The hash is taken as collision-free, so the key is its input text.
 */
module IdempotencyKey {
  import opened Calendar
  import opened Decimal

  /** Decimal digits, filled up with zeros on the left. */
  function ZeroPad(n: nat, w: nat): string {
    if |Digits(n)| >= w then Digits(n) else Zeros(w - |Digits(n)|) + Digits(n)
  }

  function Zeros(k: nat): string {
    if k == 0 then "" else ['0'] + Zeros(k - 1)
  }

  /** The layout 2006-01-02. */
  function DateText(d: Date): string {
    ZeroPad(d.year, 4) + "-" + ZeroPad(d.month, 2) + "-" + ZeroPad(d.day, 2)
  }

  /** `account` is the canonical text of a UUID: hexadecimal digits and hyphens. */
  function KeyOf(account: string, date: Date, amount: int, description: string): string {
    account + "|" + (DateText(date) + "|" + (FormatInt(amount) + "|" + description))
  }

  // ----- reading a key back -----

  lemma {:induction false} ZerosAreZeros(k: nat)
    ensures |Zeros(k)| == k && forall i | 0 <= i < k :: Zeros(k)[i] == '0'
  {
    if k > 0 { ZerosAreZeros(k - 1); }
  }

  lemma {:induction false} ValueIgnoresZeros(k: nat, s: string)
    requires forall i | 0 <= i < |s| :: IsDigit(s[i])
    ensures forall i | 0 <= i < |Zeros(k) + s| :: IsDigit((Zeros(k) + s)[i])
    ensures Value(Zeros(k) + s) == Value(s)
    decreases k + |s|
  {
    ZerosAreZeros(k);
    var t := Zeros(k) + s;
    if s != "" {
      ValueIgnoresZeros(k, s[..|s| - 1]);
      assert t[..|t| - 1] == Zeros(k) + s[..|s| - 1];
    } else if k > 0 {
      ZerosAreZeros(k - 1);
      ValueIgnoresZeros(k - 1, "");
      assert t[..|t| - 1] == Zeros(k - 1) + "";
    }
  }

  lemma ZeroPadReadsBack(n: nat, w: nat)
    ensures forall i | 0 <= i < |ZeroPad(n, w)| :: IsDigit(ZeroPad(n, w)[i])
    ensures Value(ZeroPad(n, w)) == n
    ensures |ZeroPad(n, w)| >= w && (|Digits(n)| <= w ==> |ZeroPad(n, w)| == w)
  {
    var d := Digits(n);
    ValueOfDigits(n);
    if |d| < w {
      var k := w - |d|;
      assert ZeroPad(n, w) == Zeros(k) + d;
      ZerosAreZeros(k);
      ValueIgnoresZeros(k, d);
    }
  }

  lemma TwoDigits(n: nat)
    requires n < 100
    ensures |ZeroPad(n, 2)| == 2
  {
    ZeroPadReadsBack(n, 2);
    DigitsLength(n, 2);
    assert Pow10(2) == 10 * Pow10(1);
  }

  /** Different dates have different texts. */
  lemma DateTextInjective(a: Date, b: Date)
    requires Valid(a) && Valid(b) && DateText(a) == DateText(b)
    ensures a == b
  {
    TwoDigits(a.month); TwoDigits(a.day); TwoDigits(b.month); TwoDigits(b.day);
    var s, n := DateText(a), |DateText(a)|;
    var ya, yb := ZeroPad(a.year, 4), ZeroPad(b.year, 4);
    assert s[n - 2..] == ZeroPad(a.day, 2) == ZeroPad(b.day, 2);
    assert s[n - 5..n - 3] == ZeroPad(a.month, 2) == ZeroPad(b.month, 2);
    assert s[..n - 6] == ya == yb;
    ZeroPadReadsBack(a.year, 4); ZeroPadReadsBack(b.year, 4);
    ZeroPadReadsBack(a.month, 2); ZeroPadReadsBack(b.month, 2);
    ZeroPadReadsBack(a.day, 2); ZeroPadReadsBack(b.day, 2);
  }

  lemma SplitAtBar(a: string, x: string, b: string, y: string)
    requires '|' !in a && '|' !in b
    requires a + "|" + x == b + "|" + y
    ensures a == b && x == y
  {
    var s := a + "|" + x;
    assert s == b + "|" + y;
    assert s[|a|] == '|' && forall i | 0 <= i < |a| :: s[i] == a[i];
    assert s[|b|] == '|' && forall i | 0 <= i < |b| :: s[i] == b[i];
    assert s[..|a|] == a && s[..|b|] == b;
    assert s[|a| + 1..] == x && s[|b| + 1..] == y;
  }

  lemma NoBar(d: Date, amount: int)
    ensures '|' !in DateText(d) && '|' !in FormatInt(amount)
  {
    ZeroPadReadsBack(d.year, 4);
    ZeroPadReadsBack(d.month, 2);
    ZeroPadReadsBack(d.day, 2);
  }

  /** A key is the four fields in this order, with bars between. */
  lemma KeyFields(account: string, date: Date, amount: int, description: string)
    ensures KeyOf(account, date, amount, description)
         == account + "|" + DateText(date) + "|" + FormatInt(amount) + "|" + description
  {
  }

  /** Year, month, day. */
  lemma YearComesFirst()
    ensures DateText(Date(2025, 4, 1)) == "2025-04-01"
  {
    assert Digits(2025) == "2025" && Digits(4) == "4" && Digits(1) == "1";
    assert Zeros(1) == "0" + Zeros(0) == "0";
  }

  /** Two rows share a key exactly when account, date, amount and description are all the same.
      Neither direction nor bank reference is part of it. */
  lemma KeyIff(a1: string, d1: Date, m1: int, t1: string, a2: string, d2: Date, m2: int, t2: string)
    requires '|' !in a1 && '|' !in a2 && Valid(d1) && Valid(d2)
    ensures KeyOf(a1, d1, m1, t1) == KeyOf(a2, d2, m2, t2) <==> (a1, d1, m1, t1) == (a2, d2, m2, t2)
  {
    if KeyOf(a1, d1, m1, t1) == KeyOf(a2, d2, m2, t2) {
      NoBar(d1, m1);
      NoBar(d2, m2);
      var x1, x2 := FormatInt(m1) + "|" + t1, FormatInt(m2) + "|" + t2;
      SplitAtBar(a1, DateText(d1) + "|" + x1, a2, DateText(d2) + "|" + x2);
      SplitAtBar(DateText(d1), x1, DateText(d2), x2);
      SplitAtBar(FormatInt(m1), t1, FormatInt(m2), t2);
      DateTextInjective(d1, d2);
      FormatIntInjective(m1, m2);
    }
  }
}
