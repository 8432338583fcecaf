/** Comma grouping of rupee amounts (internal/eval/scenarios.go). */
module Grouping {
  import opened Common
  import opened Decimal
  import opened TextRuns

  const MIN_INT64 := -0x8000_0000_0000_0000

  newtype Int64 = x: int | MIN_INT64 <= x <= 0x7fff_ffff_ffff_ffff

  // ----- groups -----

  function Pairs(s: string): seq<string> {
    if |s| <= 2 then [s] else Pairs(s[..|s| - 2]) + [s[|s| - 2..]]
  }

  /** A last group of three and groups of two before it. */
  function IndianGroups(s: string): seq<string> {
    if |s| <= 3 then [s] else Pairs(s[..|s| - 3]) + [s[|s| - 3..]]
  }

  function WesternGroups(s: string): seq<string> {
    if |s| <= 3 then [s] else WesternGroups(s[..|s| - 3]) + [s[|s| - 3..]]
  }

  function Concat(ws: seq<string>): string {
    if ws == [] then "" else Concat(ws[..|ws| - 1]) + ws[|ws| - 1]
  }

  lemma ConcatSnoc(ws: seq<string>, w: string)
    ensures Concat(ws + [w]) == Concat(ws) + w
  {
    assert (ws + [w])[..|ws|] == ws;
  }

  lemma {:induction false} PairsShape(s: string)
    requires s != ""
    ensures Concat(Pairs(s)) == s && Pairs(s) != []
    ensures 1 <= |Pairs(s)[0]| <= 2
    ensures forall i | 1 <= i < |Pairs(s)| :: |Pairs(s)[i]| == 2
    decreases |s|
  {
    if |s| > 2 {
      var t := s[..|s| - 2];
      PairsShape(t);
      ConcatSnoc(Pairs(t), s[|s| - 2..]);
    } else {
      assert Concat([s]) == Concat([]) + s;
    }
  }

  /** Indian grouping: the digits in order, sizes (1-2), 2, ..., 2, 3, or one group of at most three. */
  lemma IndianShape(s: string)
    requires s != ""
    ensures Concat(IndianGroups(s)) == s
    ensures |s| <= 3 ==> IndianGroups(s) == [s]
    ensures |s| > 3 ==>
              var g := IndianGroups(s);
              && |g| >= 2 && 1 <= |g[0]| <= 2 && |g[|g| - 1]| == 3
              && forall i | 1 <= i < |g| - 1 :: |g[i]| == 2
  {
    if |s| > 3 {
      PairsShape(s[..|s| - 3]);
      ConcatSnoc(Pairs(s[..|s| - 3]), s[|s| - 3..]);
    } else {
      assert Concat([s]) == Concat([]) + s;
    }
  }

  /** Western grouping: the digits in order, sizes (1-3), 3, ..., 3. */
  lemma {:induction false} WesternShape(s: string)
    requires s != ""
    ensures Concat(WesternGroups(s)) == s && WesternGroups(s) != []
    ensures 1 <= |WesternGroups(s)[0]| <= 3
    ensures forall i | 1 <= i < |WesternGroups(s)| :: |WesternGroups(s)[i]| == 3
    decreases |s|
  {
    if |s| > 3 {
      WesternShape(s[..|s| - 3]);
      ConcatSnoc(WesternGroups(s[..|s| - 3]), s[|s| - 3..]);
    } else {
      assert Concat([s]) == Concat([]) + s;
    }
  }

  // ----- deleting the commas -----

  function Strip(s: string): string { Delete(s, ',') }

  lemma StripSeparated(a: string, b: string)
    ensures Strip(a + "," + b) == Strip(a) + Strip(b)
  {
    DeleteAppend(a + ",", b, ',');
    assert (a + ",")[..|a|] == a;
    assert Strip(a + ",") == Strip(a);
  }

  lemma {:induction false} StripJoin(ws: seq<string>)
    requires ',' !in Concat(ws)
    ensures Strip(Join(ws, ",")) == Concat(ws)
  {
    if ws != [] {
      var init, w := ws[..|ws| - 1], ws[|ws| - 1];
      assert forall c | c in Concat(init) || c in w :: c in Concat(ws);
      StripJoin(init);
      DeleteNone(w, ',');
      if init == [] {
        assert Concat(ws) == w;
      } else {
        StripSeparated(Join(init, ","), w);
      }
    }
  }

  // ----- the two formatters -----

  function Sign(n: int): string { if n < 0 then "-" else "" }

  function Indian(n: int): string { Sign(n) + Join(IndianGroups(Digits(Abs(n))), ",") }

  function Western(n: int): string { Sign(n) + Join(WesternGroups(Digits(Abs(n))), ",") }

  /** The smallest int64 is its own negation in Go, so the sign case would never end there. */
  method IndianComma(n: Int64) returns (r: string)
    requires n as int != MIN_INT64
    ensures r == Indian(n as int)
    decreases n < 0
  {
    if n < 0 {
      r := IndianComma(-n);
      return "-" + r;
    }
    SignOfNat(n as int);
    ghost var all := Digits(n as int);
    var s := Digits(n as int);
    if |s| <= 3 {
      return s;
    }
    var result := s[|s| - 3..];
    s := s[..|s| - 3];
    ghost var rest := [result];
    while |s| > 2
      invariant s != "" && rest != []
      invariant IndianGroups(all) == Pairs(s) + rest
      invariant result == Join(rest, ",")
    {
      PairsStep(s, rest);
      JoinCons(s[|s| - 2..], rest);
      rest := [s[|s| - 2..]] + rest;
      result := s[|s| - 2..] + "," + result;
      s := s[..|s| - 2];
    }
    JoinCons(s, rest);
    r := s + "," + result;
  }

  lemma PairsStep(s: string, rest: seq<string>)
    requires |s| > 2
    ensures Pairs(s) + rest == Pairs(s[..|s| - 2]) + ([s[|s| - 2..]] + rest)
  {
  }

  lemma SignOfNat(n: nat)
    ensures Indian(n) == Join(IndianGroups(Digits(n)), ",") && Western(n) == Join(WesternGroups(Digits(n)), ",")
  {
  }

  lemma {:induction false} JoinCons(w: string, ws: seq<string>)
    requires ws != []
    ensures Join([w] + ws, ",") == w + "," + Join(ws, ",")
  {
    var init, last := ws[..|ws| - 1], ws[|ws| - 1];
    assert [w] + ws == ([w] + init) + [last] && init + [last] == ws;
    JoinSnoc([w] + init, last, ",");
    JoinSnoc(init, last, ",");
    if init != [] {
      JoinCons(w, init);
    }
  }

  /** The text built from the first `i` digits: a comma goes in front of digits whose distance to the end is a
      multiple of 3. */
  function WesternPrefix(s: string, i: nat): string
    requires i <= |s|
  {
    if i == 0 then ""
    else WesternPrefix(s, i - 1) + (if i > 1 && (|s| - (i - 1)) % 3 == 0 then "," else "") + [s[i - 1]]
  }

  lemma {:induction false} WesternPrefixCut(s: string, i: nat)
    requires |s| >= 3 && i <= |s| - 3
    ensures WesternPrefix(s, i) == WesternPrefix(s[..|s| - 3], i)
  {
    if i > 0 {
      WesternPrefixCut(s, i - 1);
      assert (|s| - (i - 1)) % 3 == (|s| - 3 - (i - 1)) % 3;
    }
  }

  lemma {:induction false} WesternPrefixShort(s: string, i: nat)
    requires i <= |s| <= 3
    ensures WesternPrefix(s, i) == s[..i]
  {
    if i > 0 {
      WesternPrefixShort(s, i - 1);
      assert s[..i] == s[..i - 1] + [s[i - 1]];
    }
  }

  lemma WesternPrefixThree(s: string, n: nat)
    requires n > 0 && |s| == n + 3
    ensures WesternPrefix(s, |s|) == WesternPrefix(s, n) + "," + s[n..]
  {
    var x := WesternPrefix(s, n) + ",";
    assert WesternPrefix(s, n + 1) == x + [s[n]];
    assert WesternPrefix(s, n + 2) == x + [s[n]] + [s[n + 1]];
    assert WesternPrefix(s, n + 3) == x + [s[n]] + [s[n + 1]] + [s[n + 2]];
    assert s[n..] == [s[n]] + [s[n + 1]] + [s[n + 2]];
    assert x + [s[n]] + [s[n + 1]] + [s[n + 2]] == x + ([s[n]] + [s[n + 1]] + [s[n + 2]]);
  }

  lemma {:induction false} WesternPrefixIsGroups(s: string)
    requires s != ""
    ensures WesternPrefix(s, |s|) == Join(WesternGroups(s), ",")
    decreases |s|
  {
    if |s| <= 3 {
      WesternPrefixShort(s, |s|);
      assert s[..|s|] == s;
    } else {
      var t, n := s[..|s| - 3], |s| - 3;
      WesternPrefixIsGroups(t);
      WesternPrefixCut(s, n);
      WesternPrefixThree(s, n);
      WesternShape(t);
      JoinSnoc(WesternGroups(t), s[n..], ",");
    }
  }

  method WesternComma(n: Int64) returns (r: string)
    requires n as int != MIN_INT64
    ensures r == Western(n as int)
    decreases n < 0
  {
    if n < 0 {
      r := WesternComma(-n);
      return "-" + r;
    }
    var s := Digits(n as int);
    if |s| <= 3 {
      return s;
    }
    r := "";
    for i := 0 to |s|
      invariant r == WesternPrefix(s, i)
    {
      var pos := |s| - i;
      if i > 0 && pos % 3 == 0 {
        r := r + ",";
      }
      r := r + [s[i]];
    }
    WesternPrefixIsGroups(s);
  }

  /** Deleting the commas gives back the plain decimal text. */
  lemma CommasReadBack(n: int)
    ensures Strip(Indian(n)) == FormatInt(n) && Strip(Western(n)) == FormatInt(n)
  {
    var s := Digits(Abs(n));
    IndianShape(s);
    WesternShape(s);
    StripJoin(IndianGroups(s));
    StripJoin(WesternGroups(s));
    DeleteNone(Sign(n), ',');
    DeleteAppend(Sign(n), Join(IndianGroups(s), ","), ',');
    DeleteAppend(Sign(n), Join(WesternGroups(s), ","), ',');
  }

  /** Both groupings of a long number end in a comma and three digits. */
  lemma JoinedGroups(s: string)
    requires |s| > 3
    ensures var t, z := s[..|s| - 3], s[|s| - 3..];
            && Join(IndianGroups(s), ",") == Join(Pairs(t), ",") + "," + z
            && Join(WesternGroups(s), ",") == Join(WesternGroups(t), ",") + "," + z
  {
    var t, z := s[..|s| - 3], s[|s| - 3..];
    PairsShape(t);
    WesternShape(t);
    JoinSnoc(Pairs(t), z, ",");
    JoinSnoc(WesternGroups(t), z, ",");
  }

  /** Three characters from the end of the head, the pairs have a comma. */
  lemma PairsEnd(t: string)
    requires |t| > 2
    ensures var a := Join(Pairs(t), ","); |a| >= 3 && a[|a| - 3] == ','
  {
    PairsShape(t[..|t| - 2]);
    JoinSnoc(Pairs(t[..|t| - 2]), t[|t| - 2..], ",");
  }

  /** There the triples have a digit. */
  lemma TriplesEnd(t: string)
    requires |t| > 2
    ensures var b := Join(WesternGroups(t), ","); |b| >= 3 && b[|b| - 3] == t[|t| - 3]
  {
    if |t| > 3 {
      WesternShape(t[..|t| - 3]);
      JoinSnoc(WesternGroups(t[..|t| - 3]), t[|t| - 3..], ",");
    }
  }

  lemma DifferBeforeTail(a: string, b: string, z: string)
    requires |a| >= 3 && |b| >= 3 && |z| == 3 && a[|a| - 3] != b[|b| - 3]
    ensures a + "," + z != b + "," + z
  {
    assert (a + "," + z)[|a + "," + z| - 7] == a[|a| - 3];
    assert (b + "," + z)[|b + "," + z| - 7] == b[|b| - 3];
  }

  lemma HeadsDiffer(t: string)
    requires |t| > 2 && t[|t| - 3] != ','
    ensures var a, b := Join(Pairs(t), ","), Join(WesternGroups(t), ",");
            |a| >= 3 && |b| >= 3 && a[|a| - 3] != b[|b| - 3]
  {
    PairsEnd(t);
    TriplesEnd(t);
  }

  lemma HeadsAndTail(s: string) returns (a: string, b: string, z: string)
    requires |s| >= 6 && s[|s| - 6] != ','
    ensures Join(IndianGroups(s), ",") == a + "," + z && Join(WesternGroups(s), ",") == b + "," + z
    ensures |a| >= 3 && |b| >= 3 && |z| == 3 && a[|a| - 3] != b[|b| - 3]
  {
    var t := s[..|s| - 3];
    a, b, z := Join(Pairs(t), ","), Join(WesternGroups(t), ","), s[|s| - 3..];
    HeadsDiffer(t);
    JoinedGroups(s);
  }

  /** Seven characters from the end, Indian grouping has a comma and Western grouping a digit. */
  lemma LongGroupsDiffer(s: string)
    requires |s| >= 6 && s[|s| - 6] != ','
    ensures Join(IndianGroups(s), ",") != Join(WesternGroups(s), ",")
  {
    var a, b, z := HeadsAndTail(s);
    DifferBeforeTail(a, b, z);
  }

  lemma ShortGroupsAgree(s: string)
    requires 1 <= |s| <= 5
    ensures IndianGroups(s) == WesternGroups(s)
  {
  }

  /** The two groupings agree exactly below one lakh. */
  lemma GroupingsAgreeIff(n: int)
    ensures Indian(n) == Western(n) <==> Abs(n) < 100000
  {
    var s := Digits(Abs(n));
    DigitsLength(Abs(n), 5);
    assert Pow10(5) == 100000;
    if |s| <= 5 {
      ShortGroupsAgree(s);
    } else {
      LongGroupsDiffer(s);
      assert Indian(n)[|Sign(n)|..] == Join(IndianGroups(s), ",");
      assert Western(n)[|Sign(n)|..] == Join(WesternGroups(s), ",");
    }
  }

  lemma LongGroupsHaveComma(s: string)
    requires |s| > 3
    ensures ',' in Join(IndianGroups(s), ",") && ',' in Join(WesternGroups(s), ",")
  {
    JoinedGroups(s);
    assert ',' in ",";
  }

  /** Commas appear exactly from one thousand on. */
  lemma PlainIff(n: int)
    ensures Indian(n) == FormatInt(n) <==> Abs(n) < 1000
    ensures Abs(n) >= 1000 ==> Western(n) != FormatInt(n)
  {
    var s := Digits(Abs(n));
    DigitsLength(Abs(n), 3);
    assert Pow10(3) == 1000;
    assert ',' !in s && ',' !in FormatInt(n);
    if |s| > 3 {
      LongGroupsHaveComma(s);
      assert ',' in Indian(n) && ',' in Western(n);
    }
  }

  // ----- the strings an answer may contain -----

  /** Go's integer division truncates toward zero. */
  function TruncDiv(a: int, b: int): int
    requires b > 0
  {
    if a >= 0 then a / b else -(-a / b)
  }

  /** The forms an answer may use: plain; with Indian commas from a thousand; also Western ones from one lakh. */
  function INRStrings(rupees: int): seq<string> {
    if Abs(rupees) < 1000 then [FormatInt(rupees)]
    else if rupees < 100000 then [FormatInt(rupees), Indian(rupees)]
    else [FormatInt(rupees), Indian(rupees), Western(rupees)]
  }

  lemma PlainReadsBack(n: int)
    ensures Strip(FormatInt(n)) == FormatInt(n)
  {
    assert ',' !in FormatInt(n);
    DeleteNone(FormatInt(n), ',');
  }

  lemma INRForms(rupees: int, s: string)
    requires s in INRStrings(rupees)
    ensures s == FormatInt(rupees) || s == Indian(rupees) || s == Western(rupees)
  {
  }

  /** All forms read as the amount. */
  lemma INRStringsReadBack(rupees: int, s: string)
    requires s in INRStrings(rupees)
    ensures Strip(s) == FormatInt(rupees)
  {
    INRForms(rupees, s);
    if s == FormatInt(rupees) {
      PlainReadsBack(rupees);
    } else {
      CommasReadBack(rupees);
    }
  }

  /** The amount in whole rupees: what is left over is less than a rupee and of the amount's sign. */
  lemma WholeRupees(paise: int)
    ensures -100 < paise - 100 * TruncDiv(paise, 100) < 100
    ensures paise <= 0 ==> paise <= 100 * TruncDiv(paise, 100) <= 0
    ensures paise >= 0 ==> 0 <= 100 * TruncDiv(paise, 100) <= paise
  {
  }

  /** They are pairwise distinct; only the Western form of a debt of one lakh or more is missing. */
  lemma INRStringsDistinct(rupees: int)
    ensures var s := INRStrings(rupees);
            && (|s| >= 2 ==> s[0] != s[1]) && (|s| == 3 ==> s[0] != s[2] && s[1] != s[2])
            && FormatInt(rupees) in s && Indian(rupees) in s && (Western(rupees) in s <==> rupees > -100000)
            && forall x | x in s :: x in {FormatInt(rupees), Indian(rupees), Western(rupees)}
  {
    var raw, indian, western := FormatInt(rupees), Indian(rupees), Western(rupees);
    GroupingsAgreeIff(rupees);
    PlainIff(rupees);
    assert Abs(rupees) < 1000 ==> indian == raw && western == indian;
  }

  /** A debt of one lakh: "-100,000" is not among its forms. */
  lemma WesternDebtMissing()
    ensures Western(-100000) == "-100,000" && Western(-100000) !in INRStrings(-100000)
  {
    INRStringsDistinct(-100000);
    DigitsOfLakh();
    WesternOfLakh();
  }

  lemma TimesTen(n: nat)
    requires n > 0
    ensures Digits(10 * n) == Digits(n) + "0"
  {
  }

  lemma DigitsOfLakh()
    ensures Digits(100000) == "100000"
  {
    TimesTen(1);
    TimesTen(10);
    TimesTen(100);
    TimesTen(1000);
    TimesTen(10000);
  }

  lemma WesternOfLakh()
    ensures Join(WesternGroups("100000"), ",") == "100,000"
  {
    var s := "100000";
    assert s[..|s| - 3] == "100" && s[|s| - 3..] == "000";
    JoinSnoc(["100"], "000", ",");
  }

  method PaiseToINRStrings(paise: Int64) returns (out: seq<string>)
    ensures out == INRStrings(TruncDiv(paise as int, 100))
  {
    var rupees := TruncDiv(paise as int, 100) as Int64;
    GroupingsAgreeIff(rupees as int);
    PlainIff(rupees as int);
    var raw := FormatInt(rupees as int);
    var indian := IndianComma(rupees);
    var seen := {raw};
    out := [raw];
    if indian !in seen {
      seen := seen + {indian};
      out := out + [indian];
    }
    if rupees >= 100000 {
      var western := WesternComma(rupees);
      if western !in seen {
        out := out + [western];
      }
    }
  }
}
