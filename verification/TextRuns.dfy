/**
  Maximal runs of a class of characters: the words of a text.  Keyword extraction, whitespace fields and
  both slug makers all cut their input into such runs.
 */
module TextRuns {

  predicate All(w: string, p: char -> bool) {
    forall i | 0 <= i < |w| :: p(w[i])
  }

  /** Non-empty words of the class. */
  predicate Words(ws: seq<string>, p: char -> bool) {
    forall i | 0 <= i < |ws| :: ws[i] != "" && All(ws[i], p)
  }

  /** How many characters at the end of `s` belong to the class. */
  function TailLen(s: string, p: char -> bool): (k: nat)
    ensures k <= |s|
    ensures forall i | |s| - k <= i < |s| :: p(s[i])
    ensures k < |s| ==> !p(s[|s| - k - 1])
  {
    if s == "" || !p(s[|s| - 1]) then 0 else 1 + TailLen(s[..|s| - 1], p)
  }

  /** The maximal runs of `s`, left to right. */
  function Runs(s: string, p: char -> bool): seq<string> {
    if s == "" then []
    else
      var k := TailLen(s, p);
      if k == 0 then Runs(s[..|s| - 1], p) else Runs(s[..|s| - k], p) + [s[|s| - k..]]
  }

  /** Where those runs are. */
  function Spans(s: string, p: char -> bool): seq<(nat, nat)> {
    if s == "" then []
    else
      var k := TailLen(s, p);
      if k == 0 then Spans(s[..|s| - 1], p) else Spans(s[..|s| - k], p) + [(|s| - k, |s|)]
  }

  /** `[i, j)` is a non-empty stretch of the class that cannot be extended on either side. */
  ghost predicate MaximalRun(s: string, p: char -> bool, i: nat, j: nat) {
    && i < j <= |s|
    && (forall k | i <= k < j :: p(s[k]))
    && (i > 0 ==> !p(s[i - 1]))
    && (j < |s| ==> !p(s[j]))
  }

  /** Where the last step of `Runs` and `Spans` cuts. */
  function CutPoint(s: string, p: char -> bool): nat
    requires s != ""
  {
    if TailLen(s, p) == 0 then |s| - 1 else |s| - TailLen(s, p)
  }

  lemma CutIsBoundary(s: string, p: char -> bool)
    requires s != ""
    ensures var n := CutPoint(s, p); n < |s| && (!p(s[n]) || n == 0 || !p(s[n - 1]))
  {
  }

  lemma PastTheCut(s: string, p: char -> bool, i: nat, j: nat)
    requires s != "" && CutPoint(s, p) < j
    ensures MaximalRun(s, p, i, j) <==> TailLen(s, p) > 0 && (i, j) == (CutPoint(s, p), |s|)
  {
    var k := TailLen(s, p);
    if k > 0 {
      if j <= |s| {
        assert All(s[|s| - k..], p);
        LastRun(s, p, k, i, j);
      }
    } else if i < j == |s| {
      assert !p(s[j - 1]);
    }
  }

  lemma BeforeTheCut(s: string, p: char -> bool, i: nat, j: nat)
    requires s != "" && j <= CutPoint(s, p)
    ensures MaximalRun(s, p, i, j) <==> MaximalRun(s[..CutPoint(s, p)], p, i, j)
  {
    CutIsBoundary(s, p);
    MaximalRunPrefix(s, p, CutPoint(s, p), i, j);
  }

  lemma SpansStep(s: string, p: char -> bool, span: (nat, nat))
    requires s != ""
    ensures span in Spans(s, p)
            <==> span in Spans(s[..CutPoint(s, p)], p) || (TailLen(s, p) > 0 && span == (CutPoint(s, p), |s|))
  {
  }

  /** `Spans` lists exactly the maximal runs. */
  lemma {:induction false} SpanIffMaximal(s: string, p: char -> bool, i: nat, j: nat)
    ensures (i, j) in Spans(s, p) <==> MaximalRun(s, p, i, j)
    decreases |s|
  {
    if s != "" {
      SpanIffMaximal(s[..CutPoint(s, p)], p, i, j);
      SpansStep(s, p, (i, j));
      if j <= CutPoint(s, p) {
        BeforeTheCut(s, p, i, j);
      } else {
        PastTheCut(s, p, i, j);
      }
    }
  }

  /** `spans` are stretches of `s`, one after another, with the texts `words`. */
  ghost predicate Cuts(s: string, spans: seq<(nat, nat)>, words: seq<string>) {
    && |spans| == |words|
    && (forall a | 0 <= a < |spans| :: CutAt(s, spans[a], words[a]))
    && (forall a, b | 0 <= a < b < |spans| :: spans[a].1 <= spans[b].0)
  }

  predicate CutAt(s: string, span: (nat, nat), word: string) {
    span.0 < span.1 <= |s| && word == s[span.0..span.1]
  }

  lemma CutsOfPrefix(s: string, n: nat, spans: seq<(nat, nat)>, words: seq<string>)
    requires n <= |s| && Cuts(s[..n], spans, words)
    ensures Cuts(s, spans, words)
  {
    forall a | 0 <= a < |spans| ensures CutAt(s, spans[a], words[a]) {
      assert CutAt(s[..n], spans[a], words[a]);
      assert s[..n][spans[a].0..spans[a].1] == s[spans[a].0..spans[a].1];
    }
  }

  lemma CutsAdd(s: string, n: nat, spans: seq<(nat, nat)>, words: seq<string>)
    requires n < |s| && Cuts(s[..n], spans, words)
    ensures Cuts(s, spans + [(n, |s|)], words + [s[n..]])
  {
    CutsOfPrefix(s, n, spans, words);
    forall a | 0 <= a < |spans| ensures spans[a].1 <= n {
      assert CutAt(s[..n], spans[a], words[a]);
    }
    assert s[n..|s|] == s[n..];
  }

  /** They are listed in text order, with their texts. */
  lemma {:induction false} SpansInOrder(s: string, p: char -> bool)
    ensures Cuts(s, Spans(s, p), Runs(s, p))
    decreases |s|
  {
    if s != "" {
      var k := TailLen(s, p);
      if k == 0 {
        SpansInOrder(s[..|s| - 1], p);
        CutsOfPrefix(s, |s| - 1, Spans(s[..|s| - 1], p), Runs(s[..|s| - 1], p));
      } else {
        SpansInOrder(s[..|s| - k], p);
        CutsAdd(s, |s| - k, Spans(s[..|s| - k], p), Runs(s[..|s| - k], p));
      }
    }
  }

  lemma MaximalRunPrefix(s: string, p: char -> bool, n: nat, i: nat, j: nat)
    requires j <= n <= |s|
    requires n == |s| || !p(s[n]) || n == 0 || !p(s[n - 1])
    ensures MaximalRun(s, p, i, j) <==> MaximalRun(s[..n], p, i, j)
  {
    assert j > 0 ==> s[..n][j - 1] == s[j - 1];
  }

  /** The only maximal run reaching past the boundary before a tail of length `k` is the tail itself. */
  lemma LastRun(s: string, p: char -> bool, k: nat, i: nat, j: nat)
    requires 0 < k <= |s| < j + k && All(s[|s| - k..], p) && (k < |s| ==> !p(s[|s| - k - 1]))
    ensures MaximalRun(s, p, i, j) <==> (i, j) == (|s| - k, |s|)
  {
    var n := |s| - k;
    assert forall m | n <= m < |s| :: p(s[m]) by {
      forall m | n <= m < |s| ensures p(s[m]) {
        assert s[m] == s[n..][m - n];
      }
    }
    if j < |s| {
      assert p(s[j]);
    } else if i < n {
      assert !p(s[n - 1]);
    } else if n < i < |s| {
      assert p(s[i - 1]);
    }
  }

  /** A word appears among the runs exactly when it is the text of a maximal run. */
  lemma RunIffMaximal(s: string, p: char -> bool, w: string)
    ensures w in Runs(s, p) <==> exists i: nat, j: nat :: MaximalRun(s, p, i, j) && s[i..j] == w
  {
    SpansInOrder(s, p);
    if w in Runs(s, p) {
      var a :| 0 <= a < |Runs(s, p)| && Runs(s, p)[a] == w;
      var (i, j) := Spans(s, p)[a];
      assert CutAt(s, (i, j), w);
      SpanIffMaximal(s, p, i, j);
      assert MaximalRun(s, p, i, j) && s[i..j] == w;
    }
    if i: nat, j: nat :| MaximalRun(s, p, i, j) && s[i..j] == w {
      SpanIffMaximal(s, p, i, j);
      var a :| 0 <= a < |Spans(s, p)| && Spans(s, p)[a] == (i, j);
      assert CutAt(s, Spans(s, p)[a], Runs(s, p)[a]);
    }
  }

  lemma {:induction false} RunStart(s: string, p: char -> bool, k: nat) returns (i: nat)
    requires k < |s| && p(s[k])
    ensures i <= k && (forall m | i <= m <= k :: p(s[m])) && (i > 0 ==> !p(s[i - 1]))
  {
    i := k;
    if k > 0 && p(s[k - 1]) {
      i := RunStart(s, p, k - 1);
    }
  }

  lemma {:induction false} RunEnd(s: string, p: char -> bool, k: nat) returns (j: nat)
    requires k < |s| && p(s[k])
    ensures k < j <= |s| && (forall m | k <= m < j :: p(s[m])) && (j < |s| ==> !p(s[j]))
    decreases |s| - k
  {
    j := k + 1;
    if j < |s| && p(s[j]) {
      j := RunEnd(s, p, j);
    }
  }

  lemma {:induction false} NoRunIff(s: string, p: char -> bool)
    ensures Runs(s, p) == [] <==> forall k | 0 <= k < |s| :: !p(s[k])
    decreases |s|
  {
    if s != "" && TailLen(s, p) == 0 {
      NoRunIff(s[..|s| - 1], p);
    }
  }

  lemma FirstSpan(s: string, p: char -> bool, a: nat, b: nat)
    requires (a, b) in Spans(s, p)
    ensures Spans(s, p)[0].0 <= a
  {
    SpansInOrder(s, p);
    var n :| 0 <= n < |Spans(s, p)| && Spans(s, p)[n] == (a, b);
    assert CutAt(s, Spans(s, p)[0], Runs(s, p)[0]);
  }

  /** The first run begins at the first character of the class. */
  lemma FirstRun(s: string, p: char -> bool) returns (i: nat, j: nat)
    requires Runs(s, p) != []
    ensures MaximalRun(s, p, i, j) && s[i..j] == Runs(s, p)[0] && forall k | 0 <= k < i :: !p(s[k])
  {
    SpansInOrder(s, p);
    i, j := Spans(s, p)[0].0, Spans(s, p)[0].1;
    assert CutAt(s, Spans(s, p)[0], Runs(s, p)[0]);
    SpanIffMaximal(s, p, i, j);
    forall k | 0 <= k < i ensures !p(s[k]) {
      if p(s[k]) {
        var a := RunStart(s, p, k);
        var b := RunEnd(s, p, k);
        SpanIffMaximal(s, p, a, b);
        FirstSpan(s, p, a, b);
      }
    }
  }

  lemma {:induction false} RunsNonEmpty(s: string, p: char -> bool)
    ensures Words(Runs(s, p), p)
    decreases |s|
  {
    if s != "" {
      var k := TailLen(s, p);
      RunsNonEmpty(if k == 0 then s[..|s| - 1] else s[..|s| - k], p);
    }
  }

  lemma {:induction false} TailLenUnique(x: string, w: string, p: char -> bool)
    requires All(w, p)
    requires x != "" ==> !p(x[|x| - 1])
    ensures TailLen(x + w, p) == |w|
  {
    var xw, k := x + w, TailLen(x + w, p);
    assert forall i | |x| <= i < |xw| :: p(xw[i]);
    assert x != "" ==> !p(xw[|x| - 1]);
    assert k < |xw| ==> !p(xw[|xw| - k - 1]);
  }

  /** A run appended after a boundary becomes the last run. */
  lemma RunsAppend(x: string, w: string, p: char -> bool)
    requires w != "" && All(w, p)
    requires x != "" ==> !p(x[|x| - 1])
    ensures Runs(x + w, p) == Runs(x, p) + [w]
  {
    TailLenUnique(x, w, p);
    assert (x + w)[..|x|] == x && (x + w)[|x|..] == w;
  }

  /** A character outside the class adds nothing. */
  lemma RunsBoundary(x: string, c: char, p: char -> bool)
    requires !p(c)
    ensures Runs(x + [c], p) == Runs(x, p)
  {
    assert (x + [c])[..|x|] == x;
  }

  lemma PrefixBoundary(s: string, i: nat, p: char -> bool)
    requires i < |s| && !p(s[i])
    ensures Runs(s[..i + 1], p) == Runs(s[..i], p)
  {
    assert s[..i + 1][..i] == s[..i];
  }

  /** A text of the class alone is one run. */
  lemma RunsWhole(w: string, p: char -> bool)
    requires w != "" && All(w, p)
    ensures Runs(w, p) == [w]
  {
    RunsAppend("", w, p);
    assert "" + w == w;
  }

  /** Character-wise translation. */
  function Translate(s: string, f: char -> char): (r: string)
    ensures |r| == |s| && forall i | 0 <= i < |s| :: r[i] == f(s[i])
  {
    seq(|s|, i requires 0 <= i < |s| => f(s[i]))
  }

  lemma Regroup<T>(x: seq<T>, a: seq<T>, b: seq<T>)
    ensures x + (a + b) == (x + a) + b
  {
  }

  /** A text without one of its characters. */
  function Delete(s: string, c: char): (r: string)
    ensures c !in r
  {
    if s == "" then "" else Delete(s[..|s| - 1], c) + (if s[|s| - 1] == c then "" else [s[|s| - 1]])
  }

  lemma {:induction false} DeleteAppend(a: string, b: string, c: char)
    ensures Delete(a + b, c) == Delete(a, c) + Delete(b, c)
  {
    if b == "" {
      assert a + b == a;
    } else {
      var init, last := b[..|b| - 1], b[|b| - 1];
      DeleteAppend(a, init, c);
      assert (a + b)[..|a + b| - 1] == a + init;
      Regroup(Delete(a, c), Delete(init, c), if last == c then "" else [last]);
    }
  }

  lemma {:induction false} DeleteNone(s: string, c: char)
    requires c !in s
    ensures Delete(s, c) == s
  {
    if s != "" {
      DeleteNone(s[..|s| - 1], c);
    }
  }

  /** Joining words with a separator. */
  function Join(ws: seq<string>, sep: string): string {
    if ws == [] then "" else if |ws| == 1 then ws[0] else Join(ws[..|ws| - 1], sep) + sep + ws[|ws| - 1]
  }

  lemma JoinSnoc(ws: seq<string>, w: string, sep: string)
    ensures Join(ws + [w], sep) == if ws == [] then w else Join(ws, sep) + sep + w
  {
    assert (ws + [w])[..|ws|] == ws;
  }

  lemma RunsSnoc(x: string, sep: char, w: string, p: char -> bool)
    requires w != "" && All(w, p) && !p(sep)
    ensures Runs(x + [sep] + w, p) == Runs(x, p) + [w]
  {
    RunsBoundary(x, sep, p);
    RunsAppend(x + [sep], w, p);
  }

  /** The words are exactly the runs of the joined text. */
  ghost predicate JoinedApart(ws: seq<string>, sep: char, p: char -> bool) { Runs(Join(ws, [sep]), p) == ws }

  lemma OneMoreWord(init: seq<string>, w: string, sep: char, p: char -> bool)
    requires JoinedApart(init, sep, p) && w != "" && All(w, p) && !p(sep)
    ensures JoinedApart(init + [w], sep, p)
  {
    JoinSnoc(init, w, [sep]);
    if init == [] {
      RunsWhole(w, p);
    } else {
      RunsSnoc(Join(init, [sep]), sep, w, p);
    }
  }

  lemma {:induction false} WordsAreApart(ws: seq<string>, sep: char, p: char -> bool)
    requires Words(ws, p) && !p(sep)
    ensures JoinedApart(ws, sep, p)
  {
    if ws != [] {
      WordsAreApart(ws[..|ws| - 1], sep, p);
      OneMoreWord(ws[..|ws| - 1], ws[|ws| - 1], sep, p);
      assert ws[..|ws| - 1] + [ws[|ws| - 1]] == ws;
    }
  }

  /** Cutting a joined text at the separator gives the words back. */
  lemma RunsOfJoin(ws: seq<string>, sep: char, p: char -> bool)
    requires Words(ws, p) && !p(sep)
    ensures Runs(Join(ws, [sep]), p) == ws
  {
    WordsAreApart(ws, sep, p);
  }
}
