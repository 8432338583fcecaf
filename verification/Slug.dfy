/**
  The two slug makers: the builder loop for labels (internal/store/label_store.go) and the regular
  expression of user creation (cmd/finagent/user.go), and get-or-create of labels by slug.
 */
module Slug {
  import opened Characters
  import opened TextRuns

  /** A lower-casing and a class of letters and digits; the label slug uses Unicode's, user creation ASCII's. */
  datatype Alphabet = Alphabet(lower: char -> char, word: char -> bool)

  /** What both classifications satisfy: lower case is final, and the hyphen is neither letter nor digit. */
  ghost predicate Proper(a: Alphabet) {
    && (forall c {:trigger a.lower(c)} :: a.word(a.lower(c)) ==> a.lower(a.lower(c)) == a.lower(c))
    && a.lower('-') == '-' && !a.word('-')
  }

  /** The slug: the lower-cased words joined by single hyphens. */
  function Slugify(a: Alphabet, s: string): string {
    Join(Runs(Translate(s, a.lower), a.word), "-")
  }

  // ----- the builder loop -----

  function TrimRight(s: string): (r: string)
    ensures r <= s && (r == "" || r[|r| - 1] != '-')
  {
    if s != "" && s[|s| - 1] == '-' then TrimRight(s[..|s| - 1]) else s
  }

  lemma TrimRightDone(s: string)
    requires s == "" || s[|s| - 1] != '-'
    ensures TrimRight(s) == s && TrimRight(s + "-") == s
  {
    assert (s + "-")[..|s|] == s;
  }

  lemma {:induction false} JoinEnds(ws: seq<string>, p: char -> bool)
    requires Words(ws, p)
    ensures (Join(ws, "-") == "") == (ws == [])
    ensures ws != [] ==> p(Join(ws, "-")[0]) && p(Join(ws, "-")[|Join(ws, "-")| - 1])
  {
    if |ws| > 1 {
      assert Words(ws[..|ws| - 1], p);
      JoinEnds(ws[..|ws| - 1], p);
    }
  }

  /** What the builder holds after a prefix `x` of the lower-cased name. */
  function Builder(x: string, p: char -> bool): string {
    Join(Runs(x, p), "-") + (if Runs(x, p) != [] && !p(x[|x| - 1]) then "-" else "")
  }

  /** A word character after another extends the last word. */
  lemma JoinExtend(y: string, w: string, c: char, p: char -> bool)
    requires w != "" && All(w, p) && p(c)
    requires y != "" ==> !p(y[|y| - 1])
    ensures Runs(y + w, p) != [] && Runs(y + (w + [c]), p) != []
    ensures Join(Runs(y + (w + [c]), p), "-") == Join(Runs(y + w, p), "-") + [c]
  {
    RunsAppend(y, w, p);
    RunsAppend(y, w + [c], p);
    JoinSnoc(Runs(y, p), w, "-");
    JoinSnoc(Runs(y, p), w + [c], "-");
    if Runs(y, p) != [] {
      assert Join(Runs(y, p), "-") + "-" + (w + [c]) == Join(Runs(y, p), "-") + "-" + w + [c];
    }
  }

  lemma BuildInside(x: string, c: char, p: char -> bool)
    requires x != "" && p(x[|x| - 1]) && p(c)
    ensures Join(Runs(x + [c], p), "-") == Join(Runs(x, p), "-") + [c]
    ensures Runs(x, p) != [] && Runs(x + [c], p) != []
  {
    var y, w := SplitTail(x, c, p);
    JoinExtend(y, w, c, p);
  }

  lemma SplitTail(x: string, c: char, p: char -> bool) returns (y: string, w: string)
    requires x != "" && p(x[|x| - 1])
    ensures x == y + w && x + [c] == y + (w + [c])
    ensures w != "" && All(w, p) && (y != "" ==> !p(y[|y| - 1]))
  {
    var k := TailLen(x, p);
    y, w := x[..|x| - k], x[|x| - k..];
  }

  lemma BuildWord(x: string, c: char, p: char -> bool)
    requires p(c)
    ensures Builder(x + [c], p) == Builder(x, p) + [c]
  {
    if x != "" && p(x[|x| - 1]) {
      BuildInside(x, c, p);
    } else {
      RunsAppend(x, [c], p);
      JoinSnoc(Runs(x, p), [c], "-");
    }
  }

  lemma BuildGap(x: string, c: char, p: char -> bool)
    requires !p(c)
    ensures Builder(x + [c], p) ==
            if Runs(x, p) != [] && p(x[|x| - 1]) then Builder(x, p) + "-" else Builder(x, p)
  {
    RunsBoundary(x, c, p);
  }

  method SlugifyLabel(a: Alphabet, s: string) returns (slug: string)
    requires !a.word('-')
    ensures slug == Slugify(a, s)
  {
    var b := "";
    var prevHyphen := false;
    ghost var t := Translate(s, a.lower);
    for i := 0 to |s|
      invariant b == Builder(t[..i], a.word)
      invariant prevHyphen <==> i > 0 && Runs(t[..i], a.word) != [] && !a.word(t[i - 1])
    {
      var c := a.lower(s[i]);
      ghost var x := t[..i];
      assert t[..i + 1] == x + [c];
      RunsNonEmpty(x, a.word);
      JoinEnds(Runs(x, a.word), a.word);
      if a.word(c) {
        BuildWord(x, c, a.word);
        b := b + [c];
        prevHyphen := false;
      } else {
        BuildGap(x, c, a.word);
        RunsBoundary(x, c, a.word);
        if !prevHyphen && |b| > 0 {
          b := b + "-";
          prevHyphen := true;
        }
      }
    }
    assert t[..|s|] == t;
    BuilderTrimmed(t, a.word);
    slug := TrimRight(b);
  }

  lemma BuilderTrimmed(t: string, p: char -> bool)
    requires !p('-')
    ensures TrimRight(Builder(t, p)) == Join(Runs(t, p), "-")
  {
    RunsNonEmpty(t, p);
    JoinEnds(Runs(t, p), p);
    TrimRightDone(Join(Runs(t, p), "-"));
  }

  // ----- what a slug looks like -----

  ghost predicate WellFormedSlug(a: Alphabet, s: string) {
    && (forall i | 0 <= i < |s| :: s[i] == '-' || a.word(s[i]))
    && (s != "" ==> s[0] != '-' && s[|s| - 1] != '-')
    && (forall i | 0 <= i < |s| - 1 :: s[i] != '-' || s[i + 1] != '-')
  }

  lemma {:induction false} JoinWellFormed(a: Alphabet, ws: seq<string>)
    requires Words(ws, a.word) && !a.word('-')
    ensures WellFormedSlug(a, Join(ws, "-"))
  {
    JoinEnds(ws, a.word);
    if |ws| > 1 {
      var init := ws[..|ws| - 1];
      assert Words(init, a.word);
      JoinWellFormed(a, init);
      JoinEnds(init, a.word);
    }
  }

  /** No leading, trailing or doubled hyphen, and nothing but words and hyphens. */
  lemma SlugWellFormed(a: Alphabet, s: string)
    requires !a.word('-')
    ensures WellFormedSlug(a, Slugify(a, s))
  {
    RunsNonEmpty(Translate(s, a.lower), a.word);
    JoinWellFormed(a, Runs(Translate(s, a.lower), a.word));
  }

  /** The words of the slug are the words of the lower-cased name, in order. */
  lemma SlugKeepsWords(a: Alphabet, s: string)
    requires !a.word('-')
    ensures Runs(Slugify(a, s), a.word) == Runs(Translate(s, a.lower), a.word)
  {
    RunsNonEmpty(Translate(s, a.lower), a.word);
    RunsOfJoin(Runs(Translate(s, a.lower), a.word), '-', a.word);
  }

  lemma {:induction false} JoinKeepsLower(a: Alphabet, t: string)
    requires forall i | 0 <= i < |t| :: a.word(t[i]) ==> a.lower(t[i]) == t[i]
    ensures forall i, j | 0 <= i < |Runs(t, a.word)| && 0 <= j < |Runs(t, a.word)[i]| ::
              a.lower(Runs(t, a.word)[i][j]) == Runs(t, a.word)[i][j]
    decreases |t|
  {
    if t != "" {
      var k := TailLen(t, a.word);
      JoinKeepsLower(a, if k == 0 then t[..|t| - 1] else t[..|t| - k]);
    }
  }

  lemma {:induction false} TranslateJoin(a: Alphabet, ws: seq<string>)
    requires Proper(a)
    requires forall i, j | 0 <= i < |ws| && 0 <= j < |ws[i]| :: a.lower(ws[i][j]) == ws[i][j]
    ensures Translate(Join(ws, "-"), a.lower) == Join(ws, "-")
  {
    if |ws| > 1 {
      TranslateJoin(a, ws[..|ws| - 1]);
    }
  }

  /** Slugifying a slug changes nothing. */
  lemma SlugifyIdempotent(a: Alphabet, s: string)
    requires Proper(a)
    ensures Slugify(a, Slugify(a, s)) == Slugify(a, s)
  {
    var t := Translate(s, a.lower);
    RunsNonEmpty(t, a.word);
    JoinKeepsLower(a, t);
    TranslateJoin(a, Runs(t, a.word));
    RunsOfJoin(Runs(t, a.word), '-', a.word);
  }

  // ----- the regular expression -----

  predicate AsciiWord(c: char) { 'a' <= c <= 'z' || '0' <= c <= '9' }

  function Ascii(): Alphabet { Alphabet(Lower, AsciiWord) }

  /** A user's slug is a fixed point of either maker. */
  lemma UserSlugIsFixed(name: string)
    ensures Slugify(Ascii(), SlugifyUser(name)) == SlugifyUser(name)
    ensures SlugifyUser(SlugifyUser(name)) == SlugifyUser(name)
  {
    AsciiProper();
    SlugMakersAgree(name);
    SlugifyIdempotent(Ascii(), name);
    SlugMakersAgree(SlugifyUser(name));
  }

  lemma AsciiProper()
    ensures Proper(Ascii())
  {
  }

  /** `[^a-z0-9]+` replaced by one hyphen at every match; matches are the maximal runs outside the class. */
  function ReplaceRuns(s: string): string {
    if s == "" then ""
    else
      var k := TailLen(s, c => !AsciiWord(c));
      if k == 0 then ReplaceRuns(s[..|s| - 1]) + [s[|s| - 1]] else ReplaceRuns(s[..|s| - k]) + "-"
  }

  function TrimLeft(s: string, p: char -> bool): string {
    if s != "" && p(s[0]) then TrimLeft(s[1..], p) else s
  }

  function TrimEnd(s: string, p: char -> bool): string {
    if s != "" && p(s[|s| - 1]) then TrimEnd(s[..|s| - 1], p) else s
  }

  predicate IsHyphen(c: char) { c == '-' }

  /** cmd/finagent/user.go: trim white space, lower-case, replace, trim hyphens. */
  function SlugifyUser(name: string): string {
    var s := Translate(TrimEnd(TrimLeft(name, IsSpace), IsSpace), Lower);
    TrimEnd(TrimLeft(ReplaceRuns(s), IsHyphen), IsHyphen)
  }

  lemma {:induction false} TrimLeftKeepsRuns(s: string, gap: char -> bool, p: char -> bool)
    requires forall c :: gap(c) ==> !p(c)
    ensures Runs(TrimLeft(s, gap), p) == Runs(s, p)
  {
    if s != "" && gap(s[0]) {
      TrimLeftKeepsRuns(s[1..], gap, p);
      DropBoundary(s[0], s[1..], p);
      assert [s[0]] + s[1..] == s;
    }
  }

  /** Texts with the same runs keep them in common when both end at a boundary and one word is appended. */
  lemma SameRunsWord(x: string, y: string, w: string, p: char -> bool)
    requires Runs(x, p) == Runs(y, p) && w != "" && All(w, p)
    requires (x != "" ==> !p(x[|x| - 1])) && (y != "" ==> !p(y[|y| - 1]))
    ensures Runs(x + w, p) == Runs(y + w, p)
  {
    RunsAppend(x, w, p);
    RunsAppend(y, w, p);
  }

  lemma SameRunsGap(x: string, y: string, d: char, p: char -> bool)
    requires Runs(x, p) == Runs(y, p) && !p(d)
    ensures Runs(x + [d], p) == Runs(y + [d], p)
  {
    RunsBoundary(x, d, p);
    RunsBoundary(y, d, p);
  }

  lemma SplitFront(c: char, s: string, n: nat)
    requires n <= |s|
    ensures [c] + s == ([c] + s[..n]) + s[n..] && s == s[..n] + s[n..]
  {
  }

  /** A character outside the class at the front adds nothing either. */
  lemma {:induction false} DropBoundary(c: char, s: string, p: char -> bool)
    requires !p(c)
    ensures Runs([c] + s, p) == Runs(s, p)
    decreases |s|
  {
    if s == "" {
      RunsBoundary("", c, p);
      assert "" + [c] == [c] + s;
    } else {
      var n := CutPoint(s, p);
      DropBoundary(c, s[..n], p);
      SplitFront(c, s, n);
      if TailLen(s, p) == 0 {
        assert s[n..] == [s[n]];
        SameRunsGap([c] + s[..n], s[..n], s[n], p);
      } else {
        SameRunsWord([c] + s[..n], s[..n], s[n..], p);
      }
    }
  }

  lemma {:induction false} TrimEndKeepsRuns(s: string, gap: char -> bool, p: char -> bool)
    requires forall c :: gap(c) ==> !p(c)
    ensures Runs(TrimEnd(s, gap), p) == Runs(s, p)
  {
    if s != "" && gap(s[|s| - 1]) {
      TrimEndKeepsRuns(s[..|s| - 1], gap, p);
      RunsBoundary(s[..|s| - 1], s[|s| - 1], p);
      assert s[..|s| - 1] + [s[|s| - 1]] == s;
    }
  }

  lemma {:induction false} TranslateTrimLeft(s: string)
    ensures Translate(TrimLeft(s, IsSpace), Lower) == TrimLeft(Translate(s, Lower), IsSpace)
  {
    if s != "" && IsSpace(s[0]) {
      TranslateTrimLeft(s[1..]);
      assert Translate(s, Lower)[1..] == Translate(s[1..], Lower);
    }
  }

  lemma {:induction false} TranslateTrimEnd(s: string)
    ensures Translate(TrimEnd(s, IsSpace), Lower) == TrimEnd(Translate(s, Lower), IsSpace)
  {
    if s != "" && IsSpace(s[|s| - 1]) {
      TranslateTrimEnd(s[..|s| - 1]);
      assert Translate(s, Lower)[..|s| - 1] == Translate(s[..|s| - 1], Lower);
    }
  }

  lemma {:induction false} RunsDropGap(s: string, n: nat, p: char -> bool)
    requires n <= |s| && forall i | n <= i < |s| :: !p(s[i])
    ensures Runs(s[..n], p) == Runs(s, p)
    decreases |s|
  {
    if n == |s| {
      assert s[..n] == s;
    } else {
      var t := s[..|s| - 1];
      RunsDropGap(t, n, p);
      assert t[..n] == s[..n] && t + [s[|s| - 1]] == s;
      RunsBoundary(t, s[|s| - 1], p);
    }
  }

  function Lead(s: string): string { if s != "" && !AsciiWord(s[0]) then "-" else "" }

  lemma ReplaceGap(s: string, t: string)
    requires t < s && (forall i | |t| <= i < |s| :: !AsciiWord(s[i]))
    requires t != "" ==> AsciiWord(t[|t| - 1])
    ensures Lead(t) + Builder(t, AsciiWord) + "-" == Lead(s) + Builder(s, AsciiWord)
  {
    assert s[..|t|] == t;
    RunsDropGap(s, |t|, AsciiWord);
    if t == "" {
      assert Builder(s, AsciiWord) == "";
    } else {
      assert TailLen(t, AsciiWord) > 0;
      assert Runs(t, AsciiWord) != [];
    }
  }

  lemma ReplaceWord(t: string, c: char)
    requires AsciiWord(c)
    ensures Lead(t) + Builder(t, AsciiWord) + [c] == Lead(t + [c]) + Builder(t + [c], AsciiWord)
  {
    BuildWord(t, c, AsciiWord);
    assert (t + [c])[0] == if t == "" then c else t[0];
    assert Lead(t + [c]) == Lead(t);
  }

  /** Replacement yields the builder's text, preceded by a hyphen when the name starts with a gap. */
  lemma {:induction false} ReplaceIsBuilder(s: string)
    ensures ReplaceRuns(s) == Lead(s) + Builder(s, AsciiWord)
    decreases |s|
  {
    if s != "" {
      var k := TailLen(s, c => !AsciiWord(c));
      if k == 0 {
        var t, c := s[..|s| - 1], s[|s| - 1];
        assert t + [c] == s;
        ReplaceIsBuilder(t);
        ReplaceWord(t, c);
      } else {
        ReplaceIsBuilder(s[..|s| - k]);
        ReplaceGap(s, s[..|s| - k]);
      }
    }
  }

  lemma TrimLead(lead: string, s: string)
    requires lead == "" || lead == "-"
    requires s != "" ==> s[0] != '-'
    ensures TrimLeft(lead + s, IsHyphen) == s
  {
    if lead == "" {
      assert lead + s == s;
    } else {
      assert (lead + s)[1..] == s;
    }
  }

  lemma TrimTrail(s: string, trail: string)
    requires trail == "" || trail == "-"
    requires s != "" ==> s[|s| - 1] != '-'
    ensures TrimEnd(s + trail, IsHyphen) == s
  {
    if trail == "" {
      assert s + trail == s;
    } else {
      assert (s + trail)[..|s + trail| - 1] == s;
    }
  }

  lemma TrimHyphens(lead: string, s: string, trail: string)
    requires (lead == "" || lead == "-") && (trail == "" || trail == "-")
    requires s != "" ==> s[0] != '-' && s[|s| - 1] != '-'
    requires s == "" ==> trail == ""
    ensures TrimEnd(TrimLeft(lead + (s + trail), IsHyphen), IsHyphen) == s
  {
    TrimLead(lead, s + trail);
    TrimTrail(s, trail);
  }

  lemma ReplaceTrimmed(s: string)
    ensures TrimEnd(TrimLeft(ReplaceRuns(s), IsHyphen), IsHyphen) == Join(Runs(s, AsciiWord), "-")
  {
    ReplaceIsBuilder(s);
    RunsNonEmpty(s, AsciiWord);
    var ws := Runs(s, AsciiWord);
    JoinEnds(ws, AsciiWord);
    var trail := if ws != [] && !AsciiWord(s[|s| - 1]) then "-" else "";
    assert ReplaceRuns(s) == Lead(s) + (Join(ws, "-") + trail);
    TrimHyphens(Lead(s), Join(ws, "-"), trail);
  }

  lemma TrimSpaceKeepsRuns(name: string)
    ensures Runs(Translate(TrimEnd(TrimLeft(name, IsSpace), IsSpace), Lower), AsciiWord)
         == Runs(Translate(name, Lower), AsciiWord)
  {
    var t := Translate(name, Lower);
    TranslateTrimLeft(name);
    TranslateTrimEnd(TrimLeft(name, IsSpace));
    TrimLeftKeepsRuns(t, IsSpace, AsciiWord);
    TrimEndKeepsRuns(TrimLeft(t, IsSpace), IsSpace, AsciiWord);
  }

  /** On every name the two slug makers agree, taking the label one over ASCII. */
  lemma SlugMakersAgree(name: string)
    ensures SlugifyUser(name) == Slugify(Ascii(), name)
  {
    TrimSpaceKeepsRuns(name);
    ReplaceTrimmed(Translate(TrimEnd(TrimLeft(name, IsSpace), IsSpace), Lower));
  }

  // ----- labels -----

  datatype Label = Label(id: nat, owner: string, name: string)

  datatype Lookup = Found(id: nat) | StoreError

  /** The labels table: slugs are unique across all users. */
  datatype LabelDb = LabelDb(labels: map<string, Label>, nextId: nat)

  ghost predicate LabelsOk(db: LabelDb) {
    && (forall s | s in db.labels :: db.labels[s].id < db.nextId)
    && (forall s, r | s in db.labels && r in db.labels && s != r :: db.labels[s].id != db.labels[r].id)
  }

  /** Look the slug up, or insert a label under it; `lookupFails` and `insertFails` are the database's choices. */
  function FoundOrCreated(a: Alphabet, db: LabelDb, user: string, name: string, lookupFails: bool, insertFails: bool)
    : (LabelDb, Lookup)
  {
    var slug := Slugify(a, name);
    if lookupFails then (db, StoreError)
    else if slug in db.labels then (db, Found(db.labels[slug].id))
    else if insertFails then (db, StoreError)
    else (LabelDb(db.labels[slug := Label(db.nextId, user, name)], db.nextId + 1), Found(db.nextId))
  }

  class LabelStore {
    const alphabet: Alphabet
    var labels: map<string, Label>
    var nextId: nat

    function View(): LabelDb
      reads this
    {
      LabelDb(labels, nextId)
    }

    constructor (a: Alphabet)
      ensures alphabet == a && View() == LabelDb(map[], 0)
    {
      alphabet := a;
      labels, nextId := map[], 0;
    }

    method FindOrCreate(user: string, name: string, lookupFails: bool, insertFails: bool) returns (r: Lookup)
      requires !alphabet.word('-')
      modifies this
      ensures (View(), r) == FoundOrCreated(alphabet, old(View()), user, name, lookupFails, insertFails)
    {
      var slug := SlugifyLabel(alphabet, name);
      if lookupFails {
        return StoreError;
      }
      if slug in labels {
        return Found(labels[slug].id);
      }
      if insertFails {
        return StoreError;
      }
      labels := labels[slug := Label(nextId, user, name)];
      r := Found(nextId);
      nextId := nextId + 1;
    }
  }

  datatype LabelCall = LabelCall(user: string, name: string, lookupFails: bool, insertFails: bool)

  function Called(a: Alphabet, db: LabelDb, c: LabelCall): (LabelDb, Lookup) {
    FoundOrCreated(a, db, c.user, c.name, c.lookupFails, c.insertFails)
  }

  /** A call fails when the lookup does, or the insert of a slug that is not there.  It creates a label with the name
      and the caller only when the slug is not there, and changes nothing else. */
  lemma CallStores(a: Alphabet, db: LabelDb, c: LabelCall)
    ensures var (db', r) := Called(a, db, c);
            var slug := Slugify(a, c.name);
            && (r == StoreError <==> c.lookupFails || (slug !in db.labels && c.insertFails))
            && (r.Found? && slug in db.labels ==> db' == db && r.id == db.labels[slug].id)
            && (r.Found? && slug !in db.labels ==>
                  && r.id == db.nextId && db'.nextId == db.nextId + 1
                  && db'.labels == db.labels[slug := Label(r.id, c.user, c.name)])
            && (r == StoreError ==> db' == db)
  {
  }

  /** Any calls of any users, from an empty table. */
  ghost predicate IsLabelRun(a: Alphabet, trace: seq<LabelDb>, calls: seq<LabelCall>) {
    && |trace| == |calls| + 1 && trace[0] == LabelDb(map[], 0)
    && forall i | 0 <= i < |calls| :: trace[i + 1] == Called(a, trace[i], calls[i]).0
  }

  lemma {:induction false} LabelRunOk(a: Alphabet, trace: seq<LabelDb>, calls: seq<LabelCall>, i: nat)
    requires IsLabelRun(a, trace, calls) && i < |trace|
    ensures LabelsOk(trace[i])
  {
    if i > 0 {
      LabelRunOk(a, trace, calls, i - 1);
    }
  }

  /** A call that succeeds leaves its label, with the id returned, in every later table. */
  lemma {:induction false} LabelStays(a: Alphabet, trace: seq<LabelDb>, calls: seq<LabelCall>, i: nat, j: nat)
    requires IsLabelRun(a, trace, calls) && i < j < |trace| && Called(a, trace[i], calls[i]).1.Found?
    ensures var slug := Slugify(a, calls[i].name);
            slug in trace[j].labels && trace[j].labels[slug].id == Called(a, trace[i], calls[i]).1.id
    decreases j
  {
    if i < j - 1 {
      LabelStays(a, trace, calls, i, j - 1);
    }
  }

  /** In every run, two successful calls return the same label exactly when their names have the same slug, whoever
      makes them and whatever fails in between. */
  lemma SameLabelIff(a: Alphabet, trace: seq<LabelDb>, calls: seq<LabelCall>, i: nat, j: nat)
    requires IsLabelRun(a, trace, calls) && i < j < |calls|
    requires Called(a, trace[i], calls[i]).1.Found? && Called(a, trace[j], calls[j]).1.Found?
    ensures Called(a, trace[i], calls[i]).1.id == Called(a, trace[j], calls[j]).1.id
            <==> Slugify(a, calls[i].name) == Slugify(a, calls[j].name)
  {
    LabelStays(a, trace, calls, i, j + 1);
    LabelStays(a, trace, calls, j, j + 1);
    LabelRunOk(a, trace, calls, j + 1);
  }
}
