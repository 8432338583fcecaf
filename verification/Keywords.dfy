/**
  Keyword tags (internal/tools/queriers.go `autoTags`, internal/store/memory_store.go `memoryKeywords`)
  and the tag filter of memory recall.  A text is a sequence of characters; the byte scan of the source breaks words
  at every byte of a character outside ASCII, which is at the character.
 */
module Keywords {
  import opened Characters
  import opened TextRuns

  predicate IsLetter(c: char) { 'a' <= c <= 'z' || IsUpper(c) }

  function LowerAll(s: string): string { Translate(s, Lower) }

  /** Distinct words longer than four letters, in the order in which each first appears. */
  function LongDistinct(ws: seq<string>): seq<string> {
    if ws == [] then []
    else
      var init, w := LongDistinct(ws[..|ws| - 1]), ws[|ws| - 1];
      if |w| > 4 && w !in init then init + [w] else init
  }

  /** The keywords of a text: lower-cased letter runs longer than four, without repetition. */
  function Keywords(text: string): seq<string> {
    LongDistinct(Runs(LowerAll(text), IsLetter))
  }

  /** The fall-back knows Unicode's white space and case; the scan only ASCII's. */
  function Fields(u: Script, text: string): seq<string> {
    Runs(Translate(text, u.lower), ch => !u.space(ch))
  }

  /** What `autoTags` stores: the keywords, or failing that the first field. */
  function AutoTags(u: Script, text: string): seq<string> {
    if Keywords(text) != [] then Keywords(text)
    else if Fields(u, text) != [] then Fields(u, text)[..1] else []
  }

  /** What `memoryKeywords` asks for: the keywords, or failing that every field. */
  function QueryTags(u: Script, text: string): seq<string> {
    if Keywords(text) != [] then Keywords(text) else Fields(u, text)
  }

  lemma {:induction false} LongDistinctIs(ws: seq<string>)
    ensures forall w :: w in LongDistinct(ws) <==> w in ws && |w| > 4
    ensures forall i, j | 0 <= i < j < |LongDistinct(ws)| :: LongDistinct(ws)[i] != LongDistinct(ws)[j]
  {
    if ws != [] {
      LongDistinctIs(ws[..|ws| - 1]);
      assert ws == ws[..|ws| - 1] + [ws[|ws| - 1]];
    }
  }

  /** Where a word is first seen. */
  ghost predicate FirstAt(ws: seq<string>, w: string, i: nat) {
    i < |ws| && ws[i] == w && w !in ws[..i]
  }

  /** Keywords keep the order of first appearance. */
  lemma {:induction false} LongDistinctOrder(ws: seq<string>, a: nat, b: nat) returns (i: nat, j: nat)
    requires a < b < |LongDistinct(ws)|
    ensures FirstAt(ws, LongDistinct(ws)[a], i) && FirstAt(ws, LongDistinct(ws)[b], j) && i < j
  {
    var init := ws[..|ws| - 1];
    LongDistinctIs(init);
    if b < |LongDistinct(init)| {
      i, j := LongDistinctOrder(init, a, b);
      assert ws[..i] == init[..i] && ws[..j] == init[..j];
    } else {
      i := FirstOf(init, LongDistinct(ws)[a]);
      j := |ws| - 1;
      assert ws[..i] == init[..i];
    }
  }

  lemma {:induction false} FirstOf(ws: seq<string>, w: string) returns (i: nat)
    requires w in ws
    ensures FirstAt(ws, w, i)
  {
    if w in ws[..|ws| - 1] {
      i := FirstOf(ws[..|ws| - 1], w);
      assert ws[..i] == ws[..|ws| - 1][..i];
    } else {
      i := |ws| - 1;
    }
  }

  /** `text[i..j]` is a letter run longer than four that cannot be extended. */
  ghost predicate LongWordAt(text: string, i: nat, j: nat) {
    MaximalRun(text, IsLetter, i, j) && j - i > 4
  }

  lemma LowerKeepsRuns(text: string, i: nat, j: nat)
    ensures MaximalRun(LowerAll(text), IsLetter, i, j) <==> MaximalRun(text, IsLetter, i, j)
  {
    assert forall k | 0 <= k < |text| :: IsLetter(LowerAll(text)[k]) <==> IsLetter(text[k]);
  }

  /** A keyword is exactly a lower-cased maximal letter run of the text that is longer than four. */
  lemma KeywordIff(text: string, w: string)
    ensures w in Keywords(text) <==> exists i: nat, j: nat :: LongWordAt(text, i, j) && LowerAll(text)[i..j] == w
  {
    LongDistinctIs(Runs(LowerAll(text), IsLetter));
    RunIffMaximal(LowerAll(text), IsLetter, w);
    if w in Keywords(text) {
      var i: nat, j: nat :| MaximalRun(LowerAll(text), IsLetter, i, j) && LowerAll(text)[i..j] == w;
      LowerKeepsRuns(text, i, j);
      assert LongWordAt(text, i, j);
    }
    if i: nat, j: nat :| LongWordAt(text, i, j) && LowerAll(text)[i..j] == w {
      LowerKeepsRuns(text, i, j);
      assert MaximalRun(LowerAll(text), IsLetter, i, j);
    }
  }

  /** Keywords are words of more than four letters from `a` to `z`. */
  lemma KeywordLetters(text: string, w: string)
    requires w in Keywords(text)
    ensures |w| > 4 && forall k | 0 <= k < |w| :: 'a' <= w[k] <= 'z'
  {
    KeywordIff(text, w);
    var i: nat, j: nat :| LongWordAt(text, i, j) && LowerAll(text)[i..j] == w;
    forall k | 0 <= k < |w| ensures 'a' <= w[k] <= 'z' {
      assert w[k] == Lower(text[i + k]);
    }
  }

  lemma KeywordsDistinct(text: string)
    ensures forall i, j | 0 <= i < j < |Keywords(text)| :: Keywords(text)[i] != Keywords(text)[j]
  {
    LongDistinctIs(Runs(LowerAll(text), IsLetter));
  }

  /** A stretch of the lower-cased text between white space. */
  ghost predicate FieldAt(u: Script, text: string, i: nat, j: nat) {
    MaximalRun(Translate(text, u.lower), ch => !u.space(ch), i, j)
  }

  /** With a long word the keywords are stored and asked for. */
  lemma TagsAreKeywords(u: Script, text: string, i: nat, j: nat)
    requires LongWordAt(text, i, j)
    ensures AutoTags(u, text) == QueryTags(u, text) == Keywords(text)
  {
    KeywordIff(text, LowerAll(text)[i..j]);
  }

  lemma NoKeyword(text: string)
    requires forall i, j :: !LongWordAt(text, i, j)
    ensures Keywords(text) == []
  {
    if Keywords(text) != [] {
      KeywordIff(text, Keywords(text)[0]);
    }
  }

  lemma FieldIff(u: Script, text: string, w: string)
    ensures w in Fields(u, text) <==>
            exists i: nat, j: nat :: FieldAt(u, text, i, j) && Translate(text, u.lower)[i..j] == w
  {
    RunIffMaximal(Translate(text, u.lower), ch => !u.space(ch), w);
  }

  /** Without one, every field is asked for. */
  lemma QueryFallsBack(u: Script, text: string, w: string)
    requires forall i, j :: !LongWordAt(text, i, j)
    ensures w in QueryTags(u, text) <==>
            exists i: nat, j: nat :: FieldAt(u, text, i, j) && Translate(text, u.lower)[i..j] == w
  {
    NoKeyword(text);
    FieldIff(u, text, w);
  }

  lemma FirstField(u: Script, text: string) returns (i: nat, j: nat)
    requires Fields(u, text) != []
    ensures FieldAt(u, text, i, j) && Translate(text, u.lower)[i..j] == Fields(u, text)[0]
    ensures forall k | 0 <= k < i :: u.space(u.lower(text[k]))
  {
    i, j := FirstRun(Translate(text, u.lower), ch => !u.space(ch));
    forall k | 0 <= k < i ensures u.space(u.lower(text[k])) {
      assert Translate(text, u.lower)[k] == u.lower(text[k]);
    }
  }

  /** And nothing but the first field is stored. */
  lemma StoredFallsBack(u: Script, text: string) returns (i: nat, j: nat)
    requires forall i, j :: !LongWordAt(text, i, j)
    requires exists k :: 0 <= k < |text| && !u.space(u.lower(text[k]))
    ensures FieldAt(u, text, i, j) && AutoTags(u, text) == [Translate(text, u.lower)[i..j]]
    ensures forall k | 0 <= k < i :: u.space(u.lower(text[k]))
  {
    NoKeyword(text);
    NoFieldIff(u, text);
    i, j := FirstField(u, text);
  }

  lemma NoFieldIff(u: Script, text: string)
    ensures Fields(u, text) == [] <==> forall k | 0 <= k < |text| :: u.space(u.lower(text[k]))
  {
    NoRunIff(Translate(text, u.lower), ch => !u.space(ch));
  }

  /** A memory is stored without tags exactly when it has no long word and is all white space. */
  lemma UntaggedIff(u: Script, text: string)
    ensures AutoTags(u, text) == []
            <==> (forall i, j :: !LongWordAt(text, i, j)) && forall k | 0 <= k < |text| :: u.space(u.lower(text[k]))
  {
    NoFieldIff(u, text);
    if i: nat, j: nat :| LongWordAt(text, i, j) {
      KeywordIff(text, LowerAll(text)[i..j]);
    } else {
      NoKeyword(text);
    }
  }

  // ----- the recall filter -----

  /** `tags = '{}' OR tags && query`: a memory without tags always passes. */
  predicate RecallFilter(tags: seq<string>, query: seq<string>) {
    tags == [] || exists t :: t in tags && t in query
  }

  /** If content and query share a word longer than four letters, in any case, the tags overlap. */
  lemma SharedWordIsRecalled(u: Script, content: string, query: string, i: nat, j: nat, k: nat, l: nat)
    requires LongWordAt(content, i, j) && LongWordAt(query, k, l)
    requires LowerAll(content)[i..j] == LowerAll(query)[k..l]
    ensures exists t :: t in AutoTags(u, content) && t in QueryTags(u, query)
    ensures RecallFilter(AutoTags(u, content), QueryTags(u, query))
  {
    var w := LowerAll(content)[i..j];
    KeywordIff(content, w);
    KeywordIff(query, w);
    assert w in AutoTags(u, content) && w in QueryTags(u, query);
  }

  /** Asking with the remembered text itself always passes the filter, even when it has no long word. */
  lemma SelfIsRecalled(u: Script, text: string)
    ensures RecallFilter(AutoTags(u, text), QueryTags(u, text))
  {
    if AutoTags(u, text) != [] {
      assert AutoTags(u, text)[0] in QueryTags(u, text);
    }
  }

  /** Exactly when long words are present on both sides, recall means a shared long word. */
  lemma RecallIffSharedWord(u: Script, content: string, query: string)
    requires Keywords(content) != [] && Keywords(query) != []
    ensures RecallFilter(AutoTags(u, content), QueryTags(u, query)) <==>
            exists i: nat, j: nat, k: nat, l: nat ::
              LongWordAt(content, i, j) && LongWordAt(query, k, l) && LowerAll(content)[i..j] == LowerAll(query)[k..l]
  {
    if RecallFilter(AutoTags(u, content), QueryTags(u, query)) {
      var t :| t in Keywords(content) && t in Keywords(query);
      KeywordIff(content, t);
      KeywordIff(query, t);
      var i: nat, j: nat :| LongWordAt(content, i, j) && LowerAll(content)[i..j] == t;
      var k: nat, l: nat :| LongWordAt(query, k, l) && LowerAll(query)[k..l] == t;
    }
    if i: nat, j: nat, k: nat, l: nat :|
      LongWordAt(content, i, j) && LongWordAt(query, k, l) && LowerAll(content)[i..j] == LowerAll(query)[k..l]
    {
      SharedWordIsRecalled(u, content, query, i, j, k, l);
    }
  }

  // ----- the byte loop both functions share -----

  lemma LongDistinctSnoc(ws: seq<string>, w: string)
    ensures LongDistinct(ws + [w]) ==
            if |w| > 4 && w !in LongDistinct(ws) then LongDistinct(ws) + [w] else LongDistinct(ws)
  {
    assert (ws + [w])[..|ws|] == ws;
  }

  /** After `i` bytes `word` is the letter run in progress and `tags` holds the keywords of what precedes it. */
  ghost predicate Scanned(s: string, i: nat, word: string, tags: seq<string>) {
    && |word| <= i <= |s| && word == s[i - |word|..i] && All(word, IsLetter)
    && (i > |word| ==> !IsLetter(s[i - |word| - 1]))
    && tags == LongDistinct(Runs(s[..i - |word|], IsLetter))
  }

  function Closed(word: string, tags: seq<string>): seq<string> {
    if |word| > 4 && word !in tags then tags + [word] else tags
  }

  lemma ScanLetter(s: string, i: nat, word: string, tags: seq<string>)
    requires Scanned(s, i, word, tags) && i < |s| && IsLetter(s[i])
    ensures Scanned(s, i + 1, word + [s[i]], tags)
  {
  }

  lemma ScanEnd(s: string, i: nat, word: string, tags: seq<string>)
    requires Scanned(s, i, word, tags)
    ensures Closed(word, tags) == LongDistinct(Runs(s[..i], IsLetter))
  {
    var x := s[..i - |word|];
    assert s[..i] == x + word;
    if word != "" {
      RunsAppend(x, word, IsLetter);
      LongDistinctSnoc(Runs(x, IsLetter), word);
    } else {
      assert s[..i] == x;
    }
  }

  lemma ScanBoundary(s: string, i: nat, word: string, tags: seq<string>)
    requires Scanned(s, i, word, tags) && i < |s| && !IsLetter(s[i])
    ensures Scanned(s, i + 1, "", Closed(word, tags))
  {
    ScanEnd(s, i, word, tags);
    PrefixBoundary(s, i, IsLetter);
    ScanStart(s, i + 1, Closed(word, tags));
  }

  lemma ScanStart(s: string, i: nat, tags: seq<string>)
    requires i <= |s| && (i > 0 ==> !IsLetter(s[i - 1]))
    requires tags == LongDistinct(Runs(s[..i], IsLetter))
    ensures Scanned(s, i, "", tags)
  {
  }

  /** A word that has ended is kept if it is long and new. */
  method CloseWord(word: string, tags: seq<string>, seen: set<string>) returns (tags': seq<string>, seen': set<string>)
    requires forall w :: w in seen <==> w in tags
    ensures tags' == Closed(word, tags)
    ensures forall w :: w in seen' <==> w in tags'
  {
    tags', seen' := tags, seen;
    if |word| > 4 && word !in seen {
      seen' := seen + {word};
      tags' := tags + [word];
    }
  }

  /** The scan: letters are gathered into `word`; any other byte closes the word. */
  method ScanWords(text: string) returns (tags: seq<string>)
    ensures tags == Keywords(text)
  {
    var seen: set<string> := {};
    tags := [];
    var word := "";
    ghost var s := LowerAll(text);
    for i := 0 to |text|
      invariant Scanned(s, i, word, tags)
      invariant forall w :: w in seen <==> w in tags
    {
      var c := text[i];
      if IsLetter(c) {
        ScanLetter(s, i, word, tags);
        word := word + [Lower(c)];
      } else {
        ScanBoundary(s, i, word, tags);
        if |word| > 0 {
          tags, seen := CloseWord(word, tags, seen);
          word := "";
        }
      }
    }
    ScanEnd(s, |text|, word, tags);
    assert s[..|text|] == s;
    tags, seen := CloseWord(word, tags, seen);
  }

  method MakeAutoTags(u: Script, text: string) returns (tags: seq<string>)
    ensures tags == AutoTags(u, text)
  {
    tags := ScanWords(text);
    if |tags| == 0 {
      var first := Fields(u, text);
      if |first| > 0 {
        return first[..1];
      }
    }
  }

  method MakeQueryTags(u: Script, text: string) returns (tags: seq<string>)
    ensures tags == QueryTags(u, text)
  {
    tags := ScanWords(text);
    if |tags| == 0 {
      return Fields(u, text);
    }
  }
}
