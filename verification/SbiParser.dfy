/**
  The SBI statement scanner (internal/importer/parser/sbi.go) with its cell helpers
  (internal/importer/parser/axis.go): rows before the header are skipped, rows after it are read up to the
  first one whose date cell is neither empty nor a date.
 */
module SbiParser {
  import opened Common
  import opened Characters
  import opened Calendar
  import opened Statement
  import opened TextRuns
  import Binary64
  import Decimal
  import IdempotencyKey
  import Money
  import MoneyTheorems

  type RowCells = seq<string>

  // ----- text helpers -----

  function TrimSpace(u: Script, s: string): (r: string)
    ensures r == "" || (!u.space(r[0]) && !u.space(r[|r| - 1]))
    ensures forall c | c in r :: c in s
    decreases |s|
  {
    if s != "" && u.space(s[0]) then TrimSpace(u, s[1..])
    else if s != "" && u.space(s[|s| - 1]) then TrimSpace(u, s[..|s| - 1])
    else s
  }

  predicate PartAt(s: string, part: string, i: nat) {
    i + |part| <= |s| && s[i..i + |part|] == part
  }

  predicate Contains(s: string, part: string) {
    exists i: nat | i <= |s| :: PartAt(s, part, i)
  }

  function Replace(s: string, c: char, d: char): string {
    seq(|s|, i requires 0 <= i < |s| => if s[i] == c then d else s[i])
  }

  function TrimSuffix(s: string, suffix: string): string {
    if |suffix| <= |s| && s[|s| - |suffix|..] == suffix then s[..|s| - |suffix|] else s
  }

  /** The index of the first cell containing `part`, or -1. */
  function FindCol(header: RowCells, part: string): (i: int)
    ensures -1 <= i < |header|
    ensures i >= 0 ==> Contains(header[i], part)
    ensures forall k | 0 <= k < (if i >= 0 then i else |header|) :: !Contains(header[k], part)
  {
    FindFrom(header, part, 0)
  }

  function FindFrom(header: RowCells, part: string, from: nat): (i: int)
    requires from <= |header|
    ensures i == -1 || from <= i < |header|
    ensures i >= 0 ==> Contains(header[i], part)
    ensures forall k | from <= k < (if i >= 0 then i else |header|) :: !Contains(header[k], part)
    decreases |header| - from
  {
    if from == |header| then -1
    else if Contains(header[from], part) then from
    else FindFrom(header, part, from + 1)
  }

  function Normalise(u: Script, row: RowCells): RowCells {
    seq(|row|, i requires 0 <= i < |row| => Translate(TrimSpace(u, row[i]), u.lower))
  }

  function SafeCol(row: RowCells, i: int): string {
    if 0 <= i < |row| then row[i] else ""
  }

  function CleanAmount(u: Script, s: string): (r: string)
    ensures ',' !in r && (r == "" || (!u.space(r[0]) && !u.space(r[|r| - 1])))
  {
    Unmark(u, Delete(TrimSpace(u, s), ','))
  }

  /** The two suffix trims and the last space trim. */
  function Unmark(u: Script, s: string): (r: string)
    ensures r == "" || (!u.space(r[0]) && !u.space(r[|r| - 1]))
    ensures forall c | c in r :: c in s
  {
    TrimSpace(u, TrimSuffix(TrimSuffix(s, "CR"), "DR"))
  }

  /** The layout 02/01/2006: two digits, two digits, four digits, naming a calendar date. */
  function ParseDate(s: string): Option<Date> {
    if |s| == 10 && s[2] == '/' && s[5] == '/'
       && AllDigits(s[..2]) && AllDigits(s[3..5]) && AllDigits(s[6..])
    then
      var d := Date(Decimal.Value(s[6..]), Decimal.Value(s[3..5]), Decimal.Value(s[..2]));
      if Valid(d) then Some(d) else None
    else None
  }

  predicate AllDigits(s: string) {
    forall i | 0 <= i < |s| :: Decimal.IsDigit(s[i])
  }

  // ----- one row -----

  /** The columns found in the header; the description, reference and balance may be missing. */
  datatype Columns = Columns(date: int, desc: int, ref: int, debit: int, credit: int, bal: int)

  predicate IsHeader(u: Script, row: RowCells) {
    var n := Normalise(u, row);
    FindCol(n, "date") >= 0 && FindCol(n, "debit") >= 0 && FindCol(n, "credit") >= 0
  }

  function ColumnsOf(u: Script, row: RowCells): Columns {
    var n := Normalise(u, row);
    Columns(FindCol(n, "date"), FindCol(n, "details"), FindCol(n, "ref no"), FindCol(n, "debit"), FindCol(n, "credit"),
            FindCol(n, "balance"))
  }

  /** What a row after the header is: nothing to report, the footer, or a transaction. */
  datatype Reading = Skip | Footer | Entry(txn: Row)

  predicate Blank(s: string) { s == "" || s == "0" || s == "0.00" }

  /** A parsed number; NaN and the infinities have no amount of their own, and `cast` is what their conversion to an
      integer happens to give. */
  datatype Number = Finite(value: real) | NotFinite(cast: int)

  /** strconv.ParseFloat, where None is an error, and the script of the statement. */
  datatype Env = Env(parse: string -> Option<Number>, script: Script)

  /** int64(math.Round(v * 100)). */
  function Paise(v: Number): int { if v.Finite? then Money.FromRupees(v.value) else v.cast }

  function Read(env: Env, c: Columns, row: RowCells): Reading {
    var rawDate := TrimSpace(env.script, SafeCol(row, c.date));
    if row == [] || rawDate == "" then Skip
    else if ParseDate(rawDate).None? then Footer
    else
      var debit := CleanAmount(env.script, SafeCol(row, c.debit));
      var credit := CleanAmount(env.script, SafeCol(row, c.credit));
      var text := if !Blank(debit) then debit else credit;
      if Blank(text) || env.parse(text).None? || env.parse(text).value == Finite(0.0) then Skip
      else
        Entry(Row(ParseDate(rawDate).value,
                  Replace(TrimSpace(env.script, SafeCol(row, c.desc)), '\n', ' '),
                  Paise(env.parse(text).value),
                  if !Blank(debit) then Debit else Credit,
                  TrimSpace(env.script, SafeCol(row, c.ref)),
                  BalanceOf(env, c, row)))
  }

  function BalanceOf(env: Env, c: Columns, row: RowCells): Option<int> {
    if c.bal < 0 then None
    else
      var text := CleanAmount(env.script, SafeCol(row, c.bal));
      if text != "" && env.parse(text).Some? then Some(Paise(env.parse(text).value)) else None
  }

  // ----- the whole statement -----

  function Readings(env: Env, c: Columns, rows: seq<RowCells>): (rs: seq<Reading>)
    ensures |rs| == |rows|
  {
    seq(|rows|, i requires 0 <= i < |rows| => Read(env, c, rows[i]))
  }

  /** The transactions before the first footer. */
  function Collect(rs: seq<Reading>): seq<Row> {
    if rs == [] || rs[0].Footer? then []
    else if rs[0].Skip? then Collect(rs[1..])
    else [rs[0].txn] + Collect(rs[1..])
  }

  function ParseData(env: Env, c: Columns, rows: seq<RowCells>): seq<Row> {
    Collect(Readings(env, c, rows))
  }

  function Parse(env: Env, rows: seq<RowCells>): seq<Row> {
    if rows == [] then []
    else if IsHeader(env.script, rows[0]) then ParseData(env, ColumnsOf(env.script, rows[0]), rows[1..])
    else Parse(env, rows[1..])
  }

  lemma ParseDataStep(env: Env, c: Columns, rows: seq<RowCells>, i: nat)
    requires i < |rows|
    ensures var r, rest := Read(env, c, rows[i]), ParseData(env, c, rows[i + 1..]);
            ParseData(env, c, rows[i..]) == if r.Footer? then [] else if r.Skip? then rest else [r.txn] + rest
  {
    var rs := Readings(env, c, rows[i..]);
    assert rs[0] == Read(env, c, rows[i]) && rs[1..] == Readings(env, c, rows[i + 1..]);
  }

  lemma Assoc<T>(a: seq<T>, x: T, b: seq<T>)
    ensures a + ([x] + b) == (a + [x]) + b
  {
  }

  /** The scanning loop: `headerFound` and the columns are its state. */
  method ParseSBIRows(env: Env, rows: seq<RowCells>) returns (out: seq<Row>)
    ensures out == Parse(env, rows)
  {
    var headerFound := false;
    var c := Columns(0, 0, 0, 0, 0, 0);
    out := [];
    for i := 0 to |rows|
      invariant Parse(env, rows) ==
                if headerFound then out + ParseData(env, c, rows[i..]) else out + Parse(env, rows[i..])
    {
      var row := rows[i];
      if !headerFound {
        assert rows[i..][0] == row && rows[i..][1..] == rows[i + 1..];
        if IsHeader(env.script, row) {
          headerFound := true;
          c := ColumnsOf(env.script, row);
        }
        continue;
      }
      var reading := Read(env, c, row);
      ParseDataStep(env, c, rows, i);
      if reading.Skip? {
        continue;
      }
      if reading.Footer? {
        break;
      }
      Assoc(out, reading.txn, ParseData(env, c, rows[i + 1..]));
      out := out + [reading.txn];
    }
  }

  // ----- statements in pieces -----

  predicate HasFooter(env: Env, c: Columns, rows: seq<RowCells>) {
    Footer in Readings(env, c, rows)
  }

  /** What one row adds. */
  function Front(r: Reading): seq<Row> { if r.Entry? then [r.txn] else [] }

  lemma {:induction false} CollectAppend(a: seq<Reading>, b: seq<Reading>)
    ensures Collect(a + b) == Collect(a) + if Footer in a then [] else Collect(b)
  {
    if a == [] {
      assert a + b == b;
    } else {
      CollectHead(a);
      CollectHead(a + b);
      if !a[0].Footer? {
        assert (a + b)[1..] == a[1..] + b;
        CollectAppend(a[1..], b);
        Regroup(Front(a[0]), Collect(a[1..]), if Footer in a then [] else Collect(b));
      }
    }
  }

  lemma CollectHead(rs: seq<Reading>)
    requires rs != []
    ensures Footer in rs <==> rs[0].Footer? || Footer in rs[1..]
    ensures Collect(rs) == if rs[0].Footer? then [] else Front(rs[0]) + Collect(rs[1..])
  {
  }

  lemma ReadingsAppend(env: Env, c: Columns, a: seq<RowCells>, b: seq<RowCells>)
    ensures Readings(env, c, a + b) == Readings(env, c, a) + Readings(env, c, b)
  {
  }

  /** After the header, parsing splits over concatenation when the first part has no footer row;
      when it has one, what follows is ignored. */
  lemma ParseDataAppend(env: Env, c: Columns, a: seq<RowCells>, b: seq<RowCells>)
    ensures ParseData(env, c, a + b) ==
            ParseData(env, c, a) + if HasFooter(env, c, a) then [] else ParseData(env, c, b)
  {
    ReadingsAppend(env, c, a, b);
    CollectAppend(Readings(env, c, a), Readings(env, c, b));
  }

  /** The same for whole statements: the part that holds the header decides the columns. */
  lemma ParseAppend(env: Env, before: seq<RowCells>, header: RowCells, a: seq<RowCells>, b: seq<RowCells>)
    requires IsHeader(env.script, header) && forall i | 0 <= i < |before| :: !IsHeader(env.script, before[i])
    ensures Parse(env, before + [header] + (a + b)) ==
            Parse(env, before + [header] + a)
            + (var c := ColumnsOf(env.script, header); if HasFooter(env, c, a) then [] else ParseData(env, c, b))
  {
    ParseAfterHeader(env, before, header, a + b);
    ParseAfterHeader(env, before, header, a);
    ParseDataAppend(env, ColumnsOf(env.script, header), a, b);
  }

  lemma {:induction false} ParseAfterHeader(env: Env, before: seq<RowCells>, header: RowCells,
                                            rows: seq<RowCells>)
    requires IsHeader(env.script, header) && forall i | 0 <= i < |before| :: !IsHeader(env.script, before[i])
    ensures Parse(env, before + [header] + rows) == ParseData(env, ColumnsOf(env.script, header), rows)
  {
    var all := before + [header] + rows;
    if before == [] {
      assert all[0] == header && all[1..] == rows;
    } else {
      ParseAfterHeader(env, before[1..], header, rows);
      assert all[0] == before[0] && all[1..] == before[1..] + [header] + rows;
    }
  }

  lemma {:induction false} CollectFollows(rs: seq<Reading>, from: nat) returns (at: seq<nat>)
    requires from <= |rs|
    ensures |at| == |Collect(rs[from..])| <= |rs| - from
    ensures forall k | 0 <= k < |at| :: from <= at[k] < |rs| && rs[at[k]] == Entry(Collect(rs[from..])[k])
    ensures forall j, k | 0 <= j < k < |at| :: at[j] < at[k]
    ensures forall i, k | 0 <= k < |at| && from <= i < at[k] :: !rs[i].Footer?
    decreases |rs| - from
  {
    if from == |rs| || rs[from].Footer? {
      at := [];
    } else {
      at := CollectFollows(rs, from + 1);
      assert rs[from..][0] == rs[from] && rs[from..][1..] == rs[from + 1..];
      if rs[from].Entry? {
        at := [from] + at;
      }
    }
  }

  /** Each transaction comes from a row of its own, in row order, with no footer before it. */
  lemma OutputFollowsRows(env: Env, c: Columns, rows: seq<RowCells>) returns (at: seq<nat>)
    ensures |at| == |ParseData(env, c, rows)| <= |rows|
    ensures forall k | 0 <= k < |at| ::
              at[k] < |rows| && Read(env, c, rows[at[k]]) == Entry(ParseData(env, c, rows)[k])
    ensures forall j, k | 0 <= j < k < |at| :: at[j] < at[k]
    ensures forall i, k | 0 <= k < |at| && 0 <= i < at[k] :: !Read(env, c, rows[i]).Footer?
  {
    var rs := Readings(env, c, rows);
    at := CollectFollows(rs, 0);
    assert rs[0..] == rs;
    assert forall i | 0 <= i < |rows| :: rs[i] == Read(env, c, rows[i]);
  }

  /** A date as the statement prints it. */
  function DateCell(d: Date): string {
    IdempotencyKey.ZeroPad(d.day, 2) + "/" + IdempotencyKey.ZeroPad(d.month, 2) + "/"
    + IdempotencyKey.ZeroPad(d.year, 4)
  }

  /** Every calendar date up to year 9999 is read back from its cell. */
  lemma DateReadsBack(d: Date)
    requires Valid(d) && d.year <= 9999
    ensures ParseDate(DateCell(d)) == Some(d)
  {
    IdempotencyKey.TwoDigits(d.day);
    IdempotencyKey.TwoDigits(d.month);
    IdempotencyKey.ZeroPadReadsBack(d.day, 2);
    IdempotencyKey.ZeroPadReadsBack(d.month, 2);
    IdempotencyKey.ZeroPadReadsBack(d.year, 4);
    Decimal.DigitsLength(d.year, 4);
    assert Decimal.Pow10(4) == 10000;
    var s := DateCell(d);
    assert s[..2] == IdempotencyKey.ZeroPad(d.day, 2);
    assert s[3..5] == IdempotencyKey.ZeroPad(d.month, 2);
    assert s[6..] == IdempotencyKey.ZeroPad(d.year, 4);
  }

  /** A header row met again after the header ends the statement: its date cell is not a date. */
  lemma RepeatedHeaderEnds(env: Env, header: RowCells, row: RowCells)
    requires ExtendsAscii(env.script)
    requires IsHeader(env.script, header) && Normalise(env.script, row) == Normalise(env.script, header)
    ensures Read(env, ColumnsOf(env.script, header), row).Footer?
  {
    var at := FindCol(Normalise(env.script, header), "date");
    var cell := TrimSpace(env.script, row[at]);
    assert Normalise(env.script, row)[at] == Translate(cell, env.script.lower);
    var i: nat :| i <= |Translate(cell, env.script.lower)| && PartAt(Translate(cell, env.script.lower), "date", i);
    DateStartsWithD(Translate(cell, env.script.lower), i);
    DateHasNoLetter(env.script, cell, i);
  }

  lemma DateStartsWithD(s: string, i: nat)
    requires PartAt(s, "date", i)
    ensures i < |s| && s[i] == 'd'
  {
    assert s[i..i + 4] == "date";
    assert s[i] == s[i..i + 4][0] == "date"[0];
  }

  lemma DateHasNoLetter(u: Script, s: string, i: nat)
    requires ExtendsAscii(u) && i < |s| && u.lower(s[i]) == 'd'
    ensures s != "" && ParseDate(s).None?
  {
    if |s| == 10 {
      if i < 2 {
        assert s[..2][i] == s[i];
      } else if 3 <= i < 5 {
        assert s[3..5][i - 3] == s[i];
      } else if i >= 6 {
        assert s[6..][i - 6] == s[i];
      }
    }
  }

  // ----- what the text of an amount becomes -----

  /** The text the amount is read from: the debit cell, unless it is blank. */
  function AmountText(u: Script, c: Columns, row: RowCells): string {
    var debit := CleanAmount(u, SafeCol(row, c.debit));
    if !Blank(debit) then debit else CleanAmount(u, SafeCol(row, c.credit))
  }

  /** An amount with two decimals, without grouping. */
  function RupeeText(paise: nat): string {
    Decimal.Digits(paise / 100) + "." + IdempotencyKey.ZeroPad(paise % 100, 2)
  }

  /** What strconv.ParseFloat promises of such texts: the float nearest to the number written. */
  ghost predicate RoundsCorrectly(env: Env) {
    forall paise: nat :: env.parse(RupeeText(paise)) == Some(Finite(Binary64.Fl(paise as real / 100.0)))
  }

  /** `cell` shows `text`: commas anywhere, white space around, and perhaps CR or DR after it. */
  ghost predicate Shows(u: Script, cell: string, text: string) {
    exists lead: string, body: string, gap: string, mark: string, trail: string ::
      cell == lead + (body + gap + mark) + trail && Writing(u, lead, body, gap, mark, trail, text)
  }

  ghost predicate Writing(u: Script, lead: string, body: string, gap: string, mark: string, trail: string,
                          text: string)
  {
    && AllSpace(u, lead) && AllSpace(u, gap) && AllSpace(u, trail) && (mark == "" || mark == "CR" || mark == "DR")
    && body != "" && !u.space(body[0]) && !u.space(body[|body| - 1]) && Delete(body, ',') == text
  }

  predicate AllSpace(u: Script, s: string) {
    forall i | 0 <= i < |s| :: u.space(s[i])
  }

  /** Digits and a point, as an amount is written. */
  predicate PlainNumber(text: string) {
    text != "" && forall i | 0 <= i < |text| :: Decimal.IsDigit(text[i]) || text[i] == '.'
  }

  lemma {:induction false} TrimAround(u: Script, lead: string, core: string, trail: string)
    requires AllSpace(u, lead) && AllSpace(u, trail)
    requires core != "" && !u.space(core[0]) && !u.space(core[|core| - 1])
    ensures TrimSpace(u, lead + core + trail) == core
    decreases |lead| + |trail|
  {
    var s := lead + core + trail;
    if lead != "" {
      assert s[0] == lead[0] && s[1..] == lead[1..] + core + trail;
      TrimAround(u, lead[1..], core, trail);
    } else if trail != "" {
      assert s[0] == core[0] && s[|s| - 1] == trail[|trail| - 1];
      assert s[..|s| - 1] == lead + core + trail[..|trail| - 1];
      TrimAround(u, lead, core, trail[..|trail| - 1]);
    } else {
      assert s == core;
    }
  }

  /** What is left of the cell after trimming and deleting commas. */
  lemma NoComma(u: Script, gap: string, mark: string)
    requires ExtendsAscii(u) && AllSpace(u, gap) && (mark == "" || mark == "CR" || mark == "DR")
    ensures ',' !in gap + mark
  {
    assert !u.space(',');
  }

  lemma CommasGone(u: Script, body: string, gap: string, mark: string, text: string)
    requires ExtendsAscii(u) && Writing(u, "", body, gap, mark, "", text)
    ensures Delete(body + gap + mark, ',') == text + (gap + mark)
  {
    NoComma(u, gap, mark);
    Regroup(body, gap, mark);
    DeleteAppend(body, gap + mark, ',');
    DeleteNone(gap + mark, ',');
  }

  lemma MarkGone(base: string, mark: string)
    ensures TrimSuffix(base + mark, mark) == base
  {
    assert (base + mark)[|base|..] == mark && (base + mark)[..|base|] == base;
  }

  lemma OtherMarkStays(base: string)
    ensures TrimSuffix(base + "DR", "CR") == base + "DR"
  {
    assert (base + "DR")[|base|..] == "DR";
  }

  lemma SuffixesGone(u: Script, text: string, gap: string, mark: string)
    requires ExtendsAscii(u) && PlainNumber(text) && AllSpace(u, gap) && (mark == "" || mark == "CR" || mark == "DR")
    ensures TrimSuffix(TrimSuffix(text + (gap + mark), "CR"), "DR") == text + gap
  {
    Regroup(text, gap, mark);
    NoSuffix(u, text, gap, "CR");
    NoSuffix(u, text, gap, "DR");
    if mark == "" {
      assert text + gap + "" == text + gap;
    } else {
      MarkGone(text + gap, mark);
      OtherMarkStays(text + gap);
    }
  }

  lemma NoSuffix(u: Script, text: string, gap: string, mark: string)
    requires ExtendsAscii(u) && PlainNumber(text) && AllSpace(u, gap) && (mark == "CR" || mark == "DR")
    ensures TrimSuffix(text + gap, mark) == text + gap
  {
    var s := text + gap;
    assert s[|s| - 1] != 'R';
    if |s| >= 2 {
      assert s[|s| - 2..][1] == s[|s| - 1];
    }
  }

  lemma TrimTail(u: Script, text: string, gap: string)
    requires ExtendsAscii(u) && PlainNumber(text) && AllSpace(u, gap)
    ensures TrimSpace(u, text + gap) == text
  {
    TrimAround(u, "", text, gap);
    assert "" + text + gap == text + gap;
  }

  lemma UnmarkReads(u: Script, text: string, gap: string, mark: string)
    requires ExtendsAscii(u) && PlainNumber(text) && AllSpace(u, gap) && (mark == "" || mark == "CR" || mark == "DR")
    ensures Unmark(u, text + (gap + mark)) == text
  {
    SuffixesGone(u, text, gap, mark);
    TrimTail(u, text, gap);
  }

  lemma CleanFrom(u: Script, cell: string, core: string, text: string, gap: string, mark: string)
    requires ExtendsAscii(u) && PlainNumber(text) && AllSpace(u, gap) && (mark == "" || mark == "CR" || mark == "DR")
    requires TrimSpace(u, cell) == core && Delete(core, ',') == text + (gap + mark)
    ensures CleanAmount(u, cell) == text
  {
    UnmarkReads(u, text, gap, mark);
    assert CleanAmount(u, cell) == Unmark(u, Delete(TrimSpace(u, cell), ','));
  }

  lemma CleanUnmarked(u: Script, lead: string, body: string, gap: string, trail: string, text: string)
    requires ExtendsAscii(u) && PlainNumber(text) && Writing(u, lead, body, gap, "", trail, text)
    ensures CleanAmount(u, lead + (body + gap + "") + trail) == text
  {
    var cell := lead + body + (gap + trail);
    assert lead + (body + gap + "") + trail == cell;
    TrimAround(u, lead, body, gap + trail);
    assert text + ("" + "") == text;
    CleanFrom(u, cell, body, text, "", "");
  }

  lemma CleanMarked(u: Script, lead: string, body: string, gap: string, mark: string, trail: string, text: string)
    requires ExtendsAscii(u) && PlainNumber(text) && Writing(u, lead, body, gap, mark, trail, text) && mark != ""
    ensures CleanAmount(u, lead + (body + gap + mark) + trail) == text
  {
    TrimAround(u, lead, body + gap + mark, trail);
    CommasGone(u, body, gap, mark, text);
    CleanFrom(u, lead + (body + gap + mark) + trail, body + gap + mark, text, gap, mark);
  }

  /** A cell showing a number is cleaned to exactly that number. */
  lemma CleanAmountReads(u: Script, cell: string, text: string)
    requires ExtendsAscii(u) && Shows(u, cell, text) && PlainNumber(text)
    ensures CleanAmount(u, cell) == text
  {
    var lead: string, body: string, gap: string, mark: string, trail: string :|
      cell == lead + (body + gap + mark) + trail && Writing(u, lead, body, gap, mark, trail, text);
    if mark == "" {
      CleanUnmarked(u, lead, body, gap, trail, text);
    } else {
      CleanMarked(u, lead, body, gap, mark, trail, text);
    }
  }

  lemma RupeeTextIsPlain(paise: nat)
    ensures PlainNumber(RupeeText(paise))
  {
    IdempotencyKey.ZeroPadReadsBack(paise % 100, 2);
  }

  /** A transaction whose amount cell shows an amount of whole paise, grouped by commas in any way and with or without
      CR or DR, holds exactly that amount if and only if it survives the float chain: always below 2^45 rupees. */
  lemma AmountIsExactIff(env: Env, c: Columns, row: RowCells, cell: string, paise: nat)
    requires ExtendsAscii(env.script) && RoundsCorrectly(env) && paise <= Binary64.HIGH
    requires Read(env, c, row).Entry? && Shows(env.script, cell, RupeeText(paise))
    requires cell == SafeCol(row, if Blank(CleanAmount(env.script, SafeCol(row, c.debit))) then c.credit else c.debit)
    ensures Read(env, c, row).txn.amount == paise <==> MoneyTheorems.Survives(paise)
  {
    RupeeTextIsPlain(paise);
    CleanAmountReads(env.script, cell, RupeeText(paise));
    assert AmountText(env.script, c, row) == RupeeText(paise);
    assert env.parse(RupeeText(paise)) == Some(Finite(Binary64.Fl(paise as real / 100.0)));
    MoneyTheorems.ParsedIff(paise);
  }

  /** So is a balance; it is missing exactly when its column is, or the cleaned cell is empty or no number. */
  lemma BalanceIsExactIff(env: Env, c: Columns, row: RowCells, paise: nat)
    requires ExtendsAscii(env.script) && RoundsCorrectly(env) && paise <= Binary64.HIGH && Read(env, c, row).Entry?
    ensures var cell, balance := SafeCol(row, c.bal), Read(env, c, row).txn.balance;
            && var text := CleanAmount(env.script, cell);
            && (balance.None? <==> c.bal < 0 || text == "" || env.parse(text).None?)
            && (Shows(env.script, cell, RupeeText(paise)) && c.bal >= 0 ==>
                  (balance == Some(paise) <==> MoneyTheorems.Survives(paise)))
  {
    var cell := SafeCol(row, c.bal);
    if Shows(env.script, cell, RupeeText(paise)) && c.bal >= 0 {
      RupeeTextIsPlain(paise);
      CleanAmountReads(env.script, cell, RupeeText(paise));
      assert env.parse(RupeeText(paise)) == Some(Finite(Binary64.Fl(paise as real / 100.0)));
      MoneyTheorems.ParsedIff(paise);
    }
  }
}
