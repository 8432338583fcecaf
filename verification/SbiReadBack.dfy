/** What a statement's rows become, read from its header's titles and its cells. */
module SbiReadBack {
  import opened Common
  import opened Characters
  import opened Calendar
  import opened Statement
  import opened TextRuns
  import opened SbiParser
  import Binary64
  import Decimal
  import IdempotencyKey
  import Money
  import MoneyTheorems

  // ----- the header -----

  /** The cell shows the title within it, in any case and with white space around. */
  ghost predicate Titled(u: Script, cell: string, title: string) {
    exists i: nat :: PartAt(Translate(TrimSpace(u, cell), u.lower), title, i)
  }

  /** The column is the first with the title, or -1 when there is none. */
  ghost predicate FirstTitled(u: Script, header: RowCells, title: string, col: int) {
    if col == -1 then forall k | 0 <= k < |header| :: !Titled(u, header[k], title)
    else 0 <= col < |header| && Titled(u, header[col], title)
         && forall k | 0 <= k < col :: !Titled(u, header[k], title)
  }

  /** The header names these columns; those of date and amounts must be there. */
  ghost predicate Layout(u: Script, header: RowCells, c: Columns) {
    && FirstTitled(u, header, "date", c.date) && FirstTitled(u, header, "details", c.desc)
    && FirstTitled(u, header, "ref no", c.ref) && FirstTitled(u, header, "debit", c.debit)
    && FirstTitled(u, header, "credit", c.credit) && FirstTitled(u, header, "balance", c.bal)
    && c.date >= 0 && c.debit >= 0 && c.credit >= 0
  }

  lemma FindColIs(u: Script, header: RowCells, title: string, col: int)
    requires FirstTitled(u, header, title, col)
    ensures FindCol(Normalise(u, header), title) == col
  {
    var n := Normalise(u, header);
    forall k | 0 <= k < |header| ensures Contains(n[k], title) <==> Titled(u, header[k], title) {
      TitledIff(u, header[k], title);
    }
  }

  lemma TitledIff(u: Script, cell: string, title: string)
    ensures Contains(Translate(TrimSpace(u, cell), u.lower), title) <==> Titled(u, cell, title)
  {
  }

  lemma LayoutIsFound(u: Script, header: RowCells, c: Columns)
    requires Layout(u, header, c)
    ensures IsHeader(u, header) && ColumnsOf(u, header) == c
  {
    FindColIs(u, header, "date", c.date);
    FindColIs(u, header, "details", c.desc);
    FindColIs(u, header, "ref no", c.ref);
    FindColIs(u, header, "debit", c.debit);
    FindColIs(u, header, "credit", c.credit);
    FindColIs(u, header, "balance", c.bal);
  }

  /** The header is the first row that names date, debit and credit. */
  lemma IsHeaderIff(u: Script, row: RowCells)
    ensures IsHeader(u, row) <==>
            && (exists k :: 0 <= k < |row| && Titled(u, row[k], "date"))
            && (exists k :: 0 <= k < |row| && Titled(u, row[k], "debit"))
            && (exists k :: 0 <= k < |row| && Titled(u, row[k], "credit"))
  {
    FoundIff(u, row, "date");
    FoundIff(u, row, "debit");
    FoundIff(u, row, "credit");
  }

  lemma FoundIff(u: Script, row: RowCells, title: string)
    ensures FindCol(Normalise(u, row), title) >= 0 <==> exists k :: 0 <= k < |row| && Titled(u, row[k], title)
  {
    var n := Normalise(u, row);
    forall k | 0 <= k < |row| ensures Contains(n[k], title) <==> Titled(u, row[k], title) {
      TitledIff(u, row[k], title);
    }
  }

  // ----- one row -----

  /** The cell of a column; a row may be too short, and the header may not have the column. */
  function At(row: RowCells, col: int): string { if 0 <= col < |row| then row[col] else "" }

  ghost predicate IsBlank(text: string) { text in {"", "0", "0.00"} }

  /** The row's date cell shows `d`. */
  ghost predicate Dated(env: Env, c: Columns, row: RowCells, d: Date) {
    Valid(d) && d.year <= 9999 && TrimSpace(env.script, At(row, c.date)) == DateCell(d)
  }

  /** The cleaned text of a cell. */
  function Cleaned(env: Env, row: RowCells, col: int): string { CleanAmount(env.script, At(row, col)) }

  /** The row moves `v`, not zero: out of the account if the debit cell says so, else into it if the credit cell
      does. */
  ghost predicate Moves(env: Env, c: Columns, row: RowCells, dir: Direction, v: Number) {
    && v != Finite(0.0)
    && (dir == Debit ==> !IsBlank(Cleaned(env, row, c.debit)) && env.parse(Cleaned(env, row, c.debit)) == Some(v))
    && (dir == Credit ==> IsBlank(Cleaned(env, row, c.debit)) && !IsBlank(Cleaned(env, row, c.credit))
                          && env.parse(Cleaned(env, row, c.credit)) == Some(v))
  }

  /** A number of rupees in paise, to the nearest. */
  ghost predicate InPaise(paise: int, v: Number) {
    if v.Finite? then Money.Nearest(v.value * 100.0, paise) else paise == v.cast
  }

  /** The text without its line breaks. */
  ghost predicate OneLine(line: string, text: string) {
    |line| == |text| && forall i | 0 <= i < |text| :: line[i] == if text[i] == '\n' then ' ' else text[i]
  }

  /** The transaction a row becomes. */
  ghost predicate Stands(env: Env, c: Columns, row: RowCells, d: Date, dir: Direction, v: Number, t: Row) {
    && t.date == d && t.direction == dir && InPaise(t.amount, v)
    && OneLine(t.description, TrimSpace(env.script, At(row, c.desc)))
    && t.reference == TrimSpace(env.script, At(row, c.ref))
    && BalanceStands(env, c, row, t.balance)
  }

  ghost predicate BalanceStands(env: Env, c: Columns, row: RowCells, balance: Option<int>) {
    var text := Cleaned(env, row, c.bal);
    if c.bal == -1 || text == "" || env.parse(text).None? then balance.None?
    else balance.Some? && InPaise(balance.value, env.parse(text).value)
  }

  lemma PaiseIsNear(v: Number)
    ensures InPaise(Paise(v), v)
  {
    if v.Finite? {
      Money.FromRupeesNearest(v.value);
    }
  }

  lemma OneRow(env: Env, header: RowCells, c: Columns, row: RowCells)
    requires Layout(env.script, header, c)
    ensures var r := Read(env, c, row); Parse(env, [header, row]) == if r.Entry? then [r.txn] else []
  {
    LayoutIsFound(env.script, header, c);
    assert [header, row][1..] == [row];
    ParseDataStep(env, c, [row], 0);
    assert [row][0..] == [row] && ParseData(env, c, [row][1..]) == [];
  }

  lemma BalanceIsRead(env: Env, c: Columns, row: RowCells)
    requires c.bal >= -1
    ensures BalanceStands(env, c, row, BalanceOf(env, c, row))
  {
    var text := Cleaned(env, row, c.bal);
    if env.parse(text).Some? {
      PaiseIsNear(env.parse(text).value);
    }
  }

  lemma ReadIs(env: Env, c: Columns, row: RowCells, d: Date, dir: Direction, v: Number)
    requires ParseDate(TrimSpace(env.script, At(row, c.date))) == Some(d) && Moves(env, c, row, dir, v)
    ensures Read(env, c, row)
         == Entry(Row(d, Replace(TrimSpace(env.script, At(row, c.desc)), '\n', ' '), Paise(v), dir,
                      TrimSpace(env.script, At(row, c.ref)), BalanceOf(env, c, row)))
  {
    assert row != [];
  }

  lemma ReadOnlyIf(env: Env, c: Columns, row: RowCells) returns (d: Date, dir: Direction, v: Number)
    requires Read(env, c, row).Entry?
    ensures ParseDate(TrimSpace(env.script, At(row, c.date))) == Some(d) && Moves(env, c, row, dir, v)
  {
    d := ParseDate(TrimSpace(env.script, At(row, c.date))).value;
    dir := if IsBlank(Cleaned(env, row, c.debit)) then Credit else Debit;
    v := env.parse(Cleaned(env, row, if dir == Debit then c.debit else c.credit)).value;
  }

  /** A row with a date and an amount is one transaction: its date, its direction, its amount, its description on one
      line, its reference and its balance. */
  lemma RowStands(env: Env, header: RowCells, c: Columns, row: RowCells, d: Date, dir: Direction, v: Number)
    requires Layout(env.script, header, c) && Dated(env, c, row, d) && Moves(env, c, row, dir, v)
    ensures |Parse(env, [header, row])| == 1 && Stands(env, c, row, d, dir, v, Parse(env, [header, row])[0])
  {
    OneRow(env, header, c, row);
    DateReadsBack(d);
    ReadIs(env, c, row, d, dir, v);
    PaiseIsNear(v);
    BalanceIsRead(env, c, row);
  }

  /** Every other row gives none. */
  lemma RowStandsIff(env: Env, header: RowCells, c: Columns, row: RowCells)
    requires Layout(env.script, header, c)
    ensures Parse(env, [header, row]) != [] <==> exists d, dir, v :: Dated(env, c, row, d) && Moves(env, c, row, dir, v)
  {
    OneRow(env, header, c, row);
    if Read(env, c, row).Entry? {
      var d, dir, v := ReadOnlyIf(env, c, row);
      DateIff(TrimSpace(env.script, At(row, c.date)), d);
      assert Dated(env, c, row, d) && Moves(env, c, row, dir, v);
    }
    if d, dir, v :| Dated(env, c, row, d) && Moves(env, c, row, dir, v) {
      RowStands(env, header, c, row, d, dir, v);
    }
  }

  // ----- dates -----

  lemma DigitBack(c: char)
    requires Decimal.IsDigit(c)
    ensures Decimal.DigitChar(Decimal.DigitValue(c)) == c
  {
  }

  lemma LastDigit(s: string)
    requires s != "" && AllDigits(s)
    ensures AllDigits(s[..|s| - 1])
    ensures Decimal.Value(s) == 10 * Decimal.Value(s[..|s| - 1]) + Decimal.DigitValue(s[|s| - 1])
    ensures s == s[..|s| - 1] + [Decimal.DigitChar(Decimal.DigitValue(s[|s| - 1]))]
  {
    DigitBack(s[|s| - 1]);
  }

  lemma PadDigit(d: nat)
    requires d < 10
    ensures IdempotencyKey.ZeroPad(d, 1) == [Decimal.DigitChar(d)]
  {
  }

  /** A text of digits is the padded text of its value. */
  lemma {:induction false} PadBack(s: string)
    requires s != "" && AllDigits(s)
    ensures IdempotencyKey.ZeroPad(Decimal.Value(s), |s|) == s
  {
    var n := |s| - 1;
    LastDigit(s);
    if n == 0 {
      assert s[..n] == "" && Decimal.Value(s[..n]) == 0;
      PadDigit(Decimal.DigitValue(s[n]));
    } else {
      PadBack(s[..n]);
      PadMore(Decimal.Value(s[..n]), Decimal.DigitValue(s[n]), n);
    }
  }

  lemma PadMore(v: nat, d: nat, w: nat)
    requires d < 10 && w > 0
    ensures IdempotencyKey.ZeroPad(10 * v + d, w + 1) == IdempotencyKey.ZeroPad(v, w) + [Decimal.DigitChar(d)]
  {
    if v == 0 {
      ZerosMore(w - 1);
    } else {
      assert Decimal.Digits(10 * v + d) == Decimal.Digits(v) + [Decimal.DigitChar(d)];
    }
  }

  lemma {:induction false} ZerosMore(k: nat)
    ensures IdempotencyKey.Zeros(k + 1) == IdempotencyKey.Zeros(k) + ['0']
  {
    if k > 0 {
      ZerosMore(k - 1);
    }
  }

  /** A cell is read as a date exactly when it prints it. */
  lemma DateIff(s: string, d: Date)
    ensures ParseDate(s) == Some(d) <==> Valid(d) && d.year <= 9999 && s == DateCell(d)
  {
    if Valid(d) && d.year <= 9999 && s == DateCell(d) {
      DateReadsBack(d);
    }
    if ParseDate(s) == Some(d) {
      DatePrints(s, d);
    }
  }

  lemma DatePrints(s: string, d: Date)
    requires ParseDate(s) == Some(d)
    ensures Valid(d) && d.year <= 9999 && s == DateCell(d)
  {
    PadBack(s[..2]);
    PadBack(s[3..5]);
    PadBack(s[6..]);
    FourDigits(s[6..]);
    assert s == s[..2] + "/" + s[3..5] + "/" + s[6..];
  }

  lemma {:induction false} DigitsBound(s: string)
    requires AllDigits(s)
    ensures Decimal.Value(s) < Decimal.Pow10(|s|)
  {
    if s != "" {
      DigitsBound(s[..|s| - 1]);
    }
  }

  lemma FourDigits(s: string)
    requires |s| == 4 && AllDigits(s)
    ensures Decimal.Value(s) <= 9999
  {
    DigitsBound(s);
    assert Decimal.Pow10(4) == 10 * Decimal.Pow10(3) == 100 * Decimal.Pow10(2) == 1000 * Decimal.Pow10(1);
  }

  // ----- the whole statement -----

  /** The row ends the statement: its date cell holds something that is no date. */
  ghost predicate Ends(env: Env, c: Columns, row: RowCells) {
    var text := TrimSpace(env.script, At(row, c.date));
    text != "" && forall d :: Valid(d) && d.year <= 9999 ==> text != DateCell(d)
  }

  ghost predicate Ended(env: Env, c: Columns, rows: seq<RowCells>) {
    exists k :: 0 <= k < |rows| && Ends(env, c, rows[k])
  }

  lemma EndsIff(env: Env, c: Columns, row: RowCells)
    ensures Read(env, c, row).Footer? <==> Ends(env, c, row)
  {
    var text := TrimSpace(env.script, At(row, c.date));
    if ParseDate(text).Some? {
      DateIff(text, ParseDate(text).value);
    }
    if d :| Valid(d) && d.year <= 9999 && text == DateCell(d) {
      DateIff(text, d);
    }
  }

  lemma FooterIff(env: Env, c: Columns, rows: seq<RowCells>)
    ensures HasFooter(env, c, rows) <==> Ended(env, c, rows)
  {
    var rs := Readings(env, c, rows);
    forall k | 0 <= k < |rows| ensures rs[k].Footer? <==> Ends(env, c, rows[k]) {
      EndsIff(env, c, rows[k]);
    }
  }

  lemma RowAlone(env: Env, header: RowCells, c: Columns, row: RowCells)
    requires Layout(env.script, header, c)
    ensures Parse(env, [header, row]) == ParseData(env, c, [row])
  {
    LayoutIsFound(env.script, header, c);
    assert [header, row][1..] == [row];
  }

  /** The statement row by row: what a row adds does not depend on the rows before it, unless one of them ends the
      statement; and nothing before the header counts. */
  lemma StatementStands(env: Env, before: seq<RowCells>, header: RowCells, c: Columns, rows: seq<RowCells>,
                        row: RowCells)
    requires Layout(env.script, header, c) && forall k | 0 <= k < |before| :: !IsHeader(env.script, before[k])
    ensures Parse(env, before + [header] + (rows + [row]))
         == Parse(env, before + [header] + rows)
            + if Ended(env, c, rows) then [] else Parse(env, [header, row])
  {
    LayoutIsFound(env.script, header, c);
    ParseAppend(env, before, header, rows, [row]);
    FooterIff(env, c, rows);
    RowAlone(env, header, c, row);
  }

  // ----- amounts as printed -----

  /** The debit cell shows the amount, or the debit cell is blank or zero and the credit cell shows it. */
  ghost predicate ShowsAmount(env: Env, c: Columns, row: RowCells, dir: Direction, paise: nat) {
    if dir == Debit then Shows(env.script, At(row, c.debit), RupeeText(paise))
    else IsBlank(Cleaned(env, row, c.debit)) && Shows(env.script, At(row, c.credit), RupeeText(paise))
  }

  lemma BlankIsZero(paise: nat)
    requires IsBlank(RupeeText(paise))
    ensures paise == 0
  {
    var whole, rest := Decimal.Digits(paise / 100), IdempotencyKey.ZeroPad(paise % 100, 2);
    Decimal.ValueOfDigits(paise / 100);
    IdempotencyKey.ZeroPadReadsBack(paise % 100, 2);
    IdempotencyKey.TwoDigits(paise % 100);
    assert whole == RupeeText(paise)[..|whole|] && rest == RupeeText(paise)[|whole| + 1..];
    assert Decimal.Value("0"[..0]) == 0 && Decimal.Value("00"[..1][..0]) == 0 && Decimal.Value("00"[..1]) == 0;
  }

  lemma RupeeTextIsNotBlank(paise: nat)
    requires paise > 0
    ensures !IsBlank(RupeeText(paise))
  {
    if IsBlank(RupeeText(paise)) {
      BlankIsZero(paise);
    }
  }

  lemma PositiveFloat(x: real)
    requires x > 0.0
    ensures Binary64.Fl(x) != 0.0
  {
    Binary64.FlNear(x);
    assert x * Binary64.UNIT_ROUNDOFF < x;
  }

  lemma ShownMoves(env: Env, c: Columns, row: RowCells, dir: Direction, paise: nat)
    requires ExtendsAscii(env.script) && RoundsCorrectly(env) && paise > 0 && ShowsAmount(env, c, row, dir, paise)
    ensures Moves(env, c, row, dir, Finite(Binary64.Fl(paise as real / 100.0)))
  {
    RupeeTextIsPlain(paise);
    RupeeTextIsNotBlank(paise);
    PositiveFloat(paise as real / 100.0);
    CleanAmountReads(env.script, At(row, if dir == Debit then c.debit else c.credit), RupeeText(paise));
    assert env.parse(RupeeText(paise)) == Some(Finite(Binary64.Fl(paise as real / 100.0)));
  }

  /** A row that prints a date and a positive amount is one transaction of that date, a debit exactly when the amount
      stands in the debit column, and of that amount exactly when it survives the floats. */
  lemma PrintedRowStands(env: Env, header: RowCells, c: Columns, row: RowCells, d: Date, dir: Direction, paise: nat)
    requires ExtendsAscii(env.script) && RoundsCorrectly(env) && 0 < paise <= Binary64.HIGH
    requires Layout(env.script, header, c) && Dated(env, c, row, d) && ShowsAmount(env, c, row, dir, paise)
    ensures var out := Parse(env, [header, row]);
            && |out| == 1 && out[0].date == d && out[0].direction == dir
            && (out[0].amount == paise <==> MoneyTheorems.Survives(paise))
  {
    var v := Finite(Binary64.Fl(paise as real / 100.0));
    ShownMoves(env, c, row, dir, paise);
    RowStands(env, header, c, row, d, dir, v);
    OneRow(env, header, c, row);
    DateReadsBack(d);
    ReadIs(env, c, row, d, dir, v);
    MoneyTheorems.ParsedIff(paise);
  }

  // ----- a statement of the bank's own layout -----

  const TITLES: RowCells := ["Date", "Details", "Ref No", "Debit", "Credit", "Balance"]
  const LOWERED: RowCells := ["date", "details", "ref no", "debit", "credit", "balance"]

  lemma PartHolds(s: string, part: string, i: nat, c: char)
    requires PartAt(s, part, i) && c in part
    ensures c in s
  {
    assert c in s[i..i + |part|];
  }

  lemma Missing(s: string, part: string, c: char)
    requires c in part && c !in s
    ensures forall i: nat :: !PartAt(s, part, i)
  {
    forall i: nat ensures !PartAt(s, part, i) {
      if PartAt(s, part, i) {
        PartHolds(s, part, i, c);
      }
    }
  }

  /** No title contains a later one. */
  lemma TitlesDiffer(k: nat, j: nat)
    requires k < j < 6
    ensures forall i: nat :: !PartAt(LOWERED[k], LOWERED[j], i)
  {
    var c := match j case 1 => 's' case 2 => 'r' case 3 => 'b' case 4 => 'c' case _ => if k == 3 then 'c' else 'b';
    Missing(LOWERED[k], LOWERED[j], c);
  }

  lemma TitleReads(u: Script, cell: string, lowered: string)
    requires ExtendsAscii(u) && cell != "" && |lowered| == |cell|
    requires forall i | 0 <= i < |cell| :: cell[i] <= '\U{7f}' && lowered[i] == Lower(cell[i])
    requires !IsSpace(cell[0]) && !IsSpace(cell[|cell| - 1])
    ensures Translate(TrimSpace(u, cell), u.lower) == lowered
  {
    assert TrimSpace(u, cell) == cell;
    assert Translate(cell, u.lower) == lowered;
  }

  lemma TitleLowered(u: Script, k: nat)
    requires ExtendsAscii(u) && k < 6
    ensures Translate(TrimSpace(u, TITLES[k]), u.lower) == LOWERED[k]
  {
    TitleReads(u, TITLES[k], LOWERED[k]);
  }

  lemma TitleIsFirst(u: Script, j: nat)
    requires ExtendsAscii(u) && j < 6
    ensures FirstTitled(u, TITLES, LOWERED[j], j)
  {
    TitleLowered(u, j);
    assert PartAt(LOWERED[j], LOWERED[j], 0);
    forall k | 0 <= k < j ensures !Titled(u, TITLES[k], LOWERED[j]) {
      TitleLowered(u, k);
      TitlesDiffer(k, j);
    }
  }

  /** The bank's titles are found where they stand. */
  lemma TitlesAreFound(u: Script)
    requires ExtendsAscii(u)
    ensures Layout(u, ["Date", "Details", "Ref No", "Debit", "Credit", "Balance"], Columns(0, 1, 2, 3, 4, 5))
  {
    TitleIsFirst(u, 0);
    TitleIsFirst(u, 1);
    TitleIsFirst(u, 2);
    TitleIsFirst(u, 3);
    TitleIsFirst(u, 4);
    TitleIsFirst(u, 5);
  }

  /** Day, month, year. */
  lemma DayComesFirst()
    ensures ParseDate("01/04/2025") == Some(Date(2025, 4, 1))
  {
    assert Decimal.Digits(2025) == "2025" && Decimal.Digits(1) == "1" && Decimal.Digits(4) == "4";
    assert IdempotencyKey.Zeros(1) == "0" + IdempotencyKey.Zeros(0) == "0";
    assert DateCell(Date(2025, 4, 1)) == "01/04/2025";
    DateReadsBack(Date(2025, 4, 1));
  }
}
