/** The text table of query results (internal/tools/execute_sql.go).  Cells are byte strings. */
module Table {
  import opened Common

  const MAX_SQL_ROWS := 50

  function Repeat(c: char, n: nat): (s: string)
    ensures |s| == n && forall i | 0 <= i < n :: s[i] == c
  {
    seq(n, _ => c)
  }

  function Pad(s: string, w: nat): string {
    if |s| >= w then s else s + Repeat(' ', w - |s|)
  }

  function Max(a: nat, b: nat): nat { if a < b then b else a }

  /** The widest text of column `i` among the header and the first `r` rows. */
  function Width(headers: seq<string>, rows: seq<seq<string>>, i: nat, r: nat): nat
    requires i < |headers| && r <= |rows|
  {
    if r == 0 then |headers[i]|
    else
      var before := Width(headers, rows, i, r - 1);
      if i < |rows[r - 1]| then Max(before, |rows[r - 1][i]|) else before
  }

  function Widths(headers: seq<string>, rows: seq<seq<string>>): seq<nat> {
    seq(|headers|, i requires 0 <= i < |headers| => Width(headers, rows, i, |rows|))
  }

  /** A line: padded cells with a three-byte bar in between; cells beyond the last column are not shown. */
  function Line(cells: seq<string>, widths: seq<nat>, bar: string): string {
    if cells == [] || widths == [] then ""
    else if |cells| > |widths| then Line(cells[..|widths|], widths, bar)
    else
      var n := |cells| - 1;
      Line(cells[..n], widths, bar) + (if n > 0 then bar else "") + Pad(cells[n], widths[n])
  }

  function Dashes(widths: seq<nat>): seq<string> {
    seq(|widths|, i requires 0 <= i < |widths| => Repeat('-', widths[i]))
  }

  /** The table so far, one more line a row. */
  function WithRows(head: string, rows: seq<seq<string>>, widths: seq<nat>): string {
    if rows == [] then head
    else WithRows(head, rows[..|rows| - 1], widths) + Line(rows[|rows| - 1], widths, " | ") + "\n"
  }

  const NOTICE := "\n(showing first 50 rows — add a LIMIT clause to your query to reduce results)\n"

  /** Header and rule. */
  function HeadOf(headers: seq<string>, w: seq<nat>): string {
    Line(headers, w, " | ") + "\n" + Line(Dashes(w), w, "-+-") + "\n"
  }

  function Render(headers: seq<string>, rows: seq<seq<string>>, truncated: bool): string {
    var w := Widths(headers, rows);
    WithRows(HeadOf(headers, w), rows, w) + if truncated then NOTICE else ""
  }

  // ----- the code: a widths buffer, then a growing text -----

  method ColumnWidths(headers: seq<string>, rows: seq<seq<string>>) returns (widths: array<nat>)
    ensures fresh(widths) && widths[..] == Widths(headers, rows)
  {
    widths := new nat[|headers|];
    for i := 0 to |headers|
      invariant forall k | 0 <= k < i :: widths[k] == |headers[k]|
    {
      widths[i] := |headers[i]|;
    }
    for r := 0 to |rows|
      invariant forall k | 0 <= k < |headers| :: widths[k] == Width(headers, rows, k, r)
    {
      var row := rows[r];
      for i := 0 to |row|
        invariant forall k | 0 <= k < |headers| ::
                    widths[k] == if k < i then Width(headers, rows, k, r + 1) else Width(headers, rows, k, r)
      {
        if i < |headers| && |row[i]| > widths[i] {
          widths[i] := |row[i]|;
        }
      }
    }
  }

  method WriteLine(cells: seq<string>, widths: array<nat>, bar: string) returns (b: string)
    ensures b == Line(cells, widths[..], bar)
  {
    b := "";
    ghost var w := widths[..];
    var i := 0;
    while i < |cells|
      invariant i <= |cells| && i <= |w| == widths.Length && w == widths[..]
      invariant b == Line(cells[..i], w, bar)
    {
      if i >= widths.Length {
        assert cells[..i] == cells[..|w|];
        return;
      }
      if i > 0 {
        b := b + bar;
      }
      b := b + Pad(cells[i], widths[i]);
      assert cells[..i + 1][..i] == cells[..i];
      i := i + 1;
    }
    assert cells[..i] == cells;
  }

  method FormatTable(headers: seq<string>, rows: seq<seq<string>>, truncated: bool) returns (b: string)
    ensures b == Render(headers, rows, truncated)
  {
    var widths := ColumnWidths(headers, rows);
    ghost var w := widths[..];
    b := WriteLine(headers, widths, " | ");
    b := b + "\n";
    var sep := WriteLine(Dashes(widths[..]), widths, "-+-");
    b := b + sep + "\n";
    ghost var head := b;
    for r := 0 to |rows|
      invariant widths[..] == w && b == WithRows(head, rows[..r], w)
    {
      var line := WriteLine(rows[r], widths, " | ");
      assert rows[..r + 1][..r] == rows[..r];
      b := b + line + "\n";
    }
    assert rows[..|rows|] == rows;
    if truncated {
      b := b + NOTICE;
    }
  }

  // ----- the layout -----

  function Sum(ws: seq<nat>): nat {
    if ws == [] then 0 else Sum(ws[..|ws| - 1]) + ws[|ws| - 1]
  }

  /** Where column `i` starts on every line. */
  function Offset(widths: seq<nat>, i: nat): nat
    requires i <= |widths|
  {
    Sum(widths[..i]) + 3 * i
  }

  /** Every cell fits its column. */
  predicate Fits(cells: seq<string>, widths: seq<nat>) {
    |cells| == |widths| && forall i | 0 <= i < |cells| :: |cells[i]| <= widths[i]
  }

  lemma {:induction false} WidthCovers(headers: seq<string>, rows: seq<seq<string>>, i: nat, r: nat)
    requires i < |headers| && r <= |rows|
    ensures |headers[i]| <= Width(headers, rows, i, r)
    ensures forall k | 0 <= k < r && i < |rows[k]| :: |rows[k][i]| <= Width(headers, rows, i, r)
    ensures Width(headers, rows, i, r) == |headers[i]|
            || exists k :: 0 <= k < r && i < |rows[k]| && |rows[k][i]| == Width(headers, rows, i, r)
  {
    if r > 0 {
      WidthCovers(headers, rows, i, r - 1);
    }
  }

  /** A column is exactly as wide as its widest text, so headers and full rows fit. */
  lemma WidthsFit(headers: seq<string>, rows: seq<seq<string>>)
    requires forall r | 0 <= r < |rows| :: |rows[r]| == |headers|
    ensures Fits(headers, Widths(headers, rows)) && Fits(Dashes(Widths(headers, rows)), Widths(headers, rows))
    ensures forall r | 0 <= r < |rows| :: Fits(rows[r], Widths(headers, rows))
    ensures forall i | 0 <= i < |headers| ::
              Widths(headers, rows)[i] == |headers[i]|
              || exists r :: 0 <= r < |rows| && |rows[r][i]| == Widths(headers, rows)[i]
  {
    forall i | 0 <= i < |headers|
      ensures |headers[i]| <= Width(headers, rows, i, |rows|)
      ensures forall r | 0 <= r < |rows| :: |rows[r][i]| <= Width(headers, rows, i, |rows|)
      ensures Width(headers, rows, i, |rows|) == |headers[i]|
              || exists r :: 0 <= r < |rows| && |rows[r][i]| == Width(headers, rows, i, |rows|)
    {
      WidthCovers(headers, rows, i, |rows|);
    }
  }

  lemma LinePrefix(cells: seq<string>, widths: seq<nat>, bar: string)
    requires |cells| <= |widths|
    ensures Line(cells, widths, bar) == Line(cells, widths[..|cells|], bar)
  {
    if cells != [] {
      LinePrefix(cells[..|cells| - 1], widths, bar);
      LinePrefix(cells[..|cells| - 1], widths[..|cells|], bar);
      assert widths[..|cells|][..|cells| - 1] == widths[..|cells| - 1];
    }
  }

  /** The stretch of a line that belongs to column `i`. */
  function Column(line: string, widths: seq<nat>, i: nat): string
    requires i < |widths| && Offset(widths, i) + widths[i] <= |line|
  {
    line[Offset(widths, i)..Offset(widths, i) + widths[i]]
  }

  lemma {:induction false} LineLength(cells: seq<string>, widths: seq<nat>, bar: string)
    requires Fits(cells, widths) && |bar| == 3 && cells != []
    ensures |Line(cells, widths, bar)| == Sum(widths) + 3 * (|widths| - 1)
  {
    var n := |cells| - 1;
    LinePrefix(cells[..n], widths, bar);
    if n > 0 {
      LineLength(cells[..n], widths[..n], bar);
    }
  }

  lemma AppendTail(before: string, cell: string, after: string, bar: string, last: string)
    ensures before + cell + after + bar + last == before + cell + (after + bar + last)
  {
  }

  lemma LineSnoc(cells: seq<string>, widths: seq<nat>, bar: string)
    requires Fits(cells, widths) && cells != []
    ensures var n := |cells| - 1;
            && Fits(cells[..n], widths[..n])
            && Line(cells, widths, bar)
                 == Line(cells[..n], widths[..n], bar) + (if n > 0 then bar else "") + Pad(cells[n], widths[n])
  {
    LinePrefix(cells[..|cells| - 1], widths, bar);
  }

  lemma PrefixGrows(bar: string, s: string, more: string)
    requires bar <= s
    ensures bar <= s + more
  {
  }

  /** Whatever the cells say, column `i` begins at the same offset, and a bar follows it unless it is the last. */
  lemma {:induction false} LineSplit(cells: seq<string>, widths: seq<nat>, bar: string, i: nat)
    returns (before: string, after: string)
    requires Fits(cells, widths) && |bar| == 3 && i < |cells|
    ensures Line(cells, widths, bar) == before + Pad(cells[i], widths[i]) + after
    ensures |before| == Offset(widths, i)
    ensures if i + 1 == |cells| then after == "" else bar <= after
  {
    var n := |cells| - 1;
    LineSnoc(cells, widths, bar);
    if i == n {
      before, after := Line(cells[..n], widths[..n], bar) + (if n > 0 then bar else ""), "";
      if n > 0 {
        LineLength(cells[..n], widths[..n], bar);
      }
    } else {
      var last, rest := Pad(cells[n], widths[n]), "";
      before, rest := LineSplit(cells[..n], widths[..n], bar, i);
      assert widths[..n][..i] == widths[..i];
      AppendTail(before, Pad(cells[i], widths[i]), rest, bar, last);
      PrefixGrows(bar, if rest == "" then bar else rest, if rest == "" then last else bar + last);
      assert rest + bar + last == rest + (bar + last);
      after := rest + bar + last;
    }
  }

  /** Cutting any line at the common offsets gives each cell back, followed only by padding. */
  lemma ColumnReadsBack(cells: seq<string>, widths: seq<nat>, bar: string, i: nat)
    requires Fits(cells, widths) && |bar| == 3 && i < |cells|
    ensures Offset(widths, i) + widths[i] <= |Line(cells, widths, bar)|
    ensures var cut := Column(Line(cells, widths, bar), widths, i);
            cells[i] <= cut && forall k | |cells[i]| <= k < |cut| :: cut[k] == ' '
  {
    var before, after := LineSplit(cells, widths, bar, i);
    assert Column(before + Pad(cells[i], widths[i]) + after, widths, i) == Pad(cells[i], widths[i]);
  }

  function TrimSpaces(s: string): string {
    if s != "" && s[|s| - 1] == ' ' then TrimSpaces(s[..|s| - 1]) else s
  }

  lemma {:induction false} TrimPadding(cell: string, cut: string)
    requires cell <= cut && forall k | |cell| <= k < |cut| :: cut[k] == ' '
    ensures TrimSpaces(cut) == TrimSpaces(cell)
    decreases |cut|
  {
    if |cut| > |cell| {
      TrimPadding(cell, cut[..|cut| - 1]);
    } else {
      assert cut == cell;
    }
  }

  /** Two rows that print the same line have the same cells, up to trailing spaces. */
  lemma LineInjective(a: seq<string>, b: seq<string>, widths: seq<nat>, bar: string, i: nat)
    requires Fits(a, widths) && Fits(b, widths) && |bar| == 3 && i < |a|
    requires Line(a, widths, bar) == Line(b, widths, bar)
    ensures TrimSpaces(a[i]) == TrimSpaces(b[i])
  {
    ColumnReadsBack(a, widths, bar, i);
    ColumnReadsBack(b, widths, bar, i);
    TrimPadding(a[i], Column(Line(a, widths, bar), widths, i));
    TrimPadding(b[i], Column(Line(b, widths, bar), widths, i));
  }

  /** The whole table: header, rule and rows are lines of one length, columns aligned and readable. */
  lemma TableLayout(headers: seq<string>, rows: seq<seq<string>>, r: nat, i: nat)
    requires headers != [] && forall k | 0 <= k < |rows| :: |rows[k]| == |headers|
    requires r < |rows| && i < |headers|
    ensures var w := Widths(headers, rows);
            && |Line(headers, w, " | ")| == |Line(Dashes(w), w, "-+-")| == |Line(rows[r], w, " | ")|
                 == Sum(w) + 3 * (|w| - 1)
            && Offset(w, i) + w[i] <= |Line(headers, w, " | ")|
            && headers[i] <= Column(Line(headers, w, " | "), w, i)
            && Column(Line(Dashes(w), w, "-+-"), w, i) == Repeat('-', w[i])
            && rows[r][i] <= Column(Line(rows[r], w, " | "), w, i)
            && TrimSpaces(Column(Line(rows[r], w, " | "), w, i)) == TrimSpaces(rows[r][i])
  {
    var w := Widths(headers, rows);
    WidthsFit(headers, rows);
    LineLength(headers, w, " | ");
    LineLength(Dashes(w), w, "-+-");
    LineLength(rows[r], w, " | ");
    ColumnReadsBack(headers, w, " | ", i);
    ColumnReadsBack(Dashes(w), w, "-+-", i);
    ColumnReadsBack(rows[r], w, " | ", i);
    TrimPadding(rows[r][i], Column(Line(rows[r], w, " | "), w, i));
  }

  // ----- the rendered text, line by line -----

  function RowLines(rows: seq<seq<string>>, w: seq<nat>): (ls: seq<string>)
    ensures |ls| == |rows|
  {
    seq(|rows|, r requires 0 <= r < |rows| => Line(rows[r], w, " | "))
  }

  /** Header, rule, and the rows in order. */
  function Lines(headers: seq<string>, rows: seq<seq<string>>): (ls: seq<string>)
    ensures |ls| == |rows| + 2
  {
    var w := Widths(headers, rows);
    [Line(headers, w, " | "), Line(Dashes(w), w, "-+-")] + RowLines(rows, w)
  }

  /** The lines of a text in which every line has `len` bytes and a newline. */
  function ReadLines(text: string, len: nat): seq<string>
    decreases |text|
  {
    if |text| <= len then [] else ReadLines(text[..|text| - len - 1], len) + [text[|text| - len - 1..|text| - 1]]
  }

  /** The text of some lines. */
  function Unlines(ls: seq<string>): string {
    if ls == [] then "" else Unlines(ls[..|ls| - 1]) + ls[|ls| - 1] + "\n"
  }

  lemma UnlinesSnoc(ls: seq<string>, line: string)
    ensures Unlines(ls + [line]) == Unlines(ls) + line + "\n"
  {
    assert (ls + [line])[..|ls|] == ls;
  }

  lemma {:induction false} LinesReadBack(ls: seq<string>, len: nat)
    requires forall k | 0 <= k < |ls| :: |ls[k]| == len
    ensures ReadLines(Unlines(ls), len) == ls
  {
    if ls != [] {
      var init, line := ls[..|ls| - 1], ls[|ls| - 1];
      LinesReadBack(init, len);
      LastLine(Unlines(init), line);
      assert init + [line] == ls;
    }
  }

  lemma LastLine(text: string, line: string)
    ensures var all := text + line + "\n";
            |all| > |line| && ReadLines(all, |line|) == ReadLines(text, |line|) + [line]
  {
    var all := text + line + "\n";
    assert all[..|all| - |line| - 1] == text;
    assert all[|all| - |line| - 1..|all| - 1] == line;
  }

  lemma RowLinesSnoc(head: seq<string>, rows: seq<seq<string>>, w: seq<nat>)
    requires rows != []
    ensures head + RowLines(rows, w) == head + RowLines(rows[..|rows| - 1], w) + [Line(rows[|rows| - 1], w, " | ")]
  {
    assert RowLines(rows, w) == RowLines(rows[..|rows| - 1], w) + [Line(rows[|rows| - 1], w, " | ")];
  }

  lemma {:induction false} WithRowsIsUnlines(head: seq<string>, rows: seq<seq<string>>, w: seq<nat>)
    ensures WithRows(Unlines(head), rows, w) == Unlines(head + RowLines(rows, w))
  {
    if rows == [] {
      assert head + RowLines(rows, w) == head;
    } else {
      var init := rows[..|rows| - 1];
      WithRowsIsUnlines(head, init, w);
      RowLinesSnoc(head, rows, w);
      UnlinesSnoc(head + RowLines(init, w), Line(rows[|rows| - 1], w, " | "));
    }
  }

  lemma TwoLines(a: string, b: string)
    ensures Unlines([a, b]) == a + "\n" + b + "\n"
  {
    assert [] + [a] == [a] && [a] + [b] == [a, b];
    UnlinesSnoc([], a);
    UnlinesSnoc([a], b);
    assert "" + a == a;
  }

  lemma HeadIsUnlines(headers: seq<string>, w: seq<nat>)
    ensures HeadOf(headers, w) == Unlines([Line(headers, w, " | "), Line(Dashes(w), w, "-+-")])
  {
    TwoLines(Line(headers, w, " | "), Line(Dashes(w), w, "-+-"));
  }

  function LineLen(headers: seq<string>, rows: seq<seq<string>>): nat
    requires headers != []
  {
    Sum(Widths(headers, rows)) + 3 * (|headers| - 1)
  }

  lemma LinesHaveOneLength(headers: seq<string>, rows: seq<seq<string>>)
    requires headers != [] && forall k | 0 <= k < |rows| :: |rows[k]| == |headers|
    ensures forall k | 0 <= k < |Lines(headers, rows)| :: |Lines(headers, rows)[k]| == LineLen(headers, rows)
  {
    var w := Widths(headers, rows);
    WidthsFit(headers, rows);
    LineLength(headers, w, " | ");
    LineLength(Dashes(w), w, "-+-");
    forall k | 0 <= k < |rows| ensures |RowLines(rows, w)[k]| == LineLen(headers, rows) {
      LineLength(rows[k], w, " | ");
    }
  }

  /** The table is the header, the rule and one line a row, in order, and then the notice exactly when rows were left
      out: cut at the one line length, the text gives these lines back. */
  lemma TableReadsBack(headers: seq<string>, rows: seq<seq<string>>, truncated: bool) returns (body: string)
    requires headers != [] && forall k | 0 <= k < |rows| :: |rows[k]| == |headers|
    ensures Render(headers, rows, truncated) == body + if !truncated then "" else
              "\n(showing first 50 rows — add a LIMIT clause to your query to reduce results)\n"
    ensures var lines, w := ReadLines(body, LineLen(headers, rows)), Widths(headers, rows);
            && |lines| == |rows| + 2
            && lines[0] == Line(headers, w, " | ") && lines[1] == Line(Dashes(w), w, "-+-")
            && forall r | 0 <= r < |rows| :: lines[r + 2] == Line(rows[r], w, " | ")
  {
    var w := Widths(headers, rows);
    body := WithRows(HeadOf(headers, w), rows, w);
    HeadIsUnlines(headers, w);
    WithRowsIsUnlines([Line(headers, w, " | "), Line(Dashes(w), w, "-+-")], rows, w);
    LinesHaveOneLength(headers, rows);
    LinesReadBack(Lines(headers, rows), LineLen(headers, rows));
    LinesInOrder(headers, rows);
  }

  lemma LinesInOrder(headers: seq<string>, rows: seq<seq<string>>)
    ensures var lines, w := Lines(headers, rows), Widths(headers, rows);
            && lines[0] == Line(headers, w, " | ") && lines[1] == Line(Dashes(w), w, "-+-")
            && forall r | 0 <= r < |rows| :: lines[r + 2] == Line(rows[r], w, " | ")
  {
  }

  // ----- reading the result set -----

  const MAX_CELL_LEN := 80

  /** The three bytes of the ellipsis character. */
  const ELLIPSIS := ['\U{E2}', '\U{80}', '\U{A6}']

  datatype Value = Null | Text(text: string)

  /** A null prints as NULL; a long text keeps its first 80 bytes and gets an ellipsis. */
  function CellText(v: Value): string {
    match v
    case Null => "NULL"
    case Text(t) => if |t| > MAX_CELL_LEN then t[..MAX_CELL_LEN] + ELLIPSIS else t
  }

  function RowText(vals: seq<Value>): (row: seq<string>)
    ensures |row| == |vals|
  {
    seq(|vals|, i requires 0 <= i < |vals| => CellText(vals[i]))
  }

  function RowTexts(rows: seq<seq<Value>>): (texts: seq<seq<string>>)
    ensures |texts| == |rows|
  {
    seq(|rows|, i requires 0 <= i < |rows| => RowText(rows[i]))
  }

  /** The cell shows the value: NULL for a null, a text of up to 80 bytes as it is, and of a longer one the first 80
      bytes and the three bytes of an ellipsis. */
  ghost predicate Shows(cell: string, v: Value) {
    && (v.Null? ==> cell == "NULL")
    && (v.Text? && |v.text| <= 80 ==> cell == v.text)
    && (v.Text? && |v.text| > 80 ==>
          |cell| == 83 && cell[..80] == v.text[..80] && cell[80..] == "\U{E2}\U{80}\U{A6}")
  }

  /** Every value is shown in its own row and column. */
  lemma CellsShow(rows: seq<seq<Value>>, r: nat, c: nat)
    requires r < |rows| && c < |rows[r]|
    ensures |RowTexts(rows)| == |rows| && |RowTexts(rows)[r]| == |rows[r]|
    ensures Shows(RowTexts(rows)[r][c], rows[r][c])
  {
    var v := rows[r][c];
    if v.Text? && |v.text| > 80 {
      assert CellText(v)[..80] == v.text[..80] && CellText(v)[80..] == ELLIPSIS;
    }
  }

  /** A row of the result set; None is one that cannot be decoded. */
  type Fetched = Option<seq<Value>>

  predicate AllDecoded(rows: seq<Fetched>) {
    forall i | 0 <= i < |rows| :: rows[i].Some?
  }

  function Decoded(rows: seq<Fetched>): (vals: seq<seq<Value>>)
    requires AllDecoded(rows)
    ensures |vals| == |rows|
  {
    seq(|rows|, i requires 0 <= i < |rows| => rows[i].value)
  }

  datatype Found = Found(rows: seq<seq<string>>, truncated: bool)

  method Texts(vals: seq<Value>) returns (row: seq<string>)
    ensures row == RowText(vals)
  {
    row := [];
    for i := 0 to |vals|
      invariant row == RowText(vals[..i])
    {
      row := row + [CellText(vals[i])];
    }
    assert vals[..|vals|] == vals;
  }

  /** At most fifty-one rows are looked at: an undecodable one among them, or a failure at the end, is an error.
      Otherwise the first fifty are shown, and the notice appears exactly when there are more. */
  method Collect(rows: seq<Fetched>, readFault: bool) returns (found: Option<Found>)
    ensures found.None? <==> readFault || !AllDecoded(rows[..Min(51, |rows|)])
    ensures found.Some? ==>
              && (found.value.truncated <==> |rows| > 50)
              && AllDecoded(rows[..Min(50, |rows|)])
              && found.value.rows == RowTexts(Decoded(rows[..Min(50, |rows|)]))
  {
    var result := [];
    var next := 0;
    while next < |rows|
      invariant next <= |rows| && |result| == next <= MAX_SQL_ROWS
      invariant AllDecoded(rows[..next]) && result == RowTexts(Decoded(rows[..next]))
    {
      if rows[next].None? {
        assert !AllDecoded(rows[..Min(MAX_SQL_ROWS + 1, |rows|)]) by {
          assert rows[..Min(MAX_SQL_ROWS + 1, |rows|)][next].None?;
        }
        return None;
      }
      var row := Texts(rows[next].value);
      AppendText(rows, next);
      result := result + [row];
      next := next + 1;
      if |result| >= MAX_SQL_ROWS + 1 {
        break;
      }
    }
    if readFault {
      return None;
    }
    var truncated := |result| > MAX_SQL_ROWS;
    if truncated {
      PrefixText(rows, MAX_SQL_ROWS, next);
      result := result[..MAX_SQL_ROWS];
    }
    found := Some(Found(result, truncated));
  }

  lemma AppendText(rows: seq<Fetched>, i: nat)
    requires i < |rows| && AllDecoded(rows[..i]) && rows[i].Some?
    ensures AllDecoded(rows[..i + 1])
    ensures RowTexts(Decoded(rows[..i + 1])) == RowTexts(Decoded(rows[..i])) + [RowText(rows[i].value)]
  {
  }

  lemma PrefixText(rows: seq<Fetched>, k: nat, n: nat)
    requires k <= n <= |rows| && AllDecoded(rows[..n])
    ensures AllDecoded(rows[..k]) && RowTexts(Decoded(rows[..n]))[..k] == RowTexts(Decoded(rows[..k]))
  {
  }
}
