/** Rows of cells as comma-separated text. */
module CsvText {
  import opened Options
  import opened Pieces

  predicate Special(c: char) {
    c == ',' || c == '"' || c == '\n' || c == '\r'
  }

  predicate NeedsQuotes(s: string) {
    exists i :: 0 <= i < |s| && Special(s[i])
  }

  function Doubled(c: char): string {
    if c == '"' then "\"\"" else [c]
  }

  function CsvQuote(s: string): string {
    if NeedsQuotes(s) then "\"" + Spelled(Doubled, s) + "\"" else s
  }

  // The cells with commas between them.
  function Cells(cells: seq<string>): string {
    if |cells| == 0 then "" else
      Cells(cells[..|cells| - 1]) + (if |cells| > 1 then "," else "") + CsvQuote(cells[|cells| - 1])
  }

  function Lines(rows: seq<seq<string>>): string {
    if |rows| == 0 then "" else Lines(rows[..|rows| - 1]) + Cells(rows[|rows| - 1]) + "\n"
  }

  method WriteCells(b0: string, cells: seq<string>) returns (b: string)
    ensures b == b0 + Cells(cells)
  {
    b := b0;
    for i := 0 to |cells|
      invariant b == b0 + Cells(cells[..i])
    {
      assert cells[..i + 1][..i] == cells[..i];
      if i > 0 {
        b := b + ",";
      }
      b := b + CsvQuote(cells[i]);
    }
    assert cells[..|cells|] == cells;
  }

  method ExportRows(header: string, rows: seq<seq<string>>) returns (b: string)
    ensures b == header + Lines(rows)
  {
    b := header;
    for k := 0 to |rows|
      invariant b == header + Lines(rows[..k])
    {
      assert rows[..k + 1][..k] == rows[..k];
      b := WriteCells(b, rows[k]);
      b := b + "\n";
    }
    assert rows[..|rows|] == rows;
  }

  // ---- Reading, after section 2 of RFC 4180, with a line feed ending each line ----

  // One field and what follows it.
  function ReadField(s: string): (r: Option<(string, string)>)
    ensures r.Some? ==> |r.value.1| <= |s|
  {
    if |s| > 0 && s[0] == '"' then ReadQuoted(s[1..]) else ReadPlain(s)
  }

  function ReadPlain(s: string): (r: Option<(string, string)>)
    ensures r.Some? ==> |r.value.1| <= |s|
  {
    if |s| == 0 || s[0] == ',' || s[0] == '\n' then Some(("", s))
    else if s[0] == '"' || s[0] == '\r' then None
    else Prepended(s[0], ReadPlain(s[1..]))
  }

  function ReadQuoted(s: string): (r: Option<(string, string)>)
    ensures r.Some? ==> |r.value.1| <= |s|
  {
    if |s| == 0 then None
    else if s[0] != '"' then Prepended(s[0], ReadQuoted(s[1..]))
    else if |s| > 1 && s[1] == '"' then Prepended('"', ReadQuoted(s[2..]))
    else Some(("", s[1..]))
  }

  // Fields up to the end of the line.
  function ReadLine(s: string): (r: Option<(seq<string>, string)>)
    ensures r.Some? ==> |r.value.1| < |s|
    decreases |s|
  {
    var f := ReadField(s);
    if f.None? then None else
      var (cell, left) := f.value;
      if |left| == 0 then None
      else if left[0] == '\n' then Some(([cell], left[1..]))
      else if left[0] == ',' then
        BeforeRest(cell, ReadLine(left[1..]))
      else None
  }

  function BeforeRest(cell: string, r: Option<(seq<string>, string)>): Option<(seq<string>, string)> {
    if r.None? then None else Some(([cell] + r.value.0, r.value.1))
  }

  lemma {:induction false} PlainIsRead(s: string, left: string)
    requires !NeedsQuotes(s) && |left| > 0 && (left[0] == ',' || left[0] == '\n')
    ensures ReadPlain(s + left) == Some((s, left))
  {
    if |s| == 0 {
      assert s + left == left;
    } else {
      assert !Special(s[0]);
      forall i | 0 <= i < |s[1..]| ensures !Special(s[1..][i]) {
        assert s[1..][i] == s[i + 1];
      }
      PlainIsRead(s[1..], left);
      assert (s + left)[1..] == s[1..] + left;
      assert [s[0]] + s[1..] == s;
    }
  }

  lemma {:induction false} QuotedIsRead(s: string, left: string)
    requires |left| > 0 && left[0] != '"'
    ensures ReadQuoted(Written(Doubled, s, "\"" + left)) == Some((s, left))
  {
    if |s| == 0 {
      assert ("\"" + left)[1..] == left;
    } else {
      QuotedIsRead(s[1..], left);
      DoubledIsRead(s[0], Written(Doubled, s[1..], "\"" + left));
      assert [s[0]] + s[1..] == s;
    }
  }

  lemma DoubledIsRead(c: char, rest: string)
    ensures ReadQuoted(Doubled(c) + rest) == Prepended(c, ReadQuoted(rest))
  {
    var all := Doubled(c) + rest;
    if c == '"' {
      assert all[2..] == rest;
    } else {
      assert all[1..] == rest;
    }
  }

  // A cell with what follows it.
  function CellThen(s: string, tail: string): string {
    if NeedsQuotes(s) then "\"" + Written(Doubled, s, "\"" + tail) else s + tail
  }

  lemma CellIsThen(s: string, tail: string)
    ensures CsvQuote(s) + tail == CellThen(s, tail)
  {
    if NeedsQuotes(s) {
      SpelledIsWritten(Doubled, s, "\"" + tail);
      QuotesAround(Spelled(Doubled, s), tail);
    }
  }

  lemma QuotesAround(inner: string, tail: string)
    ensures "\"" + inner + "\"" + tail == "\"" + (inner + ("\"" + tail))
  {
  }

  lemma CellIsRead(s: string, left: string)
    requires |left| > 0 && (left[0] == ',' || left[0] == '\n')
    ensures ReadField(CellThen(s, left)) == Some((s, left))
  {
    if NeedsQuotes(s) {
      QuotedIsRead(s, left);
      var inner := Written(Doubled, s, "\"" + left);
      assert ("\"" + inner)[1..] == inner;
    } else {
      PlainIsRead(s, left);
      PlainCellStart(s, left);
    }
  }

  lemma PlainCellStart(s: string, left: string)
    requires !NeedsQuotes(s) && |left| > 0 && (left[0] == ',' || left[0] == '\n')
    ensures ReadField(s + left) == ReadPlain(s + left)
  {
    assert |s| > 0 ==> !Special(s[0]);
    assert |s| == 0 ==> (s + left)[0] == left[0];
  }

  // A line with what follows it.
  function LineThen(cells: seq<string>, left: string): string
    requires |cells| > 0
  {
    if |cells| == 1 then CellThen(cells[0], "\n" + left) else CellThen(cells[0], "," + LineThen(cells[1..], left))
  }

  lemma {:induction false} CellsFromFront(cells: seq<string>)
    requires |cells| > 0
    ensures Cells(cells) == CsvQuote(cells[0]) + if |cells| > 1 then "," + Cells(cells[1..]) else ""
  {
    var n := |cells| - 1;
    if n == 0 {
      assert Cells(cells[..0]) == "";
    } else {
      CellsFromFront(cells[..n]);
      assert cells[1..][..n - 1] == cells[..n][1..];
      assert n == 1 ==> cells[..n][1..] == [] && Cells(cells[1..][..0]) == "";
      CellsRegrouped(CsvQuote(cells[0]), Cells(cells[..n][1..]), CsvQuote(cells[n]));
    }
  }

  lemma CellsRegrouped(first: string, middle: string, last: string)
    ensures first + ("," + middle) + "," + last == first + ("," + (middle + "," + last))
    ensures first + "" + "," + last == first + ("," + ("" + "" + last))
  {
  }

  lemma {:induction false} CellsAreThen(cells: seq<string>, left: string)
    requires |cells| > 0
    ensures Cells(cells) + "\n" + left == LineThen(cells, left)
  {
    CellsFromFront(cells);
    if |cells| == 1 {
      CellIsThen(cells[0], "\n" + left);
      Associated(CsvQuote(cells[0]), "\n", left);
      assert CsvQuote(cells[0]) + "" == CsvQuote(cells[0]);
    } else {
      CellsAreThen(cells[1..], left);
      CellIsThen(cells[0], "," + LineThen(cells[1..], left));
      RestRegrouped(CsvQuote(cells[0]), Cells(cells[1..]), left);
    }
  }

  lemma RestRegrouped(first: string, rest: string, left: string)
    ensures first + ("," + rest) + "\n" + left == first + ("," + (rest + "\n" + left))
  {
  }

  lemma LastCell(cell: string, left: string)
    ensures ReadLine(CellThen(cell, "\n" + left)) == Some(([cell], left))
  {
    CellIsRead(cell, "\n" + left);
    assert ("\n" + left)[1..] == left;
  }

  lemma OneMoreCell(cell: string, more: string)
    ensures ReadLine(CellThen(cell, "," + more)) == BeforeRest(cell, ReadLine(more))
  {
    CellIsRead(cell, "," + more);
    assert ("," + more)[1..] == more;
  }

  /** A printed line reads back as its cells, whatever text they hold. */
  lemma {:induction false} LineIsRead(cells: seq<string>, left: string)
    requires 0 < |cells|
    ensures ReadLine(LineThen(cells, left)) == Some((cells, left))
  {
    if |cells| == 1 {
      LastCell(cells[0], left);
      assert cells == [cells[0]];
    } else {
      OneMoreCell(cells[0], LineThen(cells[1..], left));
      LineIsRead(cells[1..], left);
      assert cells == [cells[0]] + cells[1..];
    }
  }

  function ReadCsv(s: string): Option<seq<seq<string>>>
    decreases |s|
  {
    if |s| == 0 then Some([])
    else
      var r := ReadLine(s);
      if r.None? then None else BeforeLines(r.value.0, ReadCsv(r.value.1))
  }

  function BeforeLines(row: seq<string>, more: Option<seq<seq<string>>>): Option<seq<seq<string>>> {
    if more.None? then None else Some([row] + more.value)
  }

  predicate NoEmptyRow(rows: seq<seq<string>>) {
    forall i :: 0 <= i < |rows| ==> |rows[i]| > 0
  }

  function LinesThen(rows: seq<seq<string>>): string
    requires NoEmptyRow(rows)
  {
    if |rows| == 0 then "" else LineThen(rows[0], LinesThen(rows[1..]))
  }

  lemma LinesSnoc(rows: seq<seq<string>>, row: seq<string>)
    ensures Lines(rows + [row]) == Lines(rows) + Cells(row) + "\n"
  {
    assert (rows + [row])[..|rows|] == rows;
  }

  lemma {:induction false} LinesFromFront(rows: seq<seq<string>>)
    requires |rows| > 0
    ensures Lines(rows) == Cells(rows[0]) + "\n" + Lines(rows[1..])
  {
    var n := |rows| - 1;
    var front, last := rows[..n], rows[n];
    assert rows == front + [last];
    if n == 0 {
      LinesSnoc([], last);
      assert rows[1..] == [] && front == [];
      assert "" + Cells(last) + "\n" == Cells(last) + "\n" + "";
    } else {
      LinesFromFront(front);
      assert rows[1..] == front[1..] + [last];
      LinesSnoc(front, last);
      LinesSnoc(front[1..], last);
      LinesRegrouped(Cells(rows[0]), Lines(front[1..]), Cells(last));
    }
  }

  lemma LinesRegrouped(first: string, middle: string, last: string)
    ensures first + "\n" + middle + last + "\n" == first + "\n" + (middle + last + "\n")
  {
  }

  lemma {:induction false} LinesAreThen(rows: seq<seq<string>>)
    requires NoEmptyRow(rows)
    ensures Lines(rows) == LinesThen(rows)
  {
    if |rows| > 0 {
      LinesFromFront(rows);
      LinesAreThen(rows[1..]);
      CellsAreThen(rows[0], LinesThen(rows[1..]));
    }
  }

  lemma OneMoreLine(row: seq<string>, left: string)
    requires |row| > 0
    ensures ReadCsv(LineThen(row, left)) == BeforeLines(row, ReadCsv(left))
  {
    LineIsRead(row, left);
  }

  lemma {:induction false} LinesAreRead(rows: seq<seq<string>>)
    requires NoEmptyRow(rows)
    ensures ReadCsv(LinesThen(rows)) == Some(rows)
  {
    if |rows| > 0 {
      OneMoreLine(rows[0], LinesThen(rows[1..]));
      LinesAreRead(rows[1..]);
      assert rows == [rows[0]] + rows[1..];
    }
  }

  /** The whole export reads back cell for cell: commas, quotes and line breaks in cells included. */
  lemma ExportIsRead(header: seq<string>, rows: seq<seq<string>>)
    requires |header| > 0 && NoEmptyRow(rows)
    ensures ReadCsv(Cells(header) + "\n" + Lines(rows)) == Some([header] + rows)
  {
    var all := [header] + rows;
    assert all[1..] == rows;
    LinesFromFront(all);
    LinesAreThen(all);
    LinesAreRead(all);
  }

  /** A cell is put in quotes exactly when it holds a comma, a quote or a line break. */
  lemma QuotedIffNeeded(s: string)
    ensures CsvQuote(s) == s <==> ',' !in s && '"' !in s && '\n' !in s && '\r' !in s
    ensures CsvQuote(s) != s ==> |CsvQuote(s)| >= |s| + 2 && CsvQuote(s)[0] == '"' == CsvQuote(s)[|CsvQuote(s)| - 1]
  {
    SpelledIsLonger(s);
    if c :| c in s && Special(c) {
      var i :| 0 <= i < |s| && s[i] == c;
      assert NeedsQuotes(s);
    }
  }

  lemma {:induction false} SpelledIsLonger(s: string)
    ensures |Spelled(Doubled, s)| >= |s|
  {
    if |s| > 0 {
      SpelledIsLonger(s[1..]);
    }
  }
}
