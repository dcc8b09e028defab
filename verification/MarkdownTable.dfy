/** Pipe tables: printing a matrix of cells, and reading it back. */
module MarkdownTable {
  import opened Prelude
  import opened Text

  // ---- Cells ----

  /** A backslash goes before every pipe. */
  function Escape(s: string): string {
    if s == "" then "" else (if s[0] == '|' then "\\|" else [s[0]]) + Escape(s[1..])
  }

  /** The backslash before a pipe is dropped. */
  function Unescape(s: string): string {
    if s == "" then ""
    else if |s| > 1 && s[0] == '\\' && s[1] == '|' then "|" + Unescape(s[2..])
    else [s[0]] + Unescape(s[1..])
  }

  function NewlinesToSpaces(s: string): string {
    seq(|s|, i requires 0 <= i < |s| => if s[i] == '\n' then ' ' else s[i])
  }

  /** The text of a cell as it is printed. */
  function CleanCell(raw: string): string { Trim(NewlinesToSpaces(Escape(raw))) }

  /** The text of a cell as it is meant. */
  function CellText(raw: string): string { Trim(NewlinesToSpaces(raw)) }

  lemma {:induction false} UnescapeEscape(s: string)
    ensures Unescape(Escape(s)) == s
    ensures Escape(s) != "" ==> Escape(s)[0] != '|'
  {
    if s != "" {
      UnescapeEscape(s[1..]);
      var rest := Escape(s[1..]);
      if s[0] == '|' {
        assert Escape(s)[2..] == rest;
      } else {
        assert Escape(s)[1..] == rest;
      }
    }
  }

  lemma {:induction false} EscapeConcat(a: string, b: string)
    ensures Escape(a + b) == Escape(a) + Escape(b)
  {
    if a == "" {
      assert a + b == b;
    } else {
      assert (a + b)[1..] == a[1..] + b;
      EscapeConcat(a[1..], b);
    }
  }

  lemma {:induction false} EscapeSpaces(s: string)
    ensures NewlinesToSpaces(Escape(s)) == Escape(NewlinesToSpaces(s))
  {
    if s != "" {
      EscapeSpaces(s[1..]);
      assert NewlinesToSpaces(s)[1..] == NewlinesToSpaces(s[1..]);
    }
  }

  lemma {:induction false} EscapeTrimStart(s: string)
    ensures TrimStart(Escape(s)) == Escape(TrimStart(s))
  {
    if s != "" && IsWhitespace(s[0]) {
      EscapeTrimStart(s[1..]);
      assert Escape(s)[1..] == Escape(s[1..]);
    }
  }

  lemma {:induction false} EscapeTrimEnd(s: string)
    ensures TrimEnd(Escape(s)) == Escape(TrimEnd(s))
  {
    if s != "" {
      var init, last := s[..|s| - 1], s[|s| - 1];
      assert s == init + [last];
      EscapeConcat(init, [last]);
      assert Escape([last]) == if last == '|' then "\\|" else [last];
      hide Escape;
      if IsWhitespace(last) {
        EscapeTrimEnd(init);
        assert Escape(s)[..|Escape(s)| - 1] == Escape(init);
      }
    }
  }

  /** Cleaning a cell escapes what the cell means, so unescaping gives the meaning back. */
  lemma CleanCellMeaning(raw: string)
    ensures CleanCell(raw) == Escape(CellText(raw))
    ensures Unescape(CleanCell(raw)) == CellText(raw)
  {
    EscapeSpaces(raw);
    var s := NewlinesToSpaces(raw);
    EscapeTrimStart(s);
    EscapeTrimEnd(TrimStart(s));
    UnescapeEscape(CellText(raw));
    hide Escape, Unescape, NewlinesToSpaces, TrimStart, TrimEnd;
  }

  // ---- Rows ----

  function PrintRow(cells: seq<string>): string { "| " + Join(cells, " | ") + " |" }

  /** The pieces between pipes that no backslash precedes; `escaped` tells of the character before the text. */
  function SplitCells(s: string, escaped: bool): (r: seq<string>)
    ensures r != []
  {
    if s == "" then [""]
    else
      var rest := SplitCells(s[1..], s[0] == '\\');
      if s[0] == '|' && !escaped then [""] + rest else [[s[0]] + rest[0]] + rest[1..]
  }

  /** A printed cell without the two pad spaces, unescaped. */
  function ReadCell(piece: string): string {
    if |piece| < 2 then piece else Unescape(piece[1..|piece| - 1])
  }

  /** The cells of a printed row: the pieces strictly between the outer pipes. */
  function ParseRow(line: string): seq<string> {
    var pieces := SplitCells(line, false);
    if |pieces| < 2 then []
    else seq(|pieces| - 2, i requires 0 <= i < |pieces| - 2 => ReadCell(pieces[i + 1]))
  }

  predicate NoBarePipe(s: string, escaped: bool) {
    s == "" || ((s[0] != '|' || escaped) && NoBarePipe(s[1..], s[0] == '\\'))
  }

  lemma {:induction false} EscapedHasNoBarePipe(s: string, escaped: bool)
    ensures NoBarePipe(Escape(s) + " ", escaped)
  {
    var e := Escape(s) + " ";
    if s == "" {
      assert e == " ";
    } else {
      var rest := Escape(s[1..]) + " ";
      EscapedHasNoBarePipe(s[1..], s[0] == '\\' || false);
      EscapedHasNoBarePipe(s[1..], false);
      if s[0] == '|' {
        assert e[1..] == "|" + rest && ("|" + rest)[1..] == rest;
      } else {
        assert e[1..] == rest;
      }
    }
  }

  /** A piece without a bare pipe, not ending in a backslash, is cut off whole at the pipe after it. */
  lemma {:induction false} SplitPiece(piece: string, escaped: bool, tail: string)
    requires NoBarePipe(piece, escaped) && (if piece == "" then !escaped else piece[|piece| - 1] != '\\')
    ensures SplitCells(piece + "|" + tail, escaped) == [piece] + SplitCells(tail, false)
  {
    var s := piece + "|" + tail;
    if piece == "" {
      assert s[1..] == tail;
    } else {
      assert s[1..] == piece[1..] + "|" + tail;
      SplitPiece(piece[1..], piece[0] == '\\', tail);
      assert [piece[0]] + piece[1..] == piece;
    }
  }

  /** The row after its first pipe. */
  function RowTail(cells: seq<string>): string {
    if cells == [] then "" else " " + cells[0] + " |" + RowTail(cells[1..])
  }

  lemma {:induction false} PrintRowTail(cells: seq<string>)
    requires cells != []
    ensures PrintRow(cells) == "|" + RowTail(cells)
  {
    if |cells| > 1 {
      PrintRowTail(cells[1..]);
      var rest := Join(cells[1..], " | ");
      calc {
        PrintRow(cells);
        "| " + (cells[0] + " | " + rest) + " |";
        "| " + cells[0] + " " + ("| " + rest + " |");
        "| " + cells[0] + " " + ("|" + RowTail(cells[1..]));
        "|" + (" " + cells[0] + " |" + RowTail(cells[1..]));
      }
    }
  }

  function EscapeAll(texts: seq<string>): seq<string> { seq(|texts|, i requires 0 <= i < |texts| => Escape(texts[i])) }

  function Padded(texts: seq<string>): seq<string> {
    seq(|texts|, i requires 0 <= i < |texts| => " " + Escape(texts[i]) + " ")
  }

  lemma {:induction false} SplitRowTail(texts: seq<string>)
    ensures SplitCells(RowTail(EscapeAll(texts)), false) == Padded(texts) + [""]
  {
    if texts != [] {
      var cells, piece := EscapeAll(texts), " " + Escape(texts[0]) + " ";
      assert cells[1..] == EscapeAll(texts[1..]);
      assert RowTail(cells) == piece + "|" + RowTail(cells[1..]);
      assert NoBarePipe(piece, false) by {
        EscapedHasNoBarePipe(texts[0], false);
        assert piece[1..] == Escape(texts[0]) + " ";
      }
      hide SplitCells, RowTail, Escape, NoBarePipe, EscapeAll;
      SplitRowTail(texts[1..]);
      SplitPiece(piece, false, RowTail(cells[1..]));
      assert Padded(texts) == [piece] + Padded(texts[1..]);
    }
  }

  /** Reading a printed row gives back the texts of its cells. */
  lemma ParsePrintedRow(texts: seq<string>)
    requires texts != []
    ensures ParseRow(PrintRow(EscapeAll(texts))) == texts
  {
    var pieces := SplitCells(PrintRow(EscapeAll(texts)), false);
    SplitPrintedRow(texts);
    hide SplitCells, PrintRow, EscapeAll, ReadCell;
    forall i | 0 <= i < |texts| ensures ReadCell(pieces[i + 1]) == texts[i] {
      ReadPadded(texts[i]);
      hide Escape;
    }
    hide Padded;
  }

  lemma ReadPadded(text: string)
    ensures ReadCell(" " + Escape(text) + " ") == text
  {
    UnescapeEscape(text);
    var piece := " " + Escape(text) + " ";
    assert piece[1..|piece| - 1] == Escape(text);
  }

  lemma SplitPrintedRow(texts: seq<string>)
    requires texts != []
    ensures SplitCells(PrintRow(EscapeAll(texts)), false) == [""] + Padded(texts) + [""]
  {
    var tail := RowTail(EscapeAll(texts));
    PrintRowTail(EscapeAll(texts));
    SplitRowTail(texts);
    SplitPiece("", false, tail);
    assert "" + "|" + tail == "|" + tail;
    hide SplitCells, PrintRow, EscapeAll, Padded, RowTail;
    assert [""] + (Padded(texts) + [""]) == [""] + Padded(texts) + [""];
  }

  // ---- Whole tables ----

  function MaxCols(rows: seq<seq<string>>): nat {
    if rows == [] then 0 else Max(MaxCols(rows[..|rows| - 1]), |rows[|rows| - 1]|)
  }

  function PadTo(row: seq<string>, n: nat): seq<string> {
    if |row| >= n then row else row + seq(n - |row|, _ => "")
  }

  function PadAll(rows: seq<seq<string>>, n: nat): seq<seq<string>> {
    seq(|rows|, i requires 0 <= i < |rows| => PadTo(rows[i], n))
  }

  function Dividers(n: nat): seq<string> { seq(n, _ => "---") }

  /** The matrix as printed: the header, one row of dividers, the other rows. */
  function WithDivider(rows: seq<seq<string>>, n: nat): seq<seq<string>>
    requires rows != []
  {
    [rows[0], Dividers(n)] + rows[1..]
  }

  function PrintRows(rows: seq<seq<string>>): string {
    if rows == [] then "" else PrintRows(rows[..|rows| - 1]) + PrintRow(rows[|rows| - 1]) + "\n"
  }

  /** The text of a table; no rows, or no columns, print nothing. */
  function PrintTable(rows: seq<seq<string>>): string {
    var n := MaxCols(rows);
    if rows == [] || n == 0 then "" else PrintRows(WithDivider(PadAll(rows, n), n))
  }

  function ParseTable(text: string): seq<seq<string>> {
    var lines := Split(text, '\n');
    seq(|lines| - 1, i requires 0 <= i < |lines| - 1 => ParseRow(lines[i]))
  }

  predicate NoNewline(s: string) { '\n' !in s }

  lemma {:induction false} JoinNoNewline(cells: seq<string>)
    requires forall c <- cells :: NoNewline(c)
    ensures NoNewline(Join(cells, " | "))
  {
    if |cells| > 1 {
      JoinNoNewline(cells[1..]);
      assert cells[0] in cells;
    } else if |cells| == 1 {
      assert cells[0] in cells;
    }
  }

  lemma {:induction false} SplitLast(text: string, line: string)
    requires Split(text, '\n')[|Split(text, '\n')| - 1] == "" && NoNewline(line)
    ensures Split(text + line + "\n", '\n') == Split(text, '\n')[..|Split(text, '\n')| - 1] + [line, ""]
  {
    if text == "" {
      assert text + line + "\n" == line + "\n" + "";
      SplitCons(line, '\n', "");
    } else {
      var s := text + line + "\n";
      assert s[1..] == text[1..] + line + "\n";
      var a, b := Split(text[1..], '\n'), Split(s[1..], '\n');
      assert Split(text, '\n') == if text[0] == '\n' then [""] + a else [[text[0]] + a[0]] + a[1..];
      assert Split(s, '\n') == if s[0] == '\n' then [""] + b else [[s[0]] + b[0]] + b[1..];
      hide Split, NoNewline;
      SplitLast(text[1..], line);
    }
  }

  lemma {:induction false} SplitPrintedRows(rows: seq<seq<string>>)
    requires forall row <- rows :: NoNewline(PrintRow(row))
    ensures var lines := Split(PrintRows(rows), '\n');
      |lines| == |rows| + 1 && lines[|rows|] == "" && forall i :: 0 <= i < |rows| ==> lines[i] == PrintRow(rows[i])
  {
    if rows != [] {
      var init := rows[..|rows| - 1];
      SplitPrintedRows(init);
      hide PrintRow, Split;
      SplitLast(PrintRows(init), PrintRow(rows[|rows| - 1]));
    }
  }

  /** The meanings of the cells of a matrix of rendered cells, and their printed forms. */
  function TextMatrix(raw: seq<seq<string>>): seq<seq<string>> {
    seq(|raw|, i requires 0 <= i < |raw| => seq(|raw[i]|, j requires 0 <= j < |raw[i]| => CellText(raw[i][j])))
  }

  function CleanMatrix(raw: seq<seq<string>>): seq<seq<string>> {
    seq(|raw|, i requires 0 <= i < |raw| => seq(|raw[i]|, j requires 0 <= j < |raw[i]| => CleanCell(raw[i][j])))
  }

  lemma {:induction false} TrimIsPart(s: string)
    ensures forall c <- Trim(s) :: c in s
  {
    var t := TrimStart(s);
    assert t == s[|s| - |t|..];
    assert forall c <- t :: c in s;
  }

  lemma CleanCellOneLine(raw: string)
    ensures NoNewline(CleanCell(raw))
  {
    TrimIsPart(NewlinesToSpaces(Escape(raw)));
  }

  /** A row that can be read back: its cells are escaped texts, all on one line. */
  lemma PrintedRowOneLine(cells: seq<string>)
    requires forall c <- cells :: NoNewline(c)
    ensures NoNewline(PrintRow(cells))
  {
    JoinNoNewline(cells);
  }

  lemma {:induction false} ParsePrintedRows(texts: seq<seq<string>>)
    requires forall row <- texts :: row != [] && forall t <- row :: NoNewline(Escape(t))
    ensures ParseTable(PrintRows(seq(|texts|, i requires 0 <= i < |texts| => EscapeAll(texts[i])))) == texts
  {
    var rows := seq(|texts|, i requires 0 <= i < |texts| => EscapeAll(texts[i]));
    forall row | row in rows ensures NoNewline(PrintRow(row)) {
      var i :| 0 <= i < |rows| && rows[i] == row;
      assert texts[i] in texts;
      PrintedRowOneLine(row);
    }
    SplitPrintedRows(rows);
    hide Split, PrintRows, Escape, NoNewline;
    forall i | 0 <= i < |texts| ensures ParseRow(PrintRow(rows[i])) == texts[i] {
      assert texts[i] in texts;
      ParsePrintedRow(texts[i]);
    }
    hide ParseRow, PrintRow;
  }

  lemma {:induction false} CleanMaxCols(raw: seq<seq<string>>)
    ensures MaxCols(CleanMatrix(raw)) == MaxCols(TextMatrix(raw)) == MaxCols(raw)
  {
    if raw != [] {
      var init := raw[..|raw| - 1];
      CleanMaxCols(init);
      assert CleanMatrix(raw)[..|raw| - 1] == CleanMatrix(init);
      assert TextMatrix(raw)[..|raw| - 1] == TextMatrix(init);
    }
  }

  lemma EscapedPadding(raw: seq<string>, clean: seq<string>, texts: seq<string>, n: nat)
    requires |clean| == |texts| && forall j :: 0 <= j < |texts| ==> clean[j] == Escape(texts[j])
    ensures PadTo(clean, n) == EscapeAll(PadTo(texts, n))
  {
  }

  /** A row of dividers reads as itself. */
  lemma EscapedDividers(n: nat)
    ensures Dividers(n) == EscapeAll(Dividers(n))
  {
    assert Escape("---") == "---";
  }

  /**
   Reading a printed table, line by line and pipe by pipe, gives back the meaning of every cell: the header,
   one row of `MaxCols` dividers, and the data rows, all padded to `MaxCols`.
   */
  lemma TableRoundTrip(raw: seq<seq<string>>)
    requires raw != [] && MaxCols(raw) > 0
    ensures ParseTable(PrintTable(CleanMatrix(raw))) == WithDivider(PadAll(TextMatrix(raw), MaxCols(raw)), MaxCols(raw))
  {
    var n := MaxCols(raw);
    var rows, texts := WithDivider(PadAll(CleanMatrix(raw), n), n), WithDivider(PadAll(TextMatrix(raw), n), n);
    CleanMaxCols(raw);
    forall i | 0 <= i < |texts| ensures rows[i] == EscapeAll(texts[i]) {
      MatrixRow(raw, n, i);
    }
    assert rows == seq(|texts|, i requires 0 <= i < |texts| => EscapeAll(texts[i]));
    forall row | row in texts ensures row != [] && forall t <- row :: NoNewline(Escape(t)) {
      var i :| 0 <= i < |texts| && texts[i] == row;
      MatrixRowOneLine(raw, n, i);
    }
    hide PrintRows, ParseTable, Escape, NoNewline, EscapeAll;
    ParsePrintedRows(texts);
  }

  /** Where each printed row comes from: the divider row is the second. */
  lemma PrintedRowSource(m: seq<seq<string>>, n: nat, i: nat)
    requires m != [] && i <= |m|
    ensures |WithDivider(PadAll(m, n), n)| == |m| + 1
    ensures WithDivider(PadAll(m, n), n)[i] == if i == 1 then Dividers(n) else PadTo(m[if i == 0 then 0 else i - 1], n)
  {
    hide PadTo, Dividers;
  }

  lemma MatrixRow(raw: seq<seq<string>>, n: nat, i: nat)
    requires raw != [] && i <= |raw|
    ensures WithDivider(PadAll(CleanMatrix(raw), n), n)[i] == EscapeAll(WithDivider(PadAll(TextMatrix(raw), n), n)[i])
  {
    PrintedRowSource(CleanMatrix(raw), n, i);
    PrintedRowSource(TextMatrix(raw), n, i);
    EscapedDividers(n);
    hide Escape, CleanCell, CellText, EscapeAll, PadTo, PadAll, WithDivider, Dividers;
    if i != 1 {
      var k := if i == 0 then 0 else i - 1;
      CleanRowMeaning(raw, k);
      hide CleanMatrix, TextMatrix;
      EscapedPadding(raw[k], CleanMatrix(raw)[k], TextMatrix(raw)[k], n);
    }
  }

  lemma CleanRowMeaning(raw: seq<seq<string>>, k: nat)
    requires k < |raw|
    ensures |CleanMatrix(raw)| == |TextMatrix(raw)| == |raw|
    ensures |CleanMatrix(raw)[k]| == |TextMatrix(raw)[k]| == |raw[k]|
    ensures forall j :: 0 <= j < |raw[k]| ==> CleanMatrix(raw)[k][j] == Escape(TextMatrix(raw)[k][j])
  {
    forall j | 0 <= j < |raw[k]| ensures CleanMatrix(raw)[k][j] == Escape(TextMatrix(raw)[k][j]) {
      CleanCellMeaning(raw[k][j]);
      hide Escape, CleanCell, CellText;
    }
  }

  ghost predicate OneLineTexts(texts: seq<string>) { forall t <- texts :: NoNewline(Escape(t)) }

  lemma TextRowOneLine(raw: seq<seq<string>>, k: nat)
    requires k < |raw|
    ensures OneLineTexts(TextMatrix(raw)[k])
  {
    forall t | t in TextMatrix(raw)[k] ensures NoNewline(Escape(t)) {
      var j :| 0 <= j < |raw[k]| && t == CellText(raw[k][j]);
      CleanCellMeaning(raw[k][j]);
      CleanCellOneLine(raw[k][j]);
      hide Escape, CleanCell, CellText;
    }
  }

  lemma PaddedOneLine(texts: seq<string>, n: nat)
    requires OneLineTexts(texts) && n > 0
    ensures PadTo(texts, n) != [] && OneLineTexts(PadTo(texts, n))
  {
    assert Escape("") == "";
    hide Escape, NoNewline;
    assert NoNewline("") by { NothingHasNoNewline(); }
  }

  lemma NothingHasNoNewline()
    ensures NoNewline("") && NoNewline("---")
  {
  }

  lemma MatrixRowOneLine(raw: seq<seq<string>>, n: nat, i: nat)
    requires raw != [] && i <= |raw| && n > 0
    ensures var row := WithDivider(PadAll(TextMatrix(raw), n), n)[i];
      row != [] && OneLineTexts(row)
  {
    PrintedRowSource(TextMatrix(raw), n, i);
    hide WithDivider, PadAll, PadTo;
    if i == 1 {
      assert Escape("---") == "---";
      NothingHasNoNewline();
      hide Escape, NoNewline;
    } else {
      var k := if i == 0 then 0 else i - 1;
      hide OneLineTexts, CellText;
      TextRowOneLine(raw, k);
      PaddedOneLine(TextMatrix(raw)[k], n);
    }
  }
}
