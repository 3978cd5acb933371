/** The quote-aware CSV tokeniser shared, in two variants, by convert_pets.js and
    backend/src/convert/convert_pets.js, as a reference function over the unread suffix of
    the text, together with a CSV writer that it reads back exactly.

    Both variants keep the same state (quote mode, the cell being read, the row being built
    and the rows emitted so far) and treat quotes, commas and line breaks alike. They differ in
    two places, captured by a `Dialect`: whether a line that is a single empty cell is
    emitted, and whether the pending row is emitted when the text ends. */
module CsvScan {

  datatype Dialect = Dialect(skipBlankLines: bool, flushPendingRow: bool)

  /** convert_pets.js at the repository root. */
  const ROOT: Dialect := Dialect(true, true)
  /** backend/src/convert/convert_pets.js. */
  const BACKEND: Dialect := Dialect(false, false)

  type Row = seq<string>

  predicate IsBreak(c: char) {
    c == '\r' || c == '\n'
  }

  /** Whether a finished line (never empty: it holds at least the cell that ended it) is
      emitted: `row.length > 1 || row[0] !== ''` in the root variant, always in the backend. */
  predicate KeepsLine(d: Dialect, r: Row)
    requires |r| >= 1
  {
    !d.skipBlankLines || |r| > 1 || r[0] != ""
  }

  /** The rows the tokeniser emits from `s` on, in state (inQuote, cell, row, acc). */
  function Scan(d: Dialect, s: string, inQuote: bool, cell: string, row: Row, acc: seq<Row>): seq<Row>
    decreases |s|
  {
    if s == [] then
      if d.flushPendingRow && |row| > 0 then acc + [row] else acc
    else if s[0] == '"' then
      if inQuote && |s| > 1 && s[1] == '"' then Scan(d, s[2..], inQuote, cell + ['"'], row, acc)
      else Scan(d, s[1..], !inQuote, cell, row, acc)
    else if s[0] == ',' && !inQuote then
      Scan(d, s[1..], inQuote, "", row + [cell], acc)
    else if IsBreak(s[0]) && !inQuote then
      var rest := if s[0] == '\r' && |s| > 1 && s[1] == '\n' then s[2..] else s[1..];
      var line := row + [cell];
      Scan(d, rest, inQuote, "", [], if KeepsLine(d, line) then acc + [line] else acc)
    else
      Scan(d, s[1..], inQuote, cell + [s[0]], row, acc)
  }

  /** parseCSV(text) */
  function Parse(d: Dialect, text: string): (r: seq<Row>)
    ensures forall i :: 0 <= i < |r| ==> r[i] != []
  {
    ScanKeepsEmitted(d, text, false, "", [], []);
    Scan(d, text, false, "", [], [])
  }

  /** Rows once emitted stay emitted, and every row emitted holds at least one cell. */
  lemma {:induction false} ScanKeepsEmitted(d: Dialect, s: string, inQuote: bool, cell: string, row: Row, acc: seq<Row>)
    ensures var r := Scan(d, s, inQuote, cell, row, acc);
      acc <= r && forall i :: |acc| <= i < |r| ==> r[i] != []
    decreases |s|
  {
    if s == [] {
    } else if s[0] == '"' {
      if inQuote && |s| > 1 && s[1] == '"' {
        ScanKeepsEmitted(d, s[2..], inQuote, cell + ['"'], row, acc);
      } else {
        ScanKeepsEmitted(d, s[1..], !inQuote, cell, row, acc);
      }
    } else if s[0] == ',' && !inQuote {
      ScanKeepsEmitted(d, s[1..], inQuote, "", row + [cell], acc);
    } else if IsBreak(s[0]) && !inQuote {
      var rest := if s[0] == '\r' && |s| > 1 && s[1] == '\n' then s[2..] else s[1..];
      var line := row + [cell];
      var acc' := if KeepsLine(d, line) then acc + [line] else acc;
      ScanKeepsEmitted(d, rest, inQuote, "", [], acc');
    } else {
      ScanKeepsEmitted(d, s[1..], inQuote, cell + [s[0]], row, acc);
    }
  }

  // ---------------------------------------------------------------------------
  // A CSV writer for the tokeniser to read back

  /** Each quote doubled. */
  function Escape(c: string): string
    decreases |c|
  {
    if c == [] then [] else (if c[0] == '"' then "\"\"" else [c[0]]) + Escape(c[1..])
  }

  function QuoteCell(c: string): string {
    "\"" + Escape(c) + "\""
  }

  /** The cells quoted and separated by commas. */
  function JoinCells(cells: Row): string
    requires |cells| >= 1
    decreases |cells|
  {
    if |cells| == 1 then QuoteCell(cells[0]) else QuoteCell(cells[0]) + "," + JoinCells(cells[1..])
  }

  function Eol(crlf: bool): string {
    if crlf then "\r\n" else "\n"
  }

  predicate AllNonEmpty(rows: seq<Row>) {
    forall k :: 0 <= k < |rows| ==> |rows[k]| >= 1
  }

  /** Every row written as one line, each line ended by LF or by CR LF. */
  function EncodeRows(rows: seq<Row>, crlf: bool): string
    requires AllNonEmpty(rows)
    decreases |rows|
  {
    if rows == [] then "" else JoinCells(rows[0]) + Eol(crlf) + EncodeRows(rows[1..], crlf)
  }

  /** The rows a dialect emits: all of them, or all but the single-empty-cell lines. */
  function Emitted(d: Dialect, rows: seq<Row>): seq<Row>
    requires AllNonEmpty(rows)
    decreases |rows|
  {
    if rows == [] then []
    else (if KeepsLine(d, rows[0]) then [rows[0]] else []) + Emitted(d, rows[1..])
  }

  // ---------------------------------------------------------------------------
  // Reading the writer's output back

  /** Inside quotes, a doubled quote yields one literal quote and every other character,
      commas and line breaks included, goes into the cell; the closing quote ends quote
      mode. */
  lemma {:induction false} EscapedBody(d: Dialect, c: string, rest: string, cell: string, row: Row, acc: seq<Row>)
    requires rest == [] || rest[0] != '"'
    ensures Scan(d, Escape(c) + "\"" + rest, true, cell, row, acc) == Scan(d, rest, false, cell + c, row, acc)
    decreases |c|
  {
    var s := Escape(c) + "\"" + rest;
    if c == [] {
      assert Escape(c) == [];
      assert s == "\"" + rest;
      assert s[0] == '"' && s[1..] == rest;
      assert !(|s| > 1 && s[1] == '"');
      assert cell + c == cell;
    } else if c[0] == '"' {
      var t := Escape(c[1..]) + "\"" + rest;
      assert s == "\"\"" + t;
      assert s[0] == '"' && s[1] == '"' && s[2..] == t;
      EscapedBody(d, c[1..], rest, cell + ['"'], row, acc);
      assert cell + ['"'] + c[1..] == cell + c;
    } else {
      var t := Escape(c[1..]) + "\"" + rest;
      assert s == [c[0]] + t;
      assert s[0] == c[0] && s[1..] == t;
      EscapedBody(d, c[1..], rest, cell + [c[0]], row, acc);
      assert cell + [c[0]] + c[1..] == cell + c;
    }
  }

  /** A quoted cell reads back as exactly its text. */
  lemma {:induction false} QuotedCell(d: Dialect, c: string, rest: string, row: Row, acc: seq<Row>)
    requires rest == [] || rest[0] != '"'
    ensures Scan(d, QuoteCell(c) + rest, false, "", row, acc) == Scan(d, rest, false, c, row, acc)
  {
    var s := QuoteCell(c) + rest;
    var t := Escape(c) + "\"" + rest;
    assert s == "\"" + t;
    assert s[0] == '"' && s[1..] == t;
    assert Scan(d, s, false, "", row, acc) == Scan(d, t, true, "", row, acc);
    EscapedBody(d, c, rest, "", row, acc);
    assert "" + c == c;
  }

  /** An unquoted comma ends the cell. */
  lemma {:induction false} CommaStep(d: Dialect, s: string, cell: string, row: Row, acc: seq<Row>)
    requires s != [] && s[0] == ','
    ensures Scan(d, s, false, cell, row, acc) == Scan(d, s[1..], false, "", row + [cell], acc)
  {
  }

  /** An unquoted line break (CR LF counting as one) ends the line. */
  lemma {:induction false} BreakStep(d: Dialect, s: string, cell: string, row: Row, acc: seq<Row>)
    requires s != [] && IsBreak(s[0])
    ensures var rest := if s[0] == '\r' && |s| > 1 && s[1] == '\n' then s[2..] else s[1..];
      var line := row + [cell];
      Scan(d, s, false, cell, row, acc) == Scan(d, rest, false, "", [], if KeepsLine(d, line) then acc + [line] else acc)
  {
  }

  /** A joined row reads back as its cells: all but the last pushed onto the row, the last
      one pending. */
  lemma {:induction false} JoinedCells(d: Dialect, cells: Row, rest: string, row: Row, acc: seq<Row>)
    requires |cells| >= 1 && (rest == [] || rest[0] != '"')
    ensures Scan(d, JoinCells(cells) + rest, false, "", row, acc)
         == Scan(d, rest, false, cells[|cells| - 1], row + cells[..|cells| - 1], acc)
    decreases |cells|
  {
    if |cells| == 1 {
      QuotedCell(d, cells[0], rest, row, acc);
      assert row + cells[..0] == row;
    } else {
      var tail := cells[1..];
      var next := JoinCells(tail) + rest;
      var row' := row + [cells[0]];
      JoinSplit(cells, rest);
      FirstCell(d, cells[0], next, row, acc);
      assert Scan(d, JoinCells(cells) + rest, false, "", row, acc) == Scan(d, next, false, "", row', acc);
      JoinedCells(d, tail, rest, row', acc);
      PushFirst(row, cells);
      assert tail[|tail| - 1] == cells[|cells| - 1];
      assert row' + tail[..|tail| - 1] == row + cells[..|cells| - 1];
    }
  }

  lemma {:induction false} JoinSplit(cells: Row, rest: string)
    requires |cells| > 1
    ensures JoinCells(cells) + rest == QuoteCell(cells[0]) + ("," + (JoinCells(cells[1..]) + rest))
  {
    Regroup(QuoteCell(cells[0]), ",", JoinCells(cells[1..]), rest);
  }

  lemma {:induction false} Regroup(a: string, b: string, c: string, e: string)
    ensures a + b + c + e == a + (b + (c + e))
  {
  }

  /** A quoted cell and the comma after it: the cell is pushed onto the row. */
  lemma {:induction false} FirstCell(d: Dialect, c: string, next: string, row: Row, acc: seq<Row>)
    ensures Scan(d, QuoteCell(c) + ("," + next), false, "", row, acc) == Scan(d, next, false, "", row + [c], acc)
  {
    var tail := "," + next;
    QuotedCell(d, c, tail, row, acc);
    CommaStep(d, tail, c, row, acc);
    assert tail[1..] == next;
  }

  lemma {:induction false} PushFirst(row: Row, cells: Row)
    requires |cells| > 1
    ensures cells[1..][|cells| - 2] == cells[|cells| - 1]
    ensures row + [cells[0]] + cells[1..][..|cells| - 2] == row + cells[..|cells| - 1]
  {
  }

  /** The writer's lines read back as the rows the dialect emits. */
  lemma {:induction false} EncodedRows(d: Dialect, rows: seq<Row>, crlf: bool, tail: string, acc: seq<Row>)
    requires AllNonEmpty(rows)
    ensures Scan(d, EncodeRows(rows, crlf) + tail, false, "", [], acc)
         == Scan(d, tail, false, "", [], acc + Emitted(d, rows))
    decreases |rows|
  {
    if rows == [] {
      assert EncodeRows(rows, crlf) + tail == tail;
      assert acc + Emitted(d, rows) == acc;
    } else {
      var r := rows[0];
      var next := EncodeRows(rows[1..], crlf) + tail;
      var acc' := if KeepsLine(d, r) then acc + [r] else acc;
      EncodeSplit(rows, crlf, tail);
      EncodedLine(d, r, crlf, next, acc);
      EncodedRows(d, rows[1..], crlf, tail, acc');
      EmittedSplit(d, rows, acc);
    }
  }

  lemma {:induction false} EncodeSplit(rows: seq<Row>, crlf: bool, tail: string)
    requires AllNonEmpty(rows) && rows != []
    ensures EncodeRows(rows, crlf) + tail == JoinCells(rows[0]) + (Eol(crlf) + (EncodeRows(rows[1..], crlf) + tail))
  {
    Regroup(JoinCells(rows[0]), Eol(crlf), EncodeRows(rows[1..], crlf), tail);
  }

  lemma {:induction false} EmittedSplit(d: Dialect, rows: seq<Row>, acc: seq<Row>)
    requires AllNonEmpty(rows) && rows != []
    ensures (if KeepsLine(d, rows[0]) then acc + [rows[0]] else acc) + Emitted(d, rows[1..]) == acc + Emitted(d, rows)
  {
  }

  /** One written line reads back as its row, emitted when the dialect keeps it. */
  lemma {:induction false} EncodedLine(d: Dialect, r: Row, crlf: bool, next: string, acc: seq<Row>)
    requires |r| >= 1
    ensures Scan(d, JoinCells(r) + (Eol(crlf) + next), false, "", [], acc)
         == Scan(d, next, false, "", [], if KeepsLine(d, r) then acc + [r] else acc)
  {
    JoinedCells(d, r, Eol(crlf) + next, [], acc);
    EolStep(d, crlf, next, r[|r| - 1], [] + r[..|r| - 1], acc);
    LastSplit(r);
  }

  lemma {:induction false} LastSplit(r: Row)
    requires |r| >= 1
    ensures [] + r[..|r| - 1] + [r[|r| - 1]] == r
  {
  }

  /** The line ending the writer puts after a row ends the line. */
  lemma {:induction false} EolStep(d: Dialect, crlf: bool, next: string, cell: string, row: Row, acc: seq<Row>)
    ensures var line := row + [cell];
      Scan(d, Eol(crlf) + next, false, cell, row, acc)
      == Scan(d, next, false, "", [], if KeepsLine(d, line) then acc + [line] else acc)
  {
    var s := Eol(crlf) + next;
    if crlf {
      assert s[0] == '\r' && s[1] == '\n' && s[2..] == next;
    } else {
      assert s[0] == '\n' && s[1..] == next;
    }
  }

  /** Round trip: tokenising what the writer wrote gives back the rows the dialect keeps. */
  lemma {:induction false} RoundTrip(d: Dialect, rows: seq<Row>, crlf: bool)
    requires AllNonEmpty(rows)
    ensures Parse(d, EncodeRows(rows, crlf)) == Emitted(d, rows)
  {
    EncodedRows(d, rows, crlf, "", []);
    assert EncodeRows(rows, crlf) + "" == EncodeRows(rows, crlf);
  }

  /** The backend variant emits every line, so it reads back every row. */
  lemma {:induction false} BackendEmitsAll(rows: seq<Row>)
    requires AllNonEmpty(rows)
    ensures Emitted(BACKEND, rows) == rows
    decreases |rows|
  {
    if rows != [] {
      BackendEmitsAll(rows[1..]);
    }
  }

  /** The root variant drops exactly the lines that are one empty cell. */
  lemma {:induction false} RootEmitted(rows: seq<Row>)
    requires AllNonEmpty(rows)
    ensures forall r :: r in Emitted(ROOT, rows) <==> r in rows && r != [""]
    ensures |Emitted(ROOT, rows)| <= |rows|
    decreases |rows|
  {
    if rows != [] {
      RootEmitted(rows[1..]);
      assert forall r :: r in rows <==> r == rows[0] || r in rows[1..];
    }
  }

  // ---------------------------------------------------------------------------
  // The end of the text

  /** Backend: without a line break, nothing more is emitted, whatever the state. */
  lemma {:induction false} BackendTailDiscarded(s: string, inQuote: bool, cell: string, row: Row, acc: seq<Row>)
    requires forall k :: 0 <= k < |s| ==> !IsBreak(s[k])
    ensures Scan(BACKEND, s, inQuote, cell, row, acc) == acc
    decreases |s|
  {
    if s != [] {
      if s[0] == '"' && inQuote && |s| > 1 && s[1] == '"' {
        BackendTailDiscarded(s[2..], inQuote, cell + ['"'], row, acc);
      } else if s[0] == '"' {
        BackendTailDiscarded(s[1..], !inQuote, cell, row, acc);
      } else if s[0] == ',' && !inQuote {
        BackendTailDiscarded(s[1..], inQuote, "", row + [cell], acc);
      } else {
        BackendTailDiscarded(s[1..], inQuote, cell + [s[0]], row, acc);
      }
    }
  }

  /** Backend: characters after the last line break are lost. */
  lemma {:induction false} BackendDropsLastLine(rows: seq<Row>, crlf: bool, tail: string)
    requires AllNonEmpty(rows) && forall k :: 0 <= k < |tail| ==> !IsBreak(tail[k])
    ensures Parse(BACKEND, EncodeRows(rows, crlf) + tail) == rows
  {
    EncodedRows(BACKEND, rows, crlf, tail, []);
    assert [] + Emitted(BACKEND, rows) == Emitted(BACKEND, rows);
    BackendTailDiscarded(tail, false, "", [], Emitted(BACKEND, rows));
    BackendEmitsAll(rows);
  }

  /** The line breaks outside quotes from `s` on, a CR LF pair counting once; quote mode
      follows the same quote rule as the tokeniser. */
  function UnquotedBreaks(s: string, inQuote: bool): nat
    decreases |s|
  {
    if s == [] then 0
    else if s[0] == '"' then
      if inQuote && |s| > 1 && s[1] == '"' then UnquotedBreaks(s[2..], inQuote)
      else UnquotedBreaks(s[1..], !inQuote)
    else if IsBreak(s[0]) && !inQuote then
      1 + UnquotedBreaks(if s[0] == '\r' && |s| > 1 && s[1] == '\n' then s[2..] else s[1..], inQuote)
    else UnquotedBreaks(s[1..], inQuote)
  }

  /** Backend: one row per line break outside quotes, whatever the state. */
  lemma {:induction false} BackendRowCount(s: string, inQuote: bool, cell: string, row: Row, acc: seq<Row>)
    ensures |Scan(BACKEND, s, inQuote, cell, row, acc)| == |acc| + UnquotedBreaks(s, inQuote)
    decreases |s|
  {
    if s == [] {
    } else if s[0] == '"' {
      if inQuote && |s| > 1 && s[1] == '"' {
        BackendRowCount(s[2..], inQuote, cell + ['"'], row, acc);
      } else {
        BackendRowCount(s[1..], !inQuote, cell, row, acc);
      }
    } else if s[0] == ',' && !inQuote {
      BackendRowCount(s[1..], inQuote, "", row + [cell], acc);
    } else if IsBreak(s[0]) && !inQuote {
      var rest := if s[0] == '\r' && |s| > 1 && s[1] == '\n' then s[2..] else s[1..];
      BackendRowCount(rest, inQuote, "", [], acc + [row + [cell]]);
    } else {
      BackendRowCount(s[1..], inQuote, cell + [s[0]], row, acc);
    }
  }

  /** Backend: parseCSV returns exactly as many rows as the text has line breaks outside
      quotes, empty lines included. */
  lemma {:induction false} BackendRows(text: string)
    ensures |Parse(BACKEND, text)| == UnquotedBreaks(text, false)
  {
    BackendRowCount(text, false, "", [], []);
  }

  /** Root: a last line without a line break contributes its row without its last cell, or
      nothing when it has a single cell. */
  lemma {:induction false} RootDropsPendingCell(rows: seq<Row>, crlf: bool, cells: Row)
    requires AllNonEmpty(rows) && |cells| >= 1
    ensures Parse(ROOT, EncodeRows(rows, crlf) + JoinCells(cells))
         == Emitted(ROOT, rows) + (if |cells| > 1 then [cells[..|cells| - 1]] else [])
  {
    var e := Emitted(ROOT, rows);
    EncodedRows(ROOT, rows, crlf, JoinCells(cells), []);
    assert [] + e == e;
    JoinedCells(ROOT, cells, "", [], e);
    assert JoinCells(cells) + "" == JoinCells(cells);
    var init := [] + cells[..|cells| - 1];
    assert init == cells[..|cells| - 1];
    calc {
      Parse(ROOT, EncodeRows(rows, crlf) + JoinCells(cells));
      Scan(ROOT, JoinCells(cells), false, "", [], e);
      Scan(ROOT, "", false, cells[|cells| - 1], init, e);
      if |init| > 0 then e + [init] else e;
    }
  }

  // ---------------------------------------------------------------------------
  // Blank lines

  /** The emitted rows are the accumulator followed by what the rest emits on its own. */
  lemma {:induction false} ScanAppends(d: Dialect, s: string, inQuote: bool, cell: string, row: Row, acc: seq<Row>)
    ensures Scan(d, s, inQuote, cell, row, acc) == acc + Scan(d, s, inQuote, cell, row, [])
    decreases |s|
  {
    if s == [] {
    } else if s[0] == '"' {
      if inQuote && |s| > 1 && s[1] == '"' {
        ScanAppends(d, s[2..], inQuote, cell + ['"'], row, acc);
      } else {
        ScanAppends(d, s[1..], !inQuote, cell, row, acc);
      }
    } else if s[0] == ',' && !inQuote {
      ScanAppends(d, s[1..], inQuote, "", row + [cell], acc);
    } else if IsBreak(s[0]) && !inQuote {
      var rest := if s[0] == '\r' && |s| > 1 && s[1] == '\n' then s[2..] else s[1..];
      var line := row + [cell];
      BreakStep(d, s, cell, row, acc);
      BreakStep(d, s, cell, row, []);
      var after := Scan(d, rest, false, "", [], []);
      if KeepsLine(d, line) {
        ScanAppends(d, rest, false, "", [], acc + [line]);
        ScanAppends(d, rest, false, "", [], [line]);
        assert [] + [line] == [line];
        assert (acc + [line]) + after == acc + ([line] + after);
      } else {
        ScanAppends(d, rest, false, "", [], acc);
      }
    } else {
      ScanAppends(d, s[1..], inQuote, cell + [s[0]], row, acc);
    }
  }

  /** A blank line: skipped by the root variant, a row of one empty cell in the backend. */
  lemma {:induction false} BlankLine(s: string)
    ensures Parse(ROOT, "\n" + s) == Parse(ROOT, s)
    ensures Parse(BACKEND, "\n" + s) == [[""]] + Parse(BACKEND, s)
  {
    var t := "\n" + s;
    assert t[0] == '\n' && t[1..] == s;
    var line: Row := [] + [""];
    assert line == [""];
    assert !KeepsLine(ROOT, line) && KeepsLine(BACKEND, line);
    BreakStep(ROOT, t, "", [], []);
    BreakStep(BACKEND, t, "", [], []);
    assert [] + [line] == [[""]];
    ScanAppends(BACKEND, s, false, "", [], [[""]]);
    calc {
      Parse(BACKEND, t);
      Scan(BACKEND, s, false, "", [], [] + [line]);
      Scan(BACKEND, s, false, "", [], [[""]]);
      [[""]] + Parse(BACKEND, s);
    }
  }

  // ---------------------------------------------------------------------------
  // Where quotes can end up

  predicate QuoteFree(c: string) {
    forall k :: 0 <= k < |c| ==> c[k] != '"'
  }

  predicate RowQuoteFree(r: Row) {
    forall m :: 0 <= m < |r| ==> QuoteFree(r[m])
  }

  predicate RowsQuoteFree(rows: seq<Row>) {
    forall k :: 0 <= k < |rows| ==> RowQuoteFree(rows[k])
  }

  /** No two quotes stand next to each other. */
  predicate NoDoubledQuote(s: string) {
    forall k :: 0 <= k < |s| - 1 ==> !(s[k] == '"' && s[k + 1] == '"')
  }

  /** A quote that is not doubled only switches quote mode: text without a doubled quote
      yields cells without quotes. */
  lemma {:induction false} LoneQuotesVanish(d: Dialect, s: string, inQuote: bool, cell: string, row: Row, acc: seq<Row>)
    requires NoDoubledQuote(s) && QuoteFree(cell) && RowQuoteFree(row) && RowsQuoteFree(acc)
    ensures RowsQuoteFree(Scan(d, s, inQuote, cell, row, acc))
    decreases |s|
  {
    if s == [] {
      assert RowsQuoteFree(acc + [row]);
    } else if s[0] == '"' {
      assert !(|s| > 1 && s[1] == '"');
      assert NoDoubledQuote(s[1..]);
      LoneQuotesVanish(d, s[1..], !inQuote, cell, row, acc);
    } else if s[0] == ',' && !inQuote {
      assert RowQuoteFree(row + [cell]);
      LoneQuotesVanish(d, s[1..], inQuote, "", row + [cell], acc);
    } else if IsBreak(s[0]) && !inQuote {
      var rest := if s[0] == '\r' && |s| > 1 && s[1] == '\n' then s[2..] else s[1..];
      var line := row + [cell];
      assert RowQuoteFree(line);
      assert RowsQuoteFree(acc + [line]);
      assert NoDoubledQuote(rest);
      LoneQuotesVanish(d, rest, inQuote, "", [], if KeepsLine(d, line) then acc + [line] else acc);
    } else {
      assert QuoteFree(cell + [s[0]]);
      LoneQuotesVanish(d, s[1..], inQuote, cell + [s[0]], row, acc);
    }
  }

  lemma {:induction false} ParseLoneQuotes(d: Dialect, text: string)
    requires NoDoubledQuote(text)
    ensures RowsQuoteFree(Parse(d, text))
  {
    LoneQuotesVanish(d, text, false, "", [], []);
  }
}
