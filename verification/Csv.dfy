/**
 The statement CSV lexer: its loop, the grammar it accepts (section 2 of RFC 4180, with LF and CR as
 further line breaks), and the proof that the two define the same language with one parse per text.
 */
module Csv {
  import opened Tables

  const QUOTE := '\"'
  const COMMA := ','
  const LF := '\n'
  const CR := '\r'
  const BOM := '\U{FEFF}'

  /** The characters String.prototype.trim removes. */
  predicate IsSpace(c: char) {
    || '\t' <= c <= '\r' || c == ' ' || c == '\U{00A0}' || c == '\U{1680}' || '\U{2000}' <= c <= '\U{200A}'
    || c == '\U{2028}' || c == '\U{2029}' || c == '\U{202F}' || c == '\U{205F}' || c == '\U{3000}' || c == BOM
  }

  /** No field of the row has anything left after trimming. */
  predicate Blank(row: seq<string>) {
    forall i: nat, j: nat :: i < |row| && j < |row[i]| ==> IsSpace(row[i][j])
  }

  function NonBlank(rows: seq<seq<string>>): seq<seq<string>> {
    if rows == [] then []
    else NonBlank(rows[..|rows| - 1]) + if Blank(rows[|rows| - 1]) then [] else [rows[|rows| - 1]]
  }

  // ----- the lexer

  datatype Lexer = Lexer(rows: seq<seq<string>>, row: seq<string>, field: string, quoted: bool, closed: bool)

  const START := Lexer([], [], "", false, false)

  function EndRow(s: Lexer): Lexer {
    Lexer(if Blank(s.row + [s.field]) then s.rows else s.rows + [s.row + [s.field]], [], "", false, false)
  }

  predicate DoubledQuote(t: string) {
    |t| > 1 && t[0] == QUOTE && t[1] == QUOTE
  }

  predicate CrLf(t: string) {
    |t| > 1 && t[0] == CR && t[1] == LF
  }

  /** One turn of the loop: the next state and how many characters it took; None is a thrown quoting error. */
  function Turn(t: string, s: Lexer): (next: Option<(Lexer, nat)>)
    requires t != ""
    ensures next.Some? ==> 0 < next.value.1 <= |t|
  {
    var c := t[0];
    if s.quoted then
      if DoubledQuote(t) then Some((s.(field := s.field + [QUOTE]), 2))
      else if c == QUOTE then Some((s.(quoted := false, closed := true), 1))
      else Some((s.(field := s.field + [c]), 1))
    else if c == QUOTE && s.field == "" && !s.closed then Some((s.(quoted := true), 1))
    else if c == COMMA then Some((s.(row := s.row + [s.field], field := "", closed := false), 1))
    else if c == LF || c == CR then Some((EndRow(s), if CrLf(t) then 2 else 1))
    else if s.closed || c == QUOTE then None
    else Some((s.(field := s.field + [c]), 1))
  }

  /** The remaining text from a lexer state. */
  function Scan(t: string, s: Lexer): Option<seq<seq<string>>> {
    if t == "" then (if s.quoted then None else Some(EndRow(s).rows))
    else
      match Turn(t, s)
      case None => None
      case Some((next, n)) => Scan(t[n..], next)
  }

  /** The index loop of parseStatementCsv, up to the blank-row filter. */
  method Lex(text: string) returns (result: Option<seq<seq<string>>>)
    ensures result == Scan(text, START)
    ensures forall doc: seq<Line> :: Spells(doc, text) ==> result.Some? && KeepsFilled(Meaning(doc), result.value)
  {
    forall doc: seq<Line> | Spells(doc, text)
      ensures Scan(text, START).Some? && KeepsFilled(Meaning(doc), Scan(text, START).value)
    {
      KeptRows(text, doc);
    }
    var rows: seq<seq<string>>, row: seq<string>, field: string := [], [], "";
    var quoted, closed := false, false;
    var i := 0;
    while i < |text|
      invariant 0 <= i <= |text|
      invariant Scan(text[i..], Lexer(rows, row, field, quoted, closed)) == Scan(text, START)
    {
      ghost var rest := text[i..];
      assert rest[0] == text[i] && rest[1..] == text[i + 1..];
      assert i + 1 < |text| ==> rest[1] == text[i + 1] && rest[2..] == text[i + 2..];
      var c := text[i];
      if quoted {
        if c == QUOTE && i + 1 < |text| && text[i + 1] == QUOTE {
          field := field + [QUOTE];
          i := i + 1;
        } else if c == QUOTE {
          quoted, closed := false, true;
        } else {
          field := field + [c];
        }
      } else if c == QUOTE && field == "" && !closed {
        quoted := true;
      } else if c == COMMA {
        row := row + [field];
        field, closed := "", false;
      } else if c == LF || c == CR {
        if c == CR && i + 1 < |text| && text[i + 1] == LF {
          i := i + 1;
        }
        row := row + [field];
        if !Blank(row) {
          rows := rows + [row];
        }
        row, field, closed := [], "", false;
      } else {
        if closed || c == QUOTE {
          return None;
        }
        field := field + [c];
      }
      i := i + 1;
    }
    if quoted {
      return None;
    }
    row := row + [field];
    if !Blank(row) {
      rows := rows + [row];
    }
    result := Some(rows);
  }

  // ----- the grammar

  datatype Cell = Quoted(text: string) | Bare(text: string)

  datatype Break = CrLfBreak | LfBreak | CrBreak | Eof

  datatype Line = Line(cells: seq<Cell>, end: Break)

  predicate BareChar(c: char) {
    c != QUOTE && c != COMMA && c != LF && c != CR
  }

  predicate CellOk(c: Cell) {
    c.Bare? ==> forall i: nat :: i < |c.text| ==> BareChar(c.text[i])
  }

  predicate LineOk(l: Line) {
    |l.cells| > 0 && forall i: nat :: i < |l.cells| ==> CellOk(l.cells[i])
  }

  predicate IsEmptyLf(l: Line) {
    l == Line([Bare("")], LfBreak)
  }

  /** Lines that may stand before the end: each ends in a break, and a CR is not followed by an LF. */
  ghost predicate LinesOk(lines: seq<Line>) {
    && (forall i: nat :: i < |lines| ==> LineOk(lines[i]) && lines[i].end != Eof)
    && (forall i: nat :: i + 1 < |lines| && lines[i].end == CrBreak ==> !IsEmptyLf(lines[i + 1]))
  }

  /** A whole text: only the last line is closed by the end of the text. */
  ghost predicate DocumentOk(doc: seq<Line>) {
    && |doc| > 0
    && (forall i: nat :: i < |doc| ==> LineOk(doc[i]) && (doc[i].end == Eof <==> i == |doc| - 1))
    && (forall i: nat :: i + 1 < |doc| && doc[i].end == CrBreak ==> !IsEmptyLf(doc[i + 1]))
  }

  function Escaped(s: string): string {
    if s == "" then "" else (if s[0] == QUOTE then [QUOTE, QUOTE] else [s[0]]) + Escaped(s[1..])
  }

  function CellText(c: Cell): string {
    if c.Quoted? then [QUOTE] + Escaped(c.text) + [QUOTE] else c.text
  }

  function BreakText(b: Break): string {
    match b
    case CrLfBreak => [CR, LF]
    case LfBreak => [LF]
    case CrBreak => [CR]
    case Eof => ""
  }

  /** Cells that a comma follows. */
  function CellsText(cells: seq<Cell>): string {
    if cells == [] then "" else CellText(cells[0]) + [COMMA] + CellsText(cells[1..])
  }

  function LineText(l: Line): string {
    if l.cells == [] then BreakText(l.end)
    else CellsText(l.cells[..|l.cells| - 1]) + CellText(l.cells[|l.cells| - 1]) + BreakText(l.end)
  }

  function Render(doc: seq<Line>): string {
    if doc == [] then "" else LineText(doc[0]) + Render(doc[1..])
  }

  function Values(cells: seq<Cell>): (values: seq<string>)
    ensures |values| == |cells| && forall i: nat :: i < |cells| ==> values[i] == cells[i].text
  {
    seq(|cells|, (i: nat) requires i < |cells| => cells[i].text)
  }

  function Meaning(doc: seq<Line>): (rows: seq<seq<string>>)
    ensures |rows| == |doc| && forall i: nat :: i < |doc| ==> rows[i] == Values(doc[i].cells)
  {
    seq(|doc|, (i: nat) requires i < |doc| => Values(doc[i].cells))
  }

  // ----- the parse: the lexer, remembering how each cell and line was written

  datatype Parser = Parser(lines: seq<Line>, cells: seq<Cell>, cell: Cell, inQuote: bool)

  const FRESH := Parser([], [], Bare(""), false)

  function EndLine(p: Parser, end: Break): Parser {
    Parser(p.lines + [Line(p.cells + [p.cell], end)], [], Bare(""), false)
  }

  function Typed(p: Parser, c: char): Parser {
    p.(cell := if p.cell.Quoted? then Quoted(p.cell.text + [c]) else Bare(p.cell.text + [c]))
  }

  function Advance(t: string, p: Parser): (next: Option<(Parser, nat)>)
    requires t != ""
    ensures next.Some? ==> 0 < next.value.1 <= |t|
  {
    var c := t[0];
    if p.inQuote then
      if DoubledQuote(t) then Some((Typed(p, QUOTE), 2))
      else if c == QUOTE then Some((p.(inQuote := false), 1))
      else Some((Typed(p, c), 1))
    else if c == QUOTE && p.cell == Bare("") then Some((p.(cell := Quoted(""), inQuote := true), 1))
    else if c == COMMA then Some((p.(cells := p.cells + [p.cell], cell := Bare("")), 1))
    else if CrLf(t) then Some((EndLine(p, CrLfBreak), 2))
    else if c == LF then Some((EndLine(p, LfBreak), 1))
    else if c == CR then Some((EndLine(p, CrBreak), 1))
    else if p.cell.Quoted? || c == QUOTE then None
    else Some((Typed(p, c), 1))
  }

  function Parse(t: string, p: Parser): Option<seq<Line>> {
    if t == "" then (if p.inQuote then None else Some(EndLine(p, Eof).lines))
    else
      match Advance(t, p)
      case None => None
      case Some((next, n)) => Parse(t[n..], next)
  }

  // ----- the lexer is the parse with the writing forgotten

  function Forget(p: Parser): Lexer {
    Lexer(NonBlank(Meaning(p.lines)), Values(p.cells), p.cell.text, p.inQuote, p.cell.Quoted? && !p.inQuote)
  }

  function Rows(doc: Option<seq<Line>>): Option<seq<seq<string>>> {
    match doc
    case None => None
    case Some(lines) => Some(NonBlank(Meaning(lines)))
  }

  lemma EndLineForgets(p: Parser, end: Break)
    requires !p.inQuote
    ensures Forget(EndLine(p, end)) == EndRow(Forget(p))
  {
    var row := Values(p.cells + [p.cell]);
    assert row == Values(p.cells) + [p.cell.text];
    var rows := Meaning(EndLine(p, end).lines);
    assert rows == Meaning(p.lines) + [row];
    NonBlankSnoc(Meaning(p.lines), row);
  }

  lemma NonBlankSnoc(rows: seq<seq<string>>, row: seq<string>)
    ensures NonBlank(rows + [row]) == NonBlank(rows) + if Blank(row) then [] else [row]
  {
    assert (rows + [row])[..|rows|] == rows;
  }

  /** Each turn of the lexer forgets the corresponding move of the parser. */
  lemma TurnForgets(t: string, p: Parser)
    requires t != "" && (p.inQuote ==> p.cell.Quoted?)
    ensures Turn(t, Forget(p)).Some? <==> Advance(t, p).Some?
    ensures Advance(t, p).Some? ==>
              var (next, n) := Advance(t, p).value;
              Turn(t, Forget(p)) == Some((Forget(next), n)) && (next.inQuote ==> next.cell.Quoted?)
  {
    if !p.inQuote {
      forall end: Break ensures Forget(EndLine(p, end)) == EndRow(Forget(p)) {
        EndLineForgets(p, end);
      }
      assert Values(p.cells + [p.cell]) == Values(p.cells) + [p.cell.text];
    }
  }

  lemma {:induction false} ScanForgets(t: string, p: Parser)
    requires p.inQuote ==> p.cell.Quoted?
    ensures Scan(t, Forget(p)) == Rows(Parse(t, p))
    decreases |t|
  {
    if t == "" {
      if !p.inQuote {
        EndLineForgets(p, Eof);
      }
    } else {
      TurnForgets(t, p);
      if Advance(t, p).Some? {
        var (next, n) := Advance(t, p).value;
        ScanForgets(t[n..], next);
      }
    }
  }

  // ----- every document parses to itself

  predicate EndsCell(t: string) {
    t == "" || t[0] == COMMA || t[0] == LF || t[0] == CR
  }

  lemma {:induction false} ParseQuoted(text: string, rest: string, p: Parser)
    requires p.inQuote && p.cell.Quoted? && EndsCell(rest)
    ensures Parse(Escaped(text) + [QUOTE] + rest, p) ==
            Parse(rest, p.(cell := Quoted(p.cell.text + text), inQuote := false))
  {
    var t := Escaped(text) + [QUOTE] + rest;
    if text == "" {
      assert t[1..] == rest;
      assert p.cell.text + text == p.cell.text;
    } else {
      var tail := Escaped(text[1..]) + [QUOTE] + rest;
      assert p.cell.text + text == (p.cell.text + [text[0]]) + text[1..];
      if text[0] == QUOTE {
        assert t[2..] == tail;
      } else {
        assert t[1..] == tail;
      }
      ParseQuoted(text[1..], rest, Typed(p, text[0]));
    }
  }

  lemma {:induction false} ParseBare(text: string, rest: string, p: Parser)
    requires !p.inQuote && p.cell.Bare? && CellOk(Bare(text)) && EndsCell(rest)
    ensures Parse(text + rest, p) == Parse(rest, p.(cell := Bare(p.cell.text + text)))
  {
    if text == "" {
      assert text + rest == rest && p.cell.text + text == p.cell.text;
    } else {
      assert BareChar(text[0]);
      assert (text + rest)[0] == text[0] && (text + rest)[1..] == text[1..] + rest;
      assert p.cell.text + text == (p.cell.text + [text[0]]) + text[1..];
      ParseBare(text[1..], rest, Typed(p, text[0]));
    }
  }

  lemma ParseOpening(text: string, rest: string, p: Parser)
    requires !p.inQuote && p.cell == Bare("")
    ensures Parse(CellText(Quoted(text)) + rest, p) ==
            Parse(Escaped(text) + [QUOTE] + rest, p.(cell := Quoted(""), inQuote := true))
  {
    var t, inner := CellText(Quoted(text)) + rest, Escaped(text) + [QUOTE] + rest;
    assert t == [QUOTE] + inner;
    assert t[0] == QUOTE && t[1..] == inner;
  }

  lemma ParseCell(c: Cell, rest: string, p: Parser)
    requires CellOk(c) && EndsCell(rest) && !p.inQuote && p.cell == Bare("")
    ensures Parse(CellText(c) + rest, p) == Parse(rest, p.(cell := c))
  {
    assert "" + c.text == c.text;
    if c.Quoted? {
      ParseOpening(c.text, rest, p);
      ParseQuoted(c.text, rest, p.(cell := Quoted(""), inQuote := true));
    } else {
      ParseBare(c.text, rest, p);
    }
  }

  lemma ParseComma(more: string, p: Parser)
    requires !p.inQuote
    ensures Parse([COMMA] + more, p) == Parse(more, p.(cells := p.cells + [p.cell], cell := Bare("")))
  {
    assert ([COMMA] + more)[1..] == more;
  }

  lemma ParseCellComma(c: Cell, more: string, p: Parser)
    requires CellOk(c) && !p.inQuote && p.cell == Bare("")
    ensures Parse(CellText(c) + ([COMMA] + more), p) == Parse(more, p.(cells := p.cells + [c]))
  {
    ParseCell(c, [COMMA] + more, p);
    ParseComma(more, p.(cell := c));
  }

  lemma ParseFirstCell(cells: seq<Cell>, rest: string, p: Parser)
    requires cells != [] && CellOk(cells[0]) && !p.inQuote && p.cell == Bare("")
    ensures Parse(CellsText(cells) + rest, p) == Parse(CellsText(cells[1..]) + rest, p.(cells := p.cells + [cells[0]]))
  {
    var first, others := CellText(cells[0]), CellsText(cells[1..]);
    assert first + [COMMA] + others + rest == first + ([COMMA] + (others + rest));
    ParseCellComma(cells[0], others + rest, p);
  }

  lemma {:induction false} ParseCells(cells: seq<Cell>, rest: string, p: Parser)
    requires (forall i: nat :: i < |cells| ==> CellOk(cells[i])) && !p.inQuote && p.cell == Bare("")
    ensures Parse(CellsText(cells) + rest, p) == Parse(rest, p.(cells := p.cells + cells))
  {
    if cells == [] {
      assert "" + rest == rest;
      assert p.cells + [] == p.cells;
    } else {
      ParseCells(cells[1..], rest, p.(cells := p.cells + [cells[0]]));
      ParseFirstCell(cells, rest, p);
      Rejoined(p.cells, cells);
    }
  }

  lemma ParseEnd(end: Break, rest: string, p: Parser)
    requires !p.inQuote && end != Eof && (end == CrBreak ==> rest == "" || rest[0] != LF)
    ensures Parse(BreakText(end) + rest, p) == Parse(rest, EndLine(p, end))
  {
    var t := BreakText(end) + rest;
    match end
    case CrLfBreak => assert t[0] == CR && t[1] == LF && t[2..] == rest;
    case LfBreak => assert t[0] == LF && t[1..] == rest;
    case CrBreak => assert t[0] == CR && t[1..] == rest;
  }

  lemma ParseLineCells(l: Line, after: string, p: Parser)
    requires LineOk(l) && EndsCell(after) && p == Parser(p.lines, [], Bare(""), false)
    ensures Parse(CellsText(l.cells[..|l.cells| - 1]) + (CellText(l.cells[|l.cells| - 1]) + after), p) ==
            Parse(after, Parser(p.lines, l.cells[..|l.cells| - 1], l.cells[|l.cells| - 1], false))
  {
    var n := |l.cells| - 1;
    var q := Parser(p.lines, l.cells[..n], Bare(""), false);
    assert [] + l.cells[..n] == l.cells[..n];
    ParseCells(l.cells[..n], CellText(l.cells[n]) + after, p);
    ParseCell(l.cells[n], after, q);
  }

  lemma ParseLine(l: Line, rest: string, p: Parser)
    requires LineOk(l) && p == Parser(p.lines, [], Bare(""), false)
    requires l.end == Eof ==> rest == ""
    requires l.end == CrBreak ==> rest == "" || rest[0] != LF
    ensures l.end == Eof ==> Parse(LineText(l) + rest, p) == Some(p.lines + [l])
    ensures l.end != Eof ==> Parse(LineText(l) + rest, p) == Parse(rest, Parser(p.lines + [l], [], Bare(""), false))
  {
    var n, after := |l.cells| - 1, BreakText(l.end) + rest;
    var cells, cell, brk := CellsText(l.cells[..n]), CellText(l.cells[n]), BreakText(l.end);
    assert cells + cell + brk + rest == cells + (cell + (brk + rest));
    ParseLineCells(l, after, p);
    assert l.cells[..n] + [l.cells[n]] == l.cells;
    if l.end != Eof {
      ParseEnd(l.end, rest, Parser(p.lines, l.cells[..n], l.cells[n], false));
    } else {
      assert after == "";
    }
  }

  /** A line's text starts with LF only if the line is empty and ends in LF. */
  lemma FirstChar(l: Line)
    requires LineOk(l) && LineText(l) != "" && LineText(l)[0] == LF
    ensures IsEmptyLf(l)
  {
    var first := l.cells[0];
    assert CellOk(first);
    if |l.cells| == 1 {
      assert l.cells == [first];
    }
  }

  /** A CR is never followed by text that starts with LF. */
  lemma NextStartsElse(rest: seq<Line>)
    requires DocumentOk(rest) && |rest| > 1 && rest[0].end == CrBreak
    ensures Render(rest[1..]) == "" || Render(rest[1..])[0] != LF
  {
    var next, tail := rest[1], Render(rest[1..]);
    assert tail == LineText(next) + Render(rest[1..][1..]);
    if LineText(next) == "" {
      assert next.end == Eof;
      assert rest[1..][1..] == [];
    } else if LineText(next)[0] == LF {
      FirstChar(next);
    }
  }

  lemma ParseLast(done: seq<Line>, l: Line)
    requires LineOk(l) && l.end == Eof
    ensures Parse(Render([l]), Parser(done, [], Bare(""), false)) == Some(done + [l])
  {
    assert [l][1..] == [];
    assert Render([l]) == LineText(l) + "";
    ParseLine(l, "", Parser(done, [], Bare(""), false));
  }

  lemma ParseFirst(done: seq<Line>, rest: seq<Line>)
    requires DocumentOk(rest) && |rest| > 1
    ensures Parse(Render(rest), Parser(done, [], Bare(""), false)) ==
            Parse(Render(rest[1..]), Parser(done + [rest[0]], [], Bare(""), false))
  {
    if rest[0].end == CrBreak {
      NextStartsElse(rest);
    }
    ParseLine(rest[0], Render(rest[1..]), Parser(done, [], Bare(""), false));
  }

  lemma {:induction false} ParseRest(done: seq<Line>, rest: seq<Line>)
    requires DocumentOk(rest)
    ensures Parse(Render(rest), Parser(done, [], Bare(""), false)) == Some(done + rest)
    decreases |rest|
  {
    if |rest| == 1 {
      assert rest == [rest[0]];
      ParseLast(done, rest[0]);
    } else {
      TailOk(rest);
      ParseRest(done + [rest[0]], rest[1..]);
      ParseFirst(done, rest);
      Rejoined(done, rest);
    }
  }

  lemma Rejoined<T>(done: seq<T>, rest: seq<T>)
    requires rest != []
    ensures (done + [rest[0]]) + rest[1..] == done + rest
  {
  }

  lemma TailOk(rest: seq<Line>)
    requires DocumentOk(rest) && |rest| > 1
    ensures DocumentOk(rest[1..])
  {
  }

  /** Parsing undoes writing: each document of the grammar is the parse of its own text. */
  lemma ParseRenders(doc: seq<Line>)
    requires DocumentOk(doc)
    ensures Parse(Render(doc), FRESH) == Some(doc)
  {
    assert [] + doc == doc;
    ParseRest([], doc);
  }

  // ----- every accepted text is a document

  /** The text a parser state has consumed. */
  function Consumed(p: Parser): string {
    Render(p.lines) + CellsText(p.cells) + OpenText(p)
  }

  /** The current cell as written so far. */
  function OpenText(p: Parser): string {
    if p.inQuote then [QUOTE] + Escaped(p.cell.text) else CellText(p.cell)
  }

  /** Well-formed so far; t is what follows, which may not be an LF straight after a CR break. */
  ghost predicate ParserOk(p: Parser, t: string) {
    && LinesOk(p.lines)
    && (forall i: nat :: i < |p.cells| ==> CellOk(p.cells[i])) && CellOk(p.cell)
    && (p.inQuote ==> p.cell.Quoted?)
    && (p.lines != [] && p.lines[|p.lines| - 1].end == CrBreak && p.cells == [] && p.cell == Bare("") ==>
          t == "" || t[0] != LF)
  }

  lemma Chained(a: string, b: string, c: string)
    ensures a + (b + c) == a + b + c
  {
  }

  lemma {:induction false} EscapedSnoc(s: string, c: char)
    ensures Escaped(s + [c]) == Escaped(s) + if c == QUOTE then [QUOTE, QUOTE] else [c]
  {
    if s == "" {
      assert s + [c] == [c];
      assert [c][1..] == "";
    } else {
      assert (s + [c])[1..] == s[1..] + [c];
      EscapedSnoc(s[1..], c);
      Chained(if s[0] == QUOTE then [QUOTE, QUOTE] else [s[0]], Escaped(s[1..]),
              if c == QUOTE then [QUOTE, QUOTE] else [c]);
    }
  }

  lemma {:induction false} CellsSnoc(cells: seq<Cell>, c: Cell)
    ensures CellsText(cells + [c]) == CellsText(cells) + CellText(c) + [COMMA]
  {
    if cells == [] {
      assert cells + [c] == [c] && [c][1..] == [];
    } else {
      assert (cells + [c])[1..] == cells[1..] + [c];
      CellsSnoc(cells[1..], c);
      Regrouped(CellText(cells[0]) + [COMMA], CellsText(cells[1..]), CellText(c), [COMMA]);
    }
  }

  lemma {:induction false} RenderSnoc(lines: seq<Line>, l: Line)
    ensures Render(lines + [l]) == Render(lines) + LineText(l)
  {
    if lines == [] {
      assert lines + [l] == [l] && [l][1..] == [];
    } else {
      assert (lines + [l])[1..] == lines[1..] + [l];
      RenderSnoc(lines[1..], l);
      Chained(LineText(lines[0]), Render(lines[1..]), LineText(l));
    }
  }

  /** p' has consumed what p had and the first part of t; rest remains. */
  ghost predicate Moves(p: Parser, t: string, p': Parser, rest: string) {
    |rest| < |t| && ParserOk(p', rest) && Consumed(p') + rest == Consumed(p) + t
  }

  lemma Regrouped(a: string, b: string, c: string, d: string)
    ensures a + (b + c + d) == a + b + c + d
    ensures a + (b + c + d) + "" == a + b + c + d
  {
  }

  lemma TypedText(p: Parser, c: char)
    requires p.inQuote ==> p.cell.Quoted?
    requires !p.inQuote ==> p.cell.Bare?
    ensures OpenText(Typed(p, c)) == OpenText(p) + if p.inQuote && c == QUOTE then [QUOTE, QUOTE] else [c]
  {
    EscapedSnoc(p.cell.text, c);
  }

  /** Extending the text of the open cell extends what was consumed. */
  lemma OpenMoved(p: Parser, p': Parser, t: string, read: string, rest: string)
    requires p'.lines == p.lines && p'.cells == p.cells && OpenText(p') == OpenText(p) + read && t == read + rest
    ensures Consumed(p') + rest == Consumed(p) + t
  {
    Chained(Render(p.lines) + CellsText(p.cells), OpenText(p), read);
    var before := Consumed(p);
    assert before + read + rest == before + (read + rest);
  }

  lemma TypedMoves(t: string, p: Parser, n: nat, c: char)
    requires ParserOk(p, t) && n <= |t| && 0 < n && (p.inQuote || p.cell.Bare?)
    requires t[..n] == if p.inQuote && c == QUOTE then [QUOTE, QUOTE] else [c]
    requires p.inQuote || BareChar(c)
    ensures Moves(p, t, Typed(p, c), t[n..])
  {
    TypedText(p, c);
    assert t == t[..n] + t[n..];
    OpenMoved(p, Typed(p, c), t, t[..n], t[n..]);
  }

  lemma CloseMoves(t: string, p: Parser)
    requires ParserOk(p, t) && p.inQuote && t != "" && t[0] == QUOTE
    ensures Moves(p, t, p.(inQuote := false), t[1..])
  {
    var p' := p.(inQuote := false);
    assert t == [QUOTE] + t[1..];
    OpenMoved(p, p', t, [QUOTE], t[1..]);
  }

  lemma OpenMoves(t: string, p: Parser)
    requires ParserOk(p, t) && !p.inQuote && p.cell == Bare("") && t != "" && t[0] == QUOTE
    ensures Moves(p, t, p.(cell := Quoted(""), inQuote := true), t[1..])
  {
    var p' := p.(cell := Quoted(""), inQuote := true);
    assert t == [QUOTE] + t[1..];
    OpenMoved(p, p', t, [QUOTE], t[1..]);
  }

  lemma CommaConsumes(p: Parser)
    requires !p.inQuote
    ensures Consumed(p.(cells := p.cells + [p.cell], cell := Bare(""))) == Consumed(p) + [COMMA]
  {
    CellsSnoc(p.cells, p.cell);
    Regrouped(Render(p.lines), CellsText(p.cells), CellText(p.cell), [COMMA]);
  }

  lemma CommaOk(p: Parser, t: string, rest: string)
    requires ParserOk(p, t) && !p.inQuote
    ensures ParserOk(p.(cells := p.cells + [p.cell], cell := Bare("")), rest)
  {
  }

  lemma TookOne(before: string, after: string, c: char, t: string)
    requires t != "" && t[0] == c && after == before + [c]
    ensures after + t[1..] == before + t
  {
    assert t == [c] + t[1..];
    Chained(before, [c], t[1..]);
  }

  lemma CommaMoves(t: string, p: Parser)
    requires ParserOk(p, t) && !p.inQuote && t != "" && t[0] == COMMA
    ensures Moves(p, t, p.(cells := p.cells + [p.cell], cell := Bare("")), t[1..])
  {
    var p' := p.(cells := p.cells + [p.cell], cell := Bare(""));
    CommaConsumes(p);
    CommaOk(p, t, t[1..]);
    TookOne(Consumed(p), Consumed(p'), COMMA, t);
  }

  lemma EndLineConsumes(p: Parser, end: Break)
    requires !p.inQuote
    ensures Consumed(EndLine(p, end)) == Consumed(p) + BreakText(end)
    ensures Render(EndLine(p, end).lines) == Consumed(p) + BreakText(end)
  {
    var l := Line(p.cells + [p.cell], end);
    RenderSnoc(p.lines, l);
    assert l.cells[..|p.cells|] == p.cells;
    Regrouped(Render(p.lines), CellsText(p.cells), CellText(p.cell), BreakText(end));
    var all := Render(p.lines + [l]);
    assert all + "" + "" == all;
  }

  lemma BreakOk(p: Parser, end: Break, t: string, rest: string)
    requires ParserOk(p, t) && !p.inQuote && end != Eof && t == BreakText(end) + rest
    requires end == CrBreak ==> rest == "" || rest[0] != LF
    ensures ParserOk(EndLine(p, end), rest)
  {
    var lines := EndLine(p, end).lines;
    forall i: nat | i + 1 < |lines| && lines[i].end == CrBreak ensures !IsEmptyLf(lines[i + 1]) {
      assert p.lines[i] == lines[i];
      if i + 1 < |p.lines| {
        assert p.lines[i + 1] == lines[i + 1];
      } else {
        assert p.cells != [] ==> |lines[i + 1].cells| > 1;
        assert lines[i + 1].cells[|p.cells|] == p.cell;
        assert end == LfBreak ==> t[0] == LF;
      }
    }
  }

  lemma BreakConsumes(p: Parser, end: Break, rest: string)
    requires !p.inQuote
    ensures Consumed(EndLine(p, end)) + rest == Consumed(p) + (BreakText(end) + rest)
  {
    EndLineConsumes(p, end);
    Reassociated(Consumed(p), BreakText(end), rest);
  }

  lemma Reassociated(x: string, y: string, z: string)
    ensures x + y + z == x + (y + z)
  {
  }

  lemma BreakMoves(t: string, p: Parser, end: Break, n: nat)
    requires ParserOk(p, t) && !p.inQuote && end != Eof && n <= |t| && n == |BreakText(end)| && t[..n] == BreakText(end)
    requires end == CrBreak ==> !CrLf(t)
    ensures Moves(p, t, EndLine(p, end), t[n..])
  {
    assert t == BreakText(end) + t[n..];
    BreakOk(p, end, t, t[n..]);
    BreakConsumes(p, end, t[n..]);
  }

  lemma EofOk(p: Parser)
    requires ParserOk(p, "") && !p.inQuote
    ensures DocumentOk(EndLine(p, Eof).lines)
  {
  }

  lemma EofIsDocument(p: Parser)
    requires ParserOk(p, "") && !p.inQuote
    ensures DocumentOk(EndLine(p, Eof).lines) && Render(EndLine(p, Eof).lines) == Consumed(p)
  {
    EofOk(p);
    EndLineConsumes(p, Eof);
    assert Consumed(p) + "" == Consumed(p);
  }

  /** Every move of the parser keeps its state well-formed and accounts for the characters it took. */
  lemma AdvanceMoves(t: string, p: Parser)
    requires t != "" && ParserOk(p, t) && Advance(t, p).Some?
    ensures Moves(p, t, Advance(t, p).value.0, t[Advance(t, p).value.1..])
  {
    var c := t[0];
    if p.inQuote && DoubledQuote(t) {
      TypedMoves(t, p, 2, QUOTE);
    } else if p.inQuote && c == QUOTE {
      CloseMoves(t, p);
    } else if p.inQuote {
      TypedMoves(t, p, 1, c);
    } else if c == QUOTE && p.cell == Bare("") {
      OpenMoves(t, p);
    } else if c == COMMA {
      CommaMoves(t, p);
    } else if CrLf(t) {
      BreakMoves(t, p, CrLfBreak, 2);
    } else if c == LF {
      BreakMoves(t, p, LfBreak, 1);
    } else if c == CR {
      BreakMoves(t, p, CrBreak, 1);
    } else {
      TypedMoves(t, p, 1, c);
    }
  }

  /** What the parse returns is a document of the grammar, and its text is exactly what was read. */
  lemma {:induction false} ParseIsDocument(t: string, p: Parser)
    requires ParserOk(p, t) && Parse(t, p).Some?
    ensures DocumentOk(Parse(t, p).value) && Render(Parse(t, p).value) == Consumed(p) + t
    decreases |t|
  {
    if t == "" {
      EofIsDocument(p);
      assert Consumed(p) + "" == Consumed(p);
    } else {
      AdvanceMoves(t, p);
      var (next, n) := Advance(t, p).value;
      ParseIsDocument(t[n..], next);
    }
  }

  // ----- main results

  lemma LexIsRows(text: string)
    ensures Scan(text, START) == Rows(Parse(text, FRESH))
  {
    assert Meaning([]) == [] && Values([]) == [];
    ScanForgets(text, FRESH);
  }

  ghost predicate Spells(doc: seq<Line>, text: string) {
    DocumentOk(doc) && Render(doc) == text
  }

  /** The lexer accepts a text if and only if some document of the grammar spells it. */
  lemma AcceptsExactlyTheGrammar(text: string)
    ensures Scan(text, START).Some? <==> exists doc :: Spells(doc, text)
  {
    LexIsRows(text);
    if Parse(text, FRESH).Some? {
      ParseIsDocument(text, FRESH);
      assert Consumed(FRESH) == "";
      assert "" + text == text;
      assert Spells(Parse(text, FRESH).value, text);
    }
    if doc :| Spells(doc, text) {
      ParseRenders(doc);
    }
  }

  /** That document is unique, and its non-blank rows are the result. */
  lemma UniqueParse(text: string, doc: seq<Line>, other: seq<Line>)
    requires Spells(doc, text)
    ensures Scan(text, START) == Some(NonBlank(Meaning(doc)))
    ensures Spells(other, text) ==> other == doc
  {
    LexIsRows(text);
    ParseRenders(doc);
    if Spells(other, text) {
      ParseRenders(other);
    }
  }

  /** Unquoted line breaks are interchangeable: texts of the same cells give the same rows. */
  lemma BreaksInterchangeable(text: string, text': string, doc: seq<Line>, doc': seq<Line>)
    requires Spells(doc, text) && Spells(doc', text')
    requires |doc| == |doc'| && forall i: nat :: i < |doc| ==> doc[i].cells == doc'[i].cells
    ensures Scan(text, START) == Scan(text', START)
  {
    UniqueParse(text, doc, doc);
    UniqueParse(text', doc', doc');
    assert Meaning(doc) == Meaning(doc');
  }

  // ----- which rows are kept, by trimming

  /** What ECMA-262 calls white space and line terminators, which trim strips from both ends. */
  const WHITE := [
    '\U{0009}', '\U{000A}', '\U{000B}', '\U{000C}', '\U{000D}', '\U{0020}', '\U{00A0}', '\U{1680}',
    '\U{2000}', '\U{2001}', '\U{2002}', '\U{2003}', '\U{2004}', '\U{2005}', '\U{2006}', '\U{2007}',
    '\U{2008}', '\U{2009}', '\U{200A}', '\U{2028}', '\U{2029}', '\U{202F}', '\U{205F}', '\U{3000}',
    '\U{FEFF}']

  function TrimStart(s: string): string {
    if s != "" && s[0] in WHITE then TrimStart(s[1..]) else s
  }

  function TrimEnd(s: string): string {
    if s != "" && s[|s| - 1] in WHITE then TrimEnd(s[..|s| - 1]) else s
  }

  function Trim(s: string): string {
    TrimEnd(TrimStart(s))
  }

  /** Some field has something left after trimming. */
  predicate Filled(row: seq<string>) {
    exists i: nat :: i < |row| && Trim(row[i]) != ""
  }

  lemma SpacesAreWhite(c: char)
    ensures IsSpace(c) <==> c in WHITE
  {
  }

  lemma {:induction false} TrimmedStart(s: string)
    ensures TrimStart(s) == "" <==> forall i: nat :: i < |s| ==> s[i] in WHITE
    ensures TrimStart(s) != "" ==> TrimStart(s)[0] !in WHITE
  {
    if s != "" && s[0] in WHITE {
      TrimmedStart(s[1..]);
      assert forall i: nat :: 0 < i < |s| ==> s[i] == s[1..][i - 1];
    }
  }

  lemma {:induction false} TrimmedEnd(s: string)
    requires s == "" || s[0] !in WHITE
    ensures TrimEnd(s) == "" <==> s == ""
  {
    if s != "" && s[|s| - 1] in WHITE {
      TrimmedEnd(s[..|s| - 1]);
    }
  }

  lemma TrimmedAway(s: string)
    ensures Trim(s) == "" <==> forall i: nat :: i < |s| ==> s[i] in WHITE
  {
    TrimmedStart(s);
    TrimmedEnd(TrimStart(s));
  }

  lemma BlankIsUnfilled(row: seq<string>)
    ensures Blank(row) <==> !Filled(row)
  {
    forall i: nat | i < |row|
      ensures Trim(row[i]) == "" <==> forall j: nat :: j < |row[i]| ==> IsSpace(row[i][j])
    {
      TrimmedAway(row[i]);
      forall j: nat | j < |row[i]| ensures IsSpace(row[i][j]) <==> row[i][j] in WHITE {
        SpacesAreWhite(row[i][j]);
      }
    }
  }

  /** The kept rows are those at these places, in order, and these are the places of the filled rows. */
  ghost predicate KeptAt(rows: seq<seq<string>>, kept: seq<seq<string>>, places: seq<nat>) {
    && |kept| == |places|
    && (forall k: nat, l: nat :: k < l < |places| ==> places[k] < places[l])
    && (forall k: nat :: k < |places| ==> places[k] < |rows| && kept[k] == rows[places[k]])
    && (forall i: nat :: i < |rows| ==> (i in places <==> Filled(rows[i])))
  }

  ghost predicate KeepsFilled(rows: seq<seq<string>>, kept: seq<seq<string>>) {
    exists places: seq<nat> :: KeptAt(rows, kept, places)
  }

  lemma KeptMore(rows: seq<seq<string>>, kept: seq<seq<string>>, places: seq<nat>, row: seq<string>)
    requires KeptAt(rows, kept, places)
    ensures !Filled(row) ==> KeptAt(rows + [row], kept, places)
    ensures Filled(row) ==> KeptAt(rows + [row], kept + [row], places + [|rows|])
  {
    forall i: nat | i < |rows + [row]| && Filled(row)
      ensures i in places + [|rows|] <==> Filled((rows + [row])[i])
    {
      if i < |rows| {
        assert i in places + [|rows|] <==> i in places;
      }
    }
  }

  lemma NextKept(rows: seq<seq<string>>, kept: seq<seq<string>>, row: seq<string>)
    requires KeepsFilled(rows, kept)
    ensures KeepsFilled(rows + [row], if Blank(row) then kept else kept + [row])
  {
    var places: seq<nat> :| KeptAt(rows, kept, places);
    KeptMore(rows, kept, places, row);
    BlankIsUnfilled(row);
  }

  lemma NothingKept()
    ensures KeepsFilled([], [])
  {
    assert KeptAt([], [], []);
  }

  lemma SameRows(rows: seq<seq<string>>, init: seq<seq<string>>, row: seq<string>)
    requires rows == init + [row] && KeepsFilled(init, NonBlank(init))
    ensures KeepsFilled(rows, NonBlank(rows))
  {
    NextKept(init, NonBlank(init), row);
    NonBlankSnoc(init, row);
    assert NonBlank(init) + [] == NonBlank(init);
  }

  lemma {:induction false} NonBlankKeeps(rows: seq<seq<string>>)
    ensures KeepsFilled(rows, NonBlank(rows))
    decreases |rows|
  {
    if rows == [] {
      NothingKept();
    } else {
      NonBlankKeeps(rows[..|rows| - 1]);
      SameRows(rows, rows[..|rows| - 1], rows[|rows| - 1]);
    }
  }

  /**
   What is returned: of the rows of the one document that spells the text, in their order and as often
   as they occur, exactly those with a field that trimming does not empty.
   */
  lemma KeptRows(text: string, doc: seq<Line>)
    requires Spells(doc, text)
    ensures Scan(text, START).Some? && KeepsFilled(Meaning(doc), Scan(text, START).value)
  {
    UniqueParse(text, doc, doc);
    NonBlankKeeps(Meaning(doc));
  }

  // ----- round trip of any table

  /** Each quote written twice. */
  function Doubled(s: string): string {
    if s == "" then "" else (if s[0] == '"' then "\"\"" else [s[0]]) + Doubled(s[1..])
  }

  /** Every field quoted, quotes doubled, commas between. A row without fields is an empty line. */
  function RowText(row: seq<string>): string {
    if row == [] then ""
    else if |row| == 1 then "\"" + Doubled(row[0]) + "\""
    else "\"" + Doubled(row[0]) + "\"" + "," + RowText(row[1..])
  }

  function TableText(table: seq<seq<string>>, newline: string): string {
    if table == [] then ""
    else if |table| == 1 then RowText(table[0])
    else RowText(table[0]) + newline + TableText(table[1..], newline)
  }

  lemma {:induction false} DoubledIsEscaped(s: string)
    ensures Doubled(s) == Escaped(s)
  {
    if s != "" {
      DoubledIsEscaped(s[1..]);
    }
  }

  function Cells(row: seq<string>): (cells: seq<Cell>)
    ensures |cells| > 0 && forall i: nat :: i < |cells| ==> CellOk(cells[i])
    ensures row != [] ==> |cells| == |row| && forall i: nat :: i < |row| ==> cells[i] == Quoted(row[i])
    ensures row == [] ==> cells == [Bare("")]
  {
    if row == [] then [Bare("")] else seq(|row|, (i: nat) requires i < |row| => Quoted(row[i]))
  }

  function Document(table: seq<seq<string>>, end: Break): (doc: seq<Line>)
    ensures forall i: nat :: i < |doc| ==> LineOk(doc[i])
    ensures |doc| == if table == [] then 1 else |table|
  {
    if table == [] then [Line([Bare("")], Eof)]
    else seq(|table|, (i: nat) requires i < |table| => Line(Cells(table[i]), if i + 1 < |table| then end else Eof))
  }

  lemma CellsTail(row: seq<string>)
    requires |row| > 1
    ensures var n, cells, tail := |row| - 1, Cells(row), Cells(row[1..]);
            && cells[..n] != [] && cells[..n][0] == Quoted(row[0])
            && cells[..n][1..] == tail[..n - 1] && cells[n] == tail[n - 1]
  {
  }

  lemma {:induction false} QuotedCells(row: seq<string>)
    requires row != []
    ensures CellsText(Cells(row)[..|row| - 1]) + CellText(Cells(row)[|row| - 1]) == RowText(row)
  {
    var n, cells := |row| - 1, Cells(row);
    DoubledIsEscaped(row[0]);
    if n == 0 {
      assert cells[..0] == [];
      assert "" + CellText(cells[0]) == CellText(cells[0]);
    } else {
      CellsTail(row);
      QuotedCells(row[1..]);
      Chained(CellText(Quoted(row[0])) + [COMMA], CellsText(cells[..n][1..]), CellText(cells[n]));
    }
  }

  lemma RowTextIsLine(row: seq<string>, end: Break)
    ensures LineText(Line(Cells(row), end)) == RowText(row) + BreakText(end)
  {
    if row == [] {
      assert Cells(row)[..0] == [];
    } else {
      QuotedCells(row);
    }
  }

  lemma DocumentTail(table: seq<seq<string>>, end: Break)
    requires |table| > 1
    ensures Document(table, end) == [Line(Cells(table[0]), end)] + Document(table[1..], end)
  {
  }

  lemma {:induction false} TableTextIsRender(table: seq<seq<string>>, end: Break)
    ensures Render(Document(table, end)) == TableText(table, BreakText(end))
    decreases |table|
  {
    var doc := Document(table, end);
    if |table| <= 1 {
      RowTextIsLine(if table == [] then [] else table[0], Eof);
      assert doc[1..] == [];
      assert Render(doc) == LineText(doc[0]) + "";
    } else {
      TableTextIsRender(table[1..], end);
      RowTextIsLine(table[0], end);
      DocumentTail(table, end);
      assert doc[1..] == Document(table[1..], end);
    }
  }

  lemma DocumentIsOk(table: seq<seq<string>>, end: Break)
    requires end != Eof
    ensures DocumentOk(Document(table, end))
  {
  }

  lemma {:induction false} SameNonBlank(rows: seq<seq<string>>, rows': seq<seq<string>>)
    requires |rows| == |rows'|
    requires forall i: nat :: i < |rows| ==> rows[i] == rows'[i] || (Blank(rows[i]) && Blank(rows'[i]))
    ensures NonBlank(rows) == NonBlank(rows')
  {
    if rows != [] {
      SameNonBlank(rows[..|rows| - 1], rows'[..|rows| - 1]);
    }
  }

  lemma DocumentMeaning(table: seq<seq<string>>, end: Break)
    ensures NonBlank(Meaning(Document(table, end))) == NonBlank(table)
  {
    var rows := Meaning(Document(table, end));
    if table == [] {
      assert Blank(rows[0]) && rows[..0] == [];
    } else {
      forall i: nat | i < |table| ensures rows[i] == table[i] || (Blank(rows[i]) && Blank(table[i])) {
        if table[i] != [] {
          assert Values(Cells(table[i])) == table[i];
        }
      }
      SameNonBlank(rows, table);
    }
  }

  lemma RoundTripBy(table: seq<seq<string>>, end: Break)
    requires end != Eof
    ensures Scan(TableText(table, BreakText(end)), START) == Some(NonBlank(table))
  {
    var doc := Document(table, end);
    TableTextIsRender(table, end);
    DocumentIsOk(table, end);
    UniqueParse(TableText(table, BreakText(end)), doc, doc);
    DocumentMeaning(table, end);
  }

  /**
   Round trip: quoting every field of any table and joining rows with CRLF, LF or CR, then lexing, gives
   back the table's rows that have a field trimming does not empty.
   */
  lemma RoundTrip(table: seq<seq<string>>, newline: string)
    requires newline == "\r\n" || newline == "\n" || newline == "\r"
    ensures Scan(TableText(table, newline), START).Some?
    ensures KeepsFilled(table, Scan(TableText(table, newline), START).value)
  {
    RoundTripBy(table, if newline == "\r\n" then CrLfBreak else if newline == "\n" then LfBreak else CrBreak);
    NonBlankKeeps(table);
  }
}
