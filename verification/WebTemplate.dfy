/** Templates: texts with `${{NAME}}` tokens whose values are filled in pair by pair. */
module WebTemplate {
  import opened Sequences
  import opened TextReplace
  import opened Placeholders

  /** A template text, seen as literal text and tokens. */
  datatype Segment = Literal(text: string) | Token(name: string)

  datatype Binding = Binding(name: string, value: string)

  function TokenText(name: string): string {
    "${{" + name + "}}"
  }

  function Print(segments: seq<Segment>): string {
    if segments == [] then ""
    else
      (match segments[0] case Literal(text) => text case Token(name) => TokenText(name)) + Print(segments[1..])
  }

  /** Literals contain no `$`, names neither `$` nor `}`. */
  predicate CleanSegment(s: Segment) {
    match s
    case Literal(text) => '$' !in text
    case Token(name) => CleanName(name)
  }

  predicate CleanName(name: string) {
    '$' !in name && '}' !in name
  }

  predicate Clean(segments: seq<Segment>) {
    forall s :: s in segments ==> CleanSegment(s)
  }

  predicate CleanBindings(bindings: seq<Binding>) {
    forall b :: b in bindings ==> CleanName(b.name) && '$' !in b.value
  }

  /** One token filled in, structurally. */
  function Fill(segments: seq<Segment>, b: Binding): seq<Segment> {
    if segments == [] then []
    else [if segments[0] == Token(b.name) then Literal(b.value) else segments[0]] + Fill(segments[1..], b)
  }

  /** The first binding of a name. */
  function ValueOf(name: string, bindings: seq<Binding>): Option<string> {
    if bindings == [] then None
    else if bindings[0].name == name then Some(bindings[0].value)
    else ValueOf(name, bindings[1..])
  }

  function FillToken(s: Segment, bindings: seq<Binding>): Segment {
    if s.Token? && ValueOf(s.name, bindings).Some? then Literal(ValueOf(s.name, bindings).value) else s
  }

  /** All tokens filled in at once. */
  function FillAll(segments: seq<Segment>, bindings: seq<Binding>): seq<Segment> {
    if segments == [] then [] else [FillToken(segments[0], bindings)] + FillAll(segments[1..], bindings)
  }

  /** The bindings as the pairs of token text and value that the writer is given. */
  function TokenPairs(bindings: seq<Binding>): (pairs: seq<Pair>)
    ensures NonEmptyKeys(pairs)
  {
    if bindings == [] then []
    else
      var last := bindings[|bindings|-1];
      TokenPairs(bindings[..|bindings|-1]) + [Pair(TokenText(last.name), last.value)]
  }

  // ---------------------------------------------------------------- one token

  lemma TokenIsKey(name: string)
    requires CleanName(name)
    ensures IsKey(TokenText(name))
  {
    var tail := "{{" + name + "}}";
    assert TokenText(name) == "$" + tail && TokenText(name)[1..] == tail;
  }

  /** Brace-free names are read off unambiguously. */
  lemma {:induction false} NamesAgree(a: string, b: string, rest: string)
    requires '}' !in a && '}' !in b && a + "}" <= b + ("}" + rest)
    ensures a == b
    decreases |a|
  {
    var s, t := a + "}", b + ("}" + rest);
    assert a == "" || a[0] in a;
    assert b == "" || b[0] in b;
    PrefixCons(s, t);
    if a != "" && b != "" {
      assert s[1..] == a[1..] + "}" && t[1..] == b[1..] + ("}" + rest);
      NamesAgree(a[1..], b[1..], rest);
    }
  }

  /** A token stands at the front of another one only if it is the same. */
  lemma TokensAgree(a: string, b: string, rest: string)
    requires CleanName(a) && CleanName(b) && TokenText(a) <= TokenText(b) + rest
    ensures a == b
  {
    var s, t := TokenText(a), TokenText(b) + rest;
    assert s[3..] == a + "}}" && t[3..] == b + ("}" + ("}" + rest));
    assert a + "}" <= a + "}}" <= t[3..] by {
      assert t == s + t[|s|..];
      assert t[3..] == s[3..] + t[|s|..];
      assert a + "}}" == (a + "}") + "}";
    }
    NamesAgree(a, b, "}" + rest);
  }

  lemma ReplaceToken(name: string, rest: string, b: Binding)
    requires CleanName(name) && CleanName(b.name)
    ensures Replace(TokenText(name) + rest, TokenText(b.name), b.value)
         == (if name == b.name then b.value else TokenText(name)) + Replace(rest, TokenText(b.name), b.value)
  {
    var token, text := TokenText(name), TokenText(name) + rest;
    TokenIsKey(name);
    TokenIsKey(b.name);
    assert text[|token|..] == rest;
    if TokenText(b.name) <= text {
      TokensAgree(b.name, name, rest);
    } else {
      assert token <= text;
      ReplaceStepsOver(token, text, TokenText(b.name), b.value);
    }
  }

  /** Replacing a token in the printed template is filling it in in the template. */
  lemma {:induction false} ReplaceFills(segments: seq<Segment>, b: Binding)
    requires Clean(segments) && CleanName(b.name)
    ensures Replace(Print(segments), TokenText(b.name), b.value) == Print(Fill(segments, b))
    decreases |segments|
  {
    if segments != [] {
      var rest := segments[1..];
      assert segments[0] in segments;
      ReplaceFills(rest, b);
      TokenIsKey(b.name);
      assert Fill(segments, b)[1..] == Fill(rest, b);
      match segments[0]
      case Literal(text) => ReplaceSkipsPlain(text, Print(rest), TokenText(b.name), b.value);
      case Token(name) => ReplaceToken(name, Print(rest), b);
    }
  }

  // ---------------------------------------------------------------- all tokens

  lemma {:induction false} FillKeepsClean(segments: seq<Segment>, b: Binding)
    requires Clean(segments) && '$' !in b.value
    ensures Clean(Fill(segments, b))
  {
    if segments != [] {
      assert segments[0] in segments;
      FillKeepsClean(segments[1..], b);
    }
  }

  lemma {:induction false} ValueOfSnoc(name: string, bindings: seq<Binding>, b: Binding)
    ensures ValueOf(name, bindings + [b]) ==
      if ValueOf(name, bindings).Some? then ValueOf(name, bindings)
      else if b.name == name then Some(b.value) else None
  {
    if bindings != [] {
      assert (bindings + [b])[1..] == bindings[1..] + [b];
      ValueOfSnoc(name, bindings[1..], b);
    } else {
      assert bindings + [b] == [b];
    }
  }

  lemma {:induction false} FillAllSnoc(segments: seq<Segment>, bindings: seq<Binding>, b: Binding)
    ensures FillAll(segments, bindings + [b]) == Fill(FillAll(segments, bindings), b)
  {
    if segments != [] {
      FillAllSnoc(segments[1..], bindings, b);
      if segments[0].Token? {
        ValueOfSnoc(segments[0].name, bindings, b);
      }
      assert FillAll(segments, bindings)[1..] == FillAll(segments[1..], bindings);
    }
  }

  lemma {:induction false} FillNothing(segments: seq<Segment>)
    ensures FillAll(segments, []) == segments
  {
    if segments != [] {
      FillNothing(segments[1..]);
    }
  }

  /**
    Applying the pairs one after the other to the printed template equals filling in all
    tokens at once: each token gets the first value bound to its name, nothing else changes.
   */
  lemma {:induction false} SubstituteFillsAll(segments: seq<Segment>, bindings: seq<Binding>)
    requires Clean(segments) && CleanBindings(bindings)
    ensures ApplyAll(Print(segments), TokenPairs(bindings)) == Print(FillAll(segments, bindings))
    ensures Clean(FillAll(segments, bindings))
    decreases |bindings|
  {
    if bindings == [] {
      FillNothing(segments);
    } else {
      var rest, last := bindings[..|bindings|-1], bindings[|bindings|-1];
      assert bindings == rest + [last] && last in bindings;
      SubstituteFillsAll(segments, rest);
      ApplySnoc(Print(segments), TokenPairs(rest), Pair(TokenText(last.name), last.value));
      FillAllSnoc(segments, rest, last);
      ReplaceFills(FillAll(segments, rest), last);
      FillKeepsClean(FillAll(segments, rest), last);
    }
  }

  ghost predicate DistinctBindings(bindings: seq<Binding>) {
    forall i, j :: 0 <= i < j < |bindings| ==> bindings[i].name != bindings[j].name
  }

  lemma {:induction false} ValueOfMember(bindings: seq<Binding>, name: string, value: string)
    requires DistinctBindings(bindings)
    ensures ValueOf(name, bindings) == Some(value) <==> Binding(name, value) in bindings
  {
    if bindings != [] {
      assert bindings == [bindings[0]] + bindings[1..];
      ValueOfMember(bindings[1..], name, value);
      if bindings[0].name == name {
        assert forall b :: b in bindings[1..] ==> b.name != name;
      }
    }
  }

  lemma {:induction false} SameValuesSameFill(segments: seq<Segment>, a: seq<Binding>, b: seq<Binding>)
    requires forall name :: ValueOf(name, a) == ValueOf(name, b)
    ensures FillAll(segments, a) == FillAll(segments, b)
  {
    if segments != [] {
      SameValuesSameFill(segments[1..], a, b);
    }
  }

  /** With distinct names the order of the pairs does not matter. */
  lemma OrderDoesNotMatter(segments: seq<Segment>, a: seq<Binding>, b: seq<Binding>)
    requires Clean(segments) && CleanBindings(a) && DistinctBindings(a) && DistinctBindings(b)
    requires multiset(a) == multiset(b)
    ensures ApplyAll(Print(segments), TokenPairs(a)) == ApplyAll(Print(segments), TokenPairs(b))
  {
    assert forall x :: x in a <==> x in multiset(a);
    assert forall x :: x in b <==> x in multiset(b);
    forall name ensures ValueOf(name, a) == ValueOf(name, b) {
      var x, y := ValueOf(name, a), ValueOf(name, b);
      if x.Some? {
        ValueOfMember(a, name, x.value);
        ValueOfMember(b, name, x.value);
      } else if y.Some? {
        ValueOfMember(a, name, y.value);
        ValueOfMember(b, name, y.value);
      }
    }
    SameValuesSameFill(segments, a, b);
    SubstituteFillsAll(segments, a);
    SubstituteFillsAll(segments, b);
  }

  // ---------------------------------------------------------------- writing

  /** The `std::stringstream` that is written to. */
  class Stream {
    var text: string

    constructor ()
      ensures text == ""
    {
      text := "";
    }

    method Append(s: string)
      modifies this
      ensures text == old(text) + s
    {
      text := text + s;
    }
  }

  function Rendered(text: string, newLine: bool, pairs: seq<Pair>): string
    requires NonEmptyKeys(pairs)
  {
    ApplyAll(text, pairs) + (if newLine then "\n" else "")
  }

  class Template {
    const start: string
    const newLineAfterStart: bool
    const end: string
    const newLineAfterEnd: bool

    constructor (start: string, newLineAfterStart: bool, end: string, newLineAfterEnd: bool)
      ensures this.start == start && this.newLineAfterStart == newLineAfterStart
      ensures this.end == end && this.newLineAfterEnd == newLineAfterEnd
    {
      this.start, this.newLineAfterStart := start, newLineAfterStart;
      this.end, this.newLineAfterEnd := end, newLineAfterEnd;
    }

    /** The loop over the pairs. */
    static method Apply(text: string, pairs: seq<Pair>) returns (result: string)
      requires NonEmptyKeys(pairs)
      ensures result == ApplyAll(text, pairs)
    {
      result := text;
      for i := 0 to |pairs|
        invariant result == ApplyAll(text, pairs[..i])
      {
        assert pairs[..i + 1][..i] == pairs[..i];
        ghost var passes;
        result, passes := ReplaceStrInString(result, pairs[i].key, pairs[i].value);
      }
      assert pairs[..|pairs|] == pairs;
    }

    method WriteStart(ss: Stream, pairs: seq<Pair>)
      requires NonEmptyKeys(pairs)
      modifies ss
      ensures ss.text == old(ss.text) + Rendered(start, newLineAfterStart, pairs)
    {
      var s := Apply(start, pairs);
      ss.Append(s);
      if newLineAfterStart {
        ss.Append("\n");
      }
    }

    method WriteEnd(ss: Stream, pairs: seq<Pair>)
      requires NonEmptyKeys(pairs)
      modifies ss
      ensures ss.text == old(ss.text) + Rendered(end, newLineAfterEnd, pairs)
    {
      var e := Apply(end, pairs);
      ss.Append(e);
      if newLineAfterEnd {
        ss.Append("\n");
      }
    }

    method Write(ss: Stream, pairs: seq<Pair>)
      requires NonEmptyKeys(pairs)
      modifies ss
      ensures ss.text
           == old(ss.text) + Rendered(start, newLineAfterStart, pairs) + Rendered(end, newLineAfterEnd, pairs)
    {
      WriteStart(ss, pairs);
      WriteEnd(ss, pairs);
    }
  }

  /** Writes the start when it is constructed and the end when it goes out of scope. */
  class AutoScope {
    const ss: Stream
    const template: Template
    const pairs: seq<Pair>

    constructor (ss: Stream, template: Template, pairs: seq<Pair>)
      requires NonEmptyKeys(pairs)
      modifies ss
      ensures this.ss == ss && this.template == template && this.pairs == pairs
      ensures ss.text == old(ss.text) + Rendered(template.start, template.newLineAfterStart, pairs)
    {
      this.ss, this.template, this.pairs := ss, template, pairs;
      new;
      template.WriteStart(ss, pairs);
    }

    method Close()
      requires NonEmptyKeys(pairs)
      modifies ss
      ensures ss.text == old(ss.text) + Rendered(template.end, template.newLineAfterEnd, pairs)
    {
      template.WriteEnd(ss, pairs);
    }
  }

  const ROW_TEXT := "${{row_text}}"

  /** One cell of the log page. */
  function Cell(text: string, cell: Template): string {
    var b := [Pair(ROW_TEXT, text)];
    Rendered(cell.start, cell.newLineAfterStart, b) + Rendered(cell.end, cell.newLineAfterEnd, b)
  }

  function Cells(cells: seq<string>, cell: Template): string {
    if cells == [] then "" else Cells(cells[..|cells|-1], cell) + Cell(cells[|cells|-1], cell)
  }

  /** One row of the log page: its cells between the start and the end of its scope. */
  function Row(cells: seq<string>, row: Template, cell: Template): string {
    Rendered(row.start, row.newLineAfterStart, []) + Cells(cells, cell) + Rendered(row.end, row.newLineAfterEnd, [])
  }

  function Rows(rows: seq<seq<string>>, row: Template, cell: Template): string {
    if rows == [] then "" else Rows(rows[..|rows|-1], row, cell) + Row(rows[|rows|-1], row, cell)
  }

  /** What is written is the text with its tokens filled in, then the line end if there is to be one. */
  lemma RenderedFills(segments: seq<Segment>, newLine: bool, bindings: seq<Binding>)
    requires Clean(segments) && CleanBindings(bindings)
    ensures Rendered(Print(segments), newLine, TokenPairs(bindings))
      == if newLine then Print(FillAll(segments, bindings)) + "\n" else Print(FillAll(segments, bindings))
  {
    SubstituteFillsAll(segments, bindings);
  }

  lemma RowTextPair(text: string) returns (b: seq<Binding>)
    ensures b == [Binding("row_text", text)] && TokenPairs(b) == [Pair(ROW_TEXT, text)]
    ensures '$' !in text ==> CleanBindings(b)
  {
    b := [Binding("row_text", text)];
    assert b[..0] == [];
    assert TokenText("row_text") == ROW_TEXT;
  }

  lemma FilledCell(text: string, cell: Template, start: seq<Segment>, end: seq<Segment>, b: seq<Binding>)
    requires cell.start == Print(start) && cell.end == Print(end) && Clean(start) && Clean(end)
    requires CleanBindings(b) && TokenPairs(b) == [Pair(ROW_TEXT, text)]
    ensures Cell(text, cell) ==
      (Print(FillAll(start, b)) + (if cell.newLineAfterStart then "\n" else "")) +
      (Print(FillAll(end, b)) + (if cell.newLineAfterEnd then "\n" else ""))
  {
    RenderedFills(start, cell.newLineAfterStart, b);
    RenderedFills(end, cell.newLineAfterEnd, b);
  }

  /** A cell is its template's start and end with the text in place of the `row_text` tokens. */
  lemma CellFills(text: string, cell: Template, start: seq<Segment>, end: seq<Segment>) returns (b: seq<Binding>)
    requires cell.start == Print(start) && cell.end == Print(end) && Clean(start) && Clean(end) && '$' !in text
    ensures b == [Binding("row_text", text)]
    ensures Cell(text, cell) ==
      (Print(FillAll(start, b)) + (if cell.newLineAfterStart then "\n" else "")) +
      (Print(FillAll(end, b)) + (if cell.newLineAfterEnd then "\n" else ""))
  {
    b := RowTextPair(text);
    FilledCell(text, cell, start, end, b);
  }

  /** The cells come in order, each once. */
  lemma {:induction false} CellsConcat(a: seq<string>, b: seq<string>, cell: Template)
    ensures Cells(a + b, cell) == Cells(a, cell) + Cells(b, cell)
    ensures |a| == 1 ==> Cells(a, cell) == Cell(a[0], cell)
    decreases |b|
  {
    assert |a| == 1 ==> a[..0] == [];
    if b == [] {
      assert a + b == a;
    } else {
      assert (a + b)[..|a + b|-1] == a + b[..|b|-1];
      CellsConcat(a, b[..|b|-1], cell);
    }
  }

  /** A row is the start of its template, the cells and the end, with the line ends that the template asks for. */
  lemma RowSurroundsCells(cells: seq<string>, row: Template, cell: Template)
    ensures Row(cells, row, cell) ==
      row.start + (if row.newLineAfterStart then "\n" else "") + Cells(cells, cell)
      + (row.end + (if row.newLineAfterEnd then "\n" else ""))
  {
  }

  /** The rows come in order, each once. */
  lemma {:induction false} RowsConcat(a: seq<seq<string>>, b: seq<seq<string>>, row: Template, cell: Template)
    ensures Rows(a + b, row, cell) == Rows(a, row, cell) + Rows(b, row, cell)
    ensures |a| == 1 ==> Rows(a, row, cell) == Row(a[0], row, cell)
    decreases |b|
  {
    assert |a| == 1 ==> a[..0] == [];
    if b == [] {
      assert a + b == a;
    } else {
      assert (a + b)[..|a + b|-1] == a + b[..|b|-1];
      RowsConcat(a, b[..|b|-1], row, cell);
    }
  }

  method WriteCells(ss: Stream, cells: seq<string>, cell: Template)
    modifies ss
    ensures ss.text == old(ss.text) + Cells(cells, cell)
  {
    ghost var before := ss.text;
    for i := 0 to |cells|
      invariant ss.text == before + Cells(cells[..i], cell)
    {
      assert cells[..i + 1][..i] == cells[..i];
      cell.Write(ss, [Pair(ROW_TEXT, cells[i])]);
    }
    assert cells[..|cells|] == cells;
  }

  method WriteRow(ss: Stream, cells: seq<string>, row: Template, cell: Template)
    modifies ss
    ensures ss.text == old(ss.text) + Row(cells, row, cell)
  {
    var scope := new AutoScope(ss, row, []);
    WriteCells(ss, cells, cell);
    scope.Close();
  }

  method WriteRows(ss: Stream, rows: seq<seq<string>>, row: Template, cell: Template)
    modifies ss
    ensures ss.text == old(ss.text) + Rows(rows, row, cell)
  {
    ghost var before := ss.text;
    for i := 0 to |rows|
      invariant ss.text == before + Rows(rows[..i], row, cell)
    {
      assert rows[..i + 1][..i] == rows[..i];
      WriteRow(ss, rows[i], row, cell);
    }
    assert rows[..|rows|] == rows;
  }
}
