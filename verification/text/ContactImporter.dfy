/** Reading contact files: one row of comma-separated cells, and the folded
    lines of a vCard. */
module ContactImporter {
  const QUOTE: char := '"'

  // -------------------------------------------------------------------------
  // CSV rows
  // -------------------------------------------------------------------------

  /** The cells of the rest `s` of a row, inside the cell begun with `cell`. */
  function Cells(s: string, cell: string, inQuotes: bool): (r: seq<string>)
    ensures r != []
    decreases |s|
  {
    if s == "" then [cell]
    else if inQuotes then
      if s[0] != QUOTE then Cells(s[1..], cell + [s[0]], true)
      else if |s| > 1 && s[1] == QUOTE then Cells(s[2..], cell + [QUOTE], true)
      else Cells(s[1..], cell, false)
    else if s[0] == ',' then [cell] + Cells(s[1..], "", false)
    else if s[0] == QUOTE && cell == "" then Cells(s[1..], cell, true)
    else Cells(s[1..], cell + [s[0]], false)
  }

  method SplitCsvRow(line: string) returns (out: seq<string>)
    ensures out == Cells(line, "", false)
  {
    out := [];
    var cell, inQuotes, i := "", false, 0;
    assert line[0..] == line;
    while i < |line|
      invariant 0 <= i <= |line|
      invariant out + Cells(line[i..], cell, inQuotes) == Cells(line, "", false)
    {
      var c := line[i];
      assert line[i..][1..] == line[i + 1..];
      if inQuotes {
        if c == QUOTE {
          if i + 1 < |line| && line[i + 1] == QUOTE {
            assert line[i..][2..] == line[i + 2..];
            cell := cell + [QUOTE];
            i := i + 1;
          } else {
            inQuotes := false;
          }
        } else {
          cell := cell + [c];
        }
      } else {
        if c == ',' {
          out := out + [cell];
          cell := "";
        } else if c == QUOTE && cell == "" {
          inQuotes := true;
        } else {
          cell := cell + [c];
        }
      }
      i := i + 1;
    }
    out := out + [cell];
  }

  /** A writer after section 2 of RFC 4180: inner quotes are doubled. */
  function Doubled(cell: string): string {
    if cell == "" then ""
    else (if cell[0] == QUOTE then [QUOTE, QUOTE] else [cell[0]]) + Doubled(cell[1..])
  }

  predicate MayStayBare(cell: string) {
    ',' !in cell && (cell == "" || cell[0] != QUOTE)
  }

  datatype Cell = Bare(text: string) | Quoted(text: string)

  predicate WellWritten(c: Cell) {
    c.Bare? ==> MayStayBare(c.text)
  }

  function Written(c: Cell): string {
    match c
    case Bare(t) => t
    case Quoted(t) => [QUOTE] + Doubled(t) + [QUOTE]
  }

  function Row(cells: seq<Cell>): string
    requires cells != []
  {
    if |cells| == 1 then Written(cells[0]) else Written(cells[0]) + "," + Row(cells[1..])
  }

  function Texts(cells: seq<Cell>): seq<string> {
    if cells == [] then [] else [cells[0].text] + Texts(cells[1..])
  }

  /** What may follow a cell: the end of the row, or a comma. */
  predicate CellEnd(rest: string) {
    rest == "" || rest[0] == ','
  }

  lemma {:induction false} ReadDoubled(t: string, cell: string, rest: string)
    requires CellEnd(rest)
    ensures Cells(Doubled(t) + [QUOTE] + rest, cell, true) == Cells(rest, cell + t, false)
    decreases |t|
  {
    var s := Doubled(t) + [QUOTE] + rest;
    if t == "" {
      assert s[1..] == rest && cell + t == cell;
    } else {
      ReadDoubled(t[1..], cell + [t[0]], rest);
      assert cell + [t[0]] + t[1..] == cell + t;
      var tail := Doubled(t[1..]) + [QUOTE] + rest;
      if t[0] == QUOTE {
        assert s == [QUOTE, QUOTE] + tail;
        assert s[2..] == tail;
      } else {
        assert s == [t[0]] + tail;
        assert s[1..] == tail;
      }
    }
  }

  lemma {:induction false} ReadBare(t: string, cell: string, rest: string)
    requires ',' !in t && (cell == "" ==> t == "" || t[0] != QUOTE)
    ensures Cells(t + rest, cell, false) == Cells(rest, cell + t, false)
    decreases |t|
  {
    if t == "" {
      assert t + rest == rest && cell + t == cell;
    } else {
      assert t[0] in t;
      assert (t + rest)[1..] == t[1..] + rest;
      ReadBare(t[1..], cell + [t[0]], rest);
      assert cell + [t[0]] + t[1..] == cell + t;
    }
  }

  lemma ReadCell(c: Cell, rest: string)
    requires WellWritten(c) && CellEnd(rest)
    ensures Cells(Written(c) + rest, "", false) == Cells(rest, c.text, false)
  {
    match c
    case Bare(t) =>
      ReadBare(t, "", rest);
      assert "" + t == t;
    case Quoted(t) =>
      var s := Written(c) + rest;
      assert s[1..] == Doubled(t) + [QUOTE] + rest;
      ReadDoubled(t, "", rest);
      assert "" + t == t;
  }

  /** Reading gives back every row, however the writer chose between bare and
      quoted cells. */
  lemma {:induction false} RowRoundTrip(cells: seq<Cell>)
    requires cells != [] && forall c | c in cells :: WellWritten(c)
    ensures Cells(Row(cells), "", false) == Texts(cells)
    decreases |cells|
  {
    var c, rest := cells[0], cells[1..];
    assert c in cells;
    if rest == [] {
      ReadCell(c, "");
      assert Written(c) + "" == Written(c);
      assert Texts(rest) == [];
    } else {
      var tail := "," + Row(rest);
      ReadCell(c, tail);
      assert Written(c) + "," + Row(rest) == Written(c) + tail;
      assert tail[1..] == Row(rest);
      forall d | d in rest ensures WellWritten(d) { assert d in cells; }
      RowRoundTrip(rest);
    }
  }

  function TotalLength(cells: seq<string>): nat {
    if cells == [] then 0 else |cells[0]| + TotalLength(cells[1..])
  }

  lemma {:induction false} CellsNoLonger(s: string, cell: string, inQuotes: bool)
    ensures TotalLength(Cells(s, cell, inQuotes)) <= |cell| + |s|
    decreases |s|
  {
    if s == "" {
      assert TotalLength([cell][1..]) == 0;
    } else if inQuotes {
      if s[0] != QUOTE { CellsNoLonger(s[1..], cell + [s[0]], true); }
      else if |s| > 1 && s[1] == QUOTE { CellsNoLonger(s[2..], cell + [QUOTE], true); }
      else { CellsNoLonger(s[1..], cell, false); }
    } else if s[0] == ',' {
      CellsNoLonger(s[1..], "", false);
      assert ([cell] + Cells(s[1..], "", false))[1..] == Cells(s[1..], "", false);
    } else if s[0] == QUOTE && cell == "" {
      CellsNoLonger(s[1..], cell, true);
    } else {
      CellsNoLonger(s[1..], cell + [s[0]], false);
    }
  }

  /** Quoting is needed exactly where the writer must quote: an unquoted cell
      comes back as itself if and only if it may stay bare. */
  lemma BareCellExact(t: string)
    ensures Cells(t, "", false) == [t] <==> MayStayBare(t)
  {
    if MayStayBare(t) {
      ReadBare(t, "", "");
      assert t + "" == t && "" + t == t;
    } else if t != "" && t[0] == QUOTE {
      CellsNoLonger(t[1..], "", true);
      assert TotalLength([t]) == |t| by { assert [t][1..] == []; }
    } else {
      CommaSplits(t, "");
    }
  }

  lemma {:induction false} CommaSplits(t: string, cell: string)
    requires ',' in t && (cell == "" ==> t[0] != QUOTE)
    ensures |Cells(t, cell, false)| > 1
    decreases |t|
  {
    if t[0] != ',' { CommaSplits(t[1..], cell + [t[0]]); }
  }

  // -------------------------------------------------------------------------
  // Folded lines
  // -------------------------------------------------------------------------

  predicate IsBreak(c: char) {
    c == '\r' || c == '\n'
  }

  /** The lines of the rest `s` of a text, inside the line begun with `line`.
      CR LF, LF and CR end a line; CR LF is one break. */
  function Lines(s: string, line: string): (r: seq<string>)
    ensures r != []
    decreases |s|
  {
    if s == "" then [line]
    else if |s| > 1 && s[0] == '\r' && s[1] == '\n' then [line] + Lines(s[2..], "")
    else if IsBreak(s[0]) then [line] + Lines(s[1..], "")
    else Lines(s[1..], line + [s[0]])
  }

  predicate Continues(line: string) {
    line != "" && (line[0] == ' ' || line[0] == '\t')
  }

  /** `raw` unfolded onto the lines that `out` already has. */
  function Unfolded(out: seq<string>, raw: seq<string>): seq<string>
    decreases |raw|
  {
    if raw == [] then out
    else if out != [] && Continues(raw[0]) then
      Unfolded(out[|out| - 1 := out[|out| - 1] + raw[0][1..]], raw[1..])
    else Unfolded(out + [raw[0]], raw[1..])
  }

  lemma Associative(a: seq<string>, b: seq<string>, c: seq<string>)
    ensures (a + b) + c == a + (b + c)
  {
  }

  method SplitText(text: string) returns (raw: seq<string>)
    ensures raw == Lines(text, "")
  {
    raw := [];
    var line, i := "", 0;
    assert text[0..] == text;
    while i < |text|
      invariant 0 <= i <= |text|
      invariant raw + Lines(text[i..], line) == Lines(text, "")
    {
      assert text[i..][1..] == text[i + 1..];
      if i + 1 < |text| && text[i] == '\r' && text[i + 1] == '\n' {
        assert text[i..][2..] == text[i + 2..];
        Associative(raw, [line], Lines(text[i + 2..], ""));
        raw, line, i := raw + [line], "", i + 2;
      } else if IsBreak(text[i]) {
        Associative(raw, [line], Lines(text[i + 1..], ""));
        raw, line, i := raw + [line], "", i + 1;
      } else {
        line, i := line + [text[i]], i + 1;
      }
    }
    raw := raw + [line];
  }

  method UnfoldLines(text: string) returns (out: seq<string>)
    ensures out == Unfolded([], Lines(text, ""))
  {
    var raw := SplitText(text);
    out := [];
    var k := 0;
    assert raw[0..] == raw;
    while k < |raw|
      invariant 0 <= k <= |raw|
      invariant Unfolded(out, raw[k..]) == Unfolded([], raw)
    {
      var line := raw[k];
      assert raw[k..][1..] == raw[k + 1..];
      if out != [] && line != "" && (line[0] == ' ' || line[0] == '\t') {
        out := out[|out| - 1 := out[|out| - 1] + line[1..]];
      } else {
        out := out + [line];
      }
      k := k + 1;
    }
  }

  /** A continuation: the blank that marks it, and its text. */
  datatype Piece = Piece(blank: char, text: string)

  /** A line cut at arbitrary points (section 3.2 of RFC 6350). */
  datatype Folded = Folded(first: string, more: seq<Piece>)

  datatype Break = CrLf | Lf | Cr

  function BreakText(b: Break): string {
    match b
    case CrLf => "\r\n"
    case Lf => "\n"
    case Cr => "\r"
  }

  function Joined(pieces: seq<Piece>): string {
    if pieces == [] then "" else pieces[0].text + Joined(pieces[1..])
  }

  function Logical(f: Folded): string {
    f.first + Joined(f.more)
  }

  function Logicals(fs: seq<Folded>): seq<string> {
    if fs == [] then [] else [Logical(fs[0])] + Logicals(fs[1..])
  }

  function Continuations(pieces: seq<Piece>): seq<string> {
    if pieces == [] then [] else [[pieces[0].blank] + pieces[0].text] + Continuations(pieces[1..])
  }

  function Physical(fs: seq<Folded>): seq<string> {
    if fs == [] then [] else [fs[0].first] + Continuations(fs[0].more) + Physical(fs[1..])
  }

  predicate Clean(s: string) {
    forall i | 0 <= i < |s| :: !IsBreak(s[i])
  }

  predicate Blanks(pieces: seq<Piece>) {
    forall i | 0 <= i < |pieces| :: pieces[i].blank == ' ' || pieces[i].blank == '\t'
  }

  /** Only the very first line may start with a blank of its own. */
  ghost predicate WellFolded(fs: seq<Folded>, started: bool) {
    forall i | 0 <= i < |fs| :: Blanks(fs[i].more) && (i > 0 || started ==> !Continues(fs[i].first))
  }

  lemma {:induction false} UnfoldPieces(out: seq<string>, pieces: seq<Piece>, rest: seq<string>)
    requires out != [] && Blanks(pieces)
    ensures Unfolded(out, Continuations(pieces) + rest)
            == Unfolded(out[|out| - 1 := out[|out| - 1] + Joined(pieces)], rest)
    decreases |pieces|
  {
    var last := |out| - 1;
    if pieces == [] {
      assert Continuations(pieces) + rest == rest;
      assert out[last] + "" == out[last] && out[last := out[last]] == out;
    } else {
      var raw := Continuations(pieces) + rest;
      var p := pieces[0];
      assert raw[0] == [p.blank] + p.text && raw[0][1..] == p.text;
      assert raw[1..] == Continuations(pieces[1..]) + rest;
      var next := out[last := out[last] + p.text];
      UnfoldPieces(next, pieces[1..], rest);
      assert out[last] + p.text + Joined(pieces[1..]) == out[last] + Joined(pieces);
      assert next[last := next[last] + Joined(pieces[1..])] == out[last := out[last] + Joined(pieces)];
    }
  }

  lemma UnfoldFirst(out: seq<string>, f: Folded, rest: seq<string>)
    requires Blanks(f.more) && (out != [] ==> !Continues(f.first))
    ensures Unfolded(out, [f.first] + Continuations(f.more) + rest) == Unfolded(out + [Logical(f)], rest)
  {
    var raw := [f.first] + Continuations(f.more) + rest;
    assert raw[0] == f.first && raw[1..] == Continuations(f.more) + rest;
    var grown := out + [f.first];
    UnfoldPieces(grown, f.more, rest);
    assert grown[|out| := f.first + Joined(f.more)] == out + [Logical(f)];
  }

  lemma PhysicalParts(fs: seq<Folded>, started: bool)
    requires fs != [] && WellFolded(fs, started)
    ensures Physical(fs) == [fs[0].first] + Continuations(fs[0].more) + Physical(fs[1..])
    ensures Logicals(fs) == [Logical(fs[0])] + Logicals(fs[1..])
    ensures Blanks(fs[0].more) && (started ==> !Continues(fs[0].first)) && WellFolded(fs[1..], true)
  {
    forall i | 0 <= i < |fs[1..]| ensures Blanks(fs[1..][i].more) && !Continues(fs[1..][i].first) {
      assert fs[1..][i] == fs[i + 1];
    }
  }

  lemma {:induction false} UnfoldPhysical(out: seq<string>, fs: seq<Folded>)
    requires WellFolded(fs, out != [])
    ensures Unfolded(out, Physical(fs)) == out + Logicals(fs)
    decreases |fs|
  {
    if fs == [] {
      assert out + [] == out;
    } else {
      hide Unfolded, Physical, Logicals, Logical, WellFolded, Continuations, Continues, Blanks;
      PhysicalParts(fs, out != []);
      UnfoldFirst(out, fs[0], Physical(fs[1..]));
      UnfoldPhysical(out + [Logical(fs[0])], fs[1..]);
      assert out + [Logical(fs[0])] + Logicals(fs[1..]) == out + ([Logical(fs[0])] + Logicals(fs[1..]));
    }
  }

  /** Lines with their breaks; the last line has none. */
  function Render(raw: seq<string>, breaks: seq<Break>): string
    requires |raw| == |breaks| + 1
    decreases |raw|
  {
    if breaks == [] then raw[0] else raw[0] + BreakText(breaks[0]) + Render(raw[1..], breaks[1..])
  }

  /** No CR meets an LF across an empty line: the two would read as one break. */
  ghost predicate BreaksApart(raw: seq<string>, breaks: seq<Break>)
    requires |raw| == |breaks| + 1
  {
    forall i | 0 <= i < |breaks| - 1 :: breaks[i] == Cr && raw[i + 1] == "" ==> breaks[i + 1] != Lf
  }

  lemma {:induction false} ReadLine(t: string, line: string, rest: string)
    requires Clean(t)
    ensures Lines(t + rest, line) == Lines(rest, line + t)
    decreases |t|
  {
    if t == "" {
      assert t + rest == rest && line + t == line;
    } else {
      assert (t + rest)[1..] == t[1..] + rest;
      ReadLine(t[1..], line + [t[0]], rest);
      assert line + [t[0]] + t[1..] == line + t;
    }
  }

  lemma RenderStart(raw: seq<string>, breaks: seq<Break>)
    requires |raw| == |breaks| + 1 && Clean(raw[0])
    ensures var s := Render(raw, breaks);
            s != "" && s[0] == '\n' ==> raw[0] == "" && breaks != [] && breaks[0] == Lf
  {
  }

  lemma {:induction false} RenderRoundTrip(raw: seq<string>, breaks: seq<Break>)
    requires |raw| == |breaks| + 1 && (forall i | 0 <= i < |raw| :: Clean(raw[i])) && BreaksApart(raw, breaks)
    ensures Lines(Render(raw, breaks), "") == raw
    decreases |raw|
  {
    var t := raw[0];
    assert "" + t == t;
    if breaks == [] {
      ReadLine(t, "", "");
      assert t + "" == t;
    } else {
      var rest := Render(raw[1..], breaks[1..]);
      var s := BreakText(breaks[0]) + rest;
      assert Render(raw, breaks) == t + s;
      ReadLine(t, "", s);
      RenderStart(raw[1..], breaks[1..]);
      assert s[|BreakText(breaks[0])|..] == rest;
      forall i | 0 <= i < |breaks[1..]| - 1
        ensures breaks[1..][i] == Cr && raw[1..][i + 1] == "" ==> breaks[1..][i + 1] != Lf
      {
        assert breaks[1..][i] == breaks[i + 1];
      }
      RenderRoundTrip(raw[1..], breaks[1..]);
      assert [t] + raw[1..] == raw;
    }
  }

  /** Reading never yields more lines than were written, and fewer if two
      breaks meet. */
  lemma {:induction false} RenderCount(raw: seq<string>, breaks: seq<Break>)
    requires |raw| == |breaks| + 1 && forall i | 0 <= i < |raw| :: Clean(raw[i])
    ensures |Lines(Render(raw, breaks), "")| <= |raw|
    ensures !BreaksApart(raw, breaks) ==> |Lines(Render(raw, breaks), "")| < |raw|
    decreases |raw|
  {
    var t := raw[0];
    assert "" + t == t;
    if breaks == [] {
      ReadLine(t, "", "");
      assert t + "" == t;
    } else {
      var rest := Render(raw[1..], breaks[1..]);
      var s := BreakText(breaks[0]) + rest;
      assert Render(raw, breaks) == t + s;
      ReadLine(t, "", s);
      assert s[|BreakText(breaks[0])|..] == rest;
      RenderStart(raw[1..], breaks[1..]);
      if breaks[0] == Cr && rest != "" && rest[0] == '\n' {
        Clash(raw, breaks);
      } else {
        RenderCount(raw[1..], breaks[1..]);
        LaterClash(raw, breaks);
      }
    }
  }

  /** A clash at the first break costs a line. */
  lemma Clash(raw: seq<string>, breaks: seq<Break>)
    requires |raw| == |breaks| + 1 && forall i | 0 <= i < |raw| :: Clean(raw[i])
    requires |breaks| >= 2 && breaks[0] == Cr && raw[1] == "" && breaks[1] == Lf
    ensures |Lines(Render(raw, breaks), "")| < |raw|
    decreases |raw|, 0
  {
    var rest := Render(raw[2..], breaks[2..]);
    assert raw[1..][1..] == raw[2..] && breaks[1..][1..] == breaks[2..];
    assert Render(raw[1..], breaks[1..]) == "\n" + rest;
    var s := "\r" + ("\n" + rest);
    assert Render(raw, breaks) == raw[0] + s;
    ReadLine(raw[0], "", s);
    assert s[2..] == rest;
    RenderCount(raw[2..], breaks[2..]);
  }

  lemma LaterClash(raw: seq<string>, breaks: seq<Break>)
    requires |raw| == |breaks| + 1 && breaks != []
    ensures !BreaksApart(raw, breaks) && !(|breaks| >= 2 && breaks[0] == Cr && raw[1] == "" && breaks[1] == Lf)
            ==> !BreaksApart(raw[1..], breaks[1..])
  {
    if BreaksApart(raw[1..], breaks[1..]) {
      forall i | 0 < i < |breaks| - 1 ensures breaks[i] == Cr && raw[i + 1] == "" ==> breaks[i + 1] != Lf {
        assert breaks[1..][i - 1] == breaks[i] && breaks[1..][i] == breaks[i + 1];
      }
    }
  }

  /** Breaks of different kinds may be mixed exactly as long as no CR meets an
      LF across an empty line. */
  lemma RenderRoundTripExact(raw: seq<string>, breaks: seq<Break>)
    requires |raw| == |breaks| + 1 && forall i | 0 <= i < |raw| :: Clean(raw[i])
    ensures Lines(Render(raw, breaks), "") == raw <==> BreaksApart(raw, breaks)
  {
    if BreaksApart(raw, breaks) { RenderRoundTrip(raw, breaks); } else { RenderCount(raw, breaks); }
  }

  /** Unfolding undoes any folding: wherever the lines were cut, whichever
      blanks mark the cuts and whichever breaks end the lines. */
  lemma UnfoldRoundTrip(fs: seq<Folded>, breaks: seq<Break>)
    requires |Physical(fs)| == |breaks| + 1
    requires WellFolded(fs, false) && BreaksApart(Physical(fs), breaks)
    requires forall i | 0 <= i < |Physical(fs)| :: Clean(Physical(fs)[i])
    ensures Unfolded([], Lines(Render(Physical(fs), breaks), "")) == Logicals(fs)
  {
    RenderRoundTrip(Physical(fs), breaks);
    UnfoldPhysical([], fs);
    assert [] + Logicals(fs) == Logicals(fs);
  }

  /** Breaks of one kind never clash. */
  lemma UniformBreaks(raw: seq<string>, breaks: seq<Break>, b: Break)
    requires |raw| == |breaks| + 1 && forall i | 0 <= i < |breaks| :: breaks[i] == b
    ensures BreaksApart(raw, breaks)
  {
  }
}
