/** The backend list as JSON: which rows get a comma, when a running sum of lengths decides it. */
module Backends {
  import opened Bytes

  type Line = seq<byte>

  // ---- Lines ---------------------------------------------------------------------------------

  function SkipNewlines(raw: seq<byte>, pos: nat): (r: nat)
    requires pos <= |raw|
    ensures pos <= r <= |raw| && (r < |raw| ==> raw[r] != NEWLINE)
    decreases |raw| - pos
  {
    if pos < |raw| && raw[pos] == NEWLINE then SkipNewlines(raw, pos + 1) else pos
  }

  function TokenEnd(raw: seq<byte>, pos: nat): (r: nat)
    requires pos <= |raw|
    ensures pos <= r <= |raw| && (r < |raw| ==> raw[r] == NEWLINE)
    ensures pos < |raw| && raw[pos] != NEWLINE ==> pos < r
    decreases |raw| - pos
  {
    if pos < |raw| && raw[pos] != NEWLINE then TokenEnd(raw, pos + 1) else pos
  }

  /** The lines that are not empty: the tokens of strtok(raw, "\n"). */
  function Lines(raw: seq<byte>, pos: nat): seq<Line>
    requires pos <= |raw|
    decreases |raw| - pos
  {
    var s := SkipNewlines(raw, pos);
    if s == |raw| then [] else [raw[s..TokenEnd(raw, s)]] + Lines(raw, TokenEnd(raw, s))
  }

  function Newlines(raw: seq<byte>, pos: nat): nat
    requires pos <= |raw|
    decreases |raw| - pos
  {
    if pos == |raw| then 0 else (if raw[pos] == NEWLINE then 1 else 0) + Newlines(raw, pos + 1)
  }

  function Total(lines: seq<Line>): nat {
    if lines == [] then 0 else Total(lines[..|lines| - 1]) + |lines[|lines| - 1]|
  }

  lemma {:induction false} TotalOfRest(lines: seq<Line>)
    requires lines != []
    ensures Total(lines) == |lines[0]| + Total(lines[1..])
  {
    if |lines| > 1 {
      TotalOfRest(lines[..|lines| - 1]);
      assert lines[..|lines| - 1][1..] == lines[1..][..|lines| - 2];
    }
  }

  lemma {:induction false} NewlinesSkipped(raw: seq<byte>, pos: nat)
    requires pos <= |raw|
    ensures Newlines(raw, pos) == SkipNewlines(raw, pos) - pos + Newlines(raw, SkipNewlines(raw, pos))
    decreases |raw| - pos
  {
    if pos < |raw| && raw[pos] == NEWLINE { NewlinesSkipped(raw, pos + 1); }
  }

  lemma {:induction false} NoneInLine(raw: seq<byte>, pos: nat)
    requires pos <= |raw|
    ensures Newlines(raw, pos) == Newlines(raw, TokenEnd(raw, pos))
    decreases |raw| - pos
  {
    if pos < |raw| && raw[pos] != NEWLINE { NoneInLine(raw, pos + 1); }
  }

  /** Every byte is in a line or is a newline. */
  lemma {:induction false} LengthSplits(raw: seq<byte>, pos: nat)
    requires pos <= |raw|
    ensures |raw| - pos == Total(Lines(raw, pos)) + Newlines(raw, pos)
    decreases |raw| - pos
  {
    var s := SkipNewlines(raw, pos);
    NewlinesSkipped(raw, pos);
    if s < |raw| {
      var e := TokenEnd(raw, s);
      NoneInLine(raw, s);
      LengthSplits(raw, e);
      var lines := Lines(raw, pos);
      TotalOfRest(lines);
      assert lines[1..] == Lines(raw, e);
    }
  }

  /** strtok(): the next line from pos on, and where it ends. */
  method Strtok(raw: seq<byte>, pos: nat) returns (token: Option<Line>, next: nat)
    requires pos <= |raw|
    ensures next <= |raw| && (token.None? <==> Lines(raw, pos) == [])
    ensures token.Some? ==> pos < next && Lines(raw, pos) == [token.value] + Lines(raw, next)
  {
    var s := pos;
    while s < |raw| && raw[s] == NEWLINE
      invariant pos <= s <= |raw| && SkipNewlines(raw, s) == SkipNewlines(raw, pos)
    {
      s := s + 1;
    }
    if s == |raw| {
      return None, s;
    }
    next := s;
    while next < |raw| && raw[next] != NEWLINE
      invariant s <= next <= |raw| && TokenEnd(raw, next) == TokenEnd(raw, s)
    {
      next := next + 1;
    }
    token := Some(raw[s..next]);
  }

  // ---- Rows and commas -------------------------------------------------------------------------

  datatype Piece = Row(line: Line) | Comma

  /** The first n lines: the header gives nothing, each other line a row, with a comma where `commas` says so. */
  function Pieces(lines: seq<Line>, commas: seq<bool>, n: nat): seq<Piece>
    requires n <= |lines| == |commas|
  {
    if n <= 1 then []
    else Pieces(lines, commas, n - 1) + [Row(lines[n - 1])] + if commas[n - 1] then [Comma] else []
  }

  /** The rows alone. */
  function RowsOf(pieces: seq<Piece>): seq<Line> {
    if pieces == [] then []
    else
      var n := |pieces| - 1;
      RowsOf(pieces[..n]) + if pieces[n].Row? then [pieces[n].line] else []
  }

  lemma PieceMore(pieces: seq<Piece>, piece: Piece)
    ensures RowsOf(pieces + [piece]) == RowsOf(pieces) + if piece.Row? then [piece.line] else []
  {
    assert (pieces + [piece])[..|pieces|] == pieces;
  }

  lemma RowMore(pieces: seq<Piece>, line: Line, comma: bool)
    ensures RowsOf(pieces + [Row(line)] + if comma then [Comma] else []) == RowsOf(pieces) + [line]
  {
    var p := pieces + [Row(line)];
    PieceMore(pieces, Row(line));
    if comma { PieceMore(p, Comma); } else { assert p + [] == p; }
  }

  /** Whatever the commas, the rows are the lines behind the header, whole and in order. */
  lemma {:induction false} RowsAreLines(lines: seq<Line>, commas: seq<bool>, n: nat)
    requires 1 <= n <= |lines| == |commas|
    ensures RowsOf(Pieces(lines, commas, n)) == lines[1..n]
    decreases n
  {
    if n > 1 {
      RowsAreLines(lines, commas, n - 1);
      RowMore(Pieces(lines, commas, n - 1), lines[n - 1], commas[n - 1]);
      OneLineMore(lines, n);
    }
  }

  lemma OneLineMore(lines: seq<Line>, n: nat)
    requires 1 < n <= |lines|
    ensures lines[1..n] == lines[1..n - 1] + [lines[n - 1]]
  {
  }

  /** What the code compares with the length of the text: the header's length is in the sum twice. */
  function Sum(lines: seq<Line>, i: nat): nat
    requires i < |lines|
  {
    |lines[0]| + Total(lines[..i + 1])
  }

  function Tested(lines: seq<Line>, length: nat): seq<bool> {
    seq(|lines|, i requires 0 <= i < |lines| => Sum(lines, i) < length)
  }

  /** Between rows, and nowhere else. */
  function Separating(lines: seq<Line>): seq<bool> {
    seq(|lines|, i requires 0 <= i < |lines| => i < |lines| - 1)
  }

  /** The body of the loop for a row. */
  method PutRow(out: seq<Piece>, tmp: Line, comma: bool) returns (more: seq<Piece>)
    ensures more == out + [Row(tmp)] + if comma then [Comma] else []
  {
    more := out + [Row(tmp)];
    if comma {
      more := more + [Comma];
    }
  }

  ghost predicate TooLong(lines: seq<Line>) { exists i :: 0 <= i < |lines| && |lines[i]| >= 1000 }

  /** The state at the head of the loop: `cont` lines are done. */
  ghost predicate At(lines: seq<Line>, length: nat, tokens: Option<Line>, rest: seq<Line>,
                     cont: nat, sum: nat, out: seq<Piece>)
  {
    && cont <= |lines| && 0 < |lines|
    && (tokens.Some? ==> lines[cont..] == [tokens.value] + rest) && (tokens.None? ==> cont == |lines|)
    && !TooLong(lines[..cont])
    && sum == |lines[0]| + Total(lines[..cont]) && out == Pieces(lines, Tested(lines, length), cont)
  }

  /** vbackends_show_json() between its brackets; None is strlen(NULL), or a line that does not fit
      into tmp. */
  method ShowJson(raw: seq<byte>) returns (json: Option<seq<Piece>>)
    ensures json.None? <==> Lines(raw, 0) == [] || TooLong(Lines(raw, 0))
    ensures json.Some? ==> json.value == Pieces(Lines(raw, 0), Tested(Lines(raw, 0), |raw|), |Lines(raw, 0)|)
    ensures json.Some? ==> RowsOf(json.value) == Lines(raw, 0)[1..]
  {
    ghost var lines := Lines(raw, 0);
    var tokens, pos := Strtok(raw, 0);
    if tokens.None? {
      return None;
    }
    assert lines[..0] == [] && lines[0..] == lines;
    json := Rows(raw, tokens, pos, lines);
    RowsAreLines(lines, Tested(lines, |raw|), |lines|);
    assert lines[1..|lines|] == lines[1..];
  }

  method Rows(raw: seq<byte>, first: Option<Line>, start: nat, ghost lines: seq<Line>)
    returns (json: Option<seq<Piece>>)
    requires first.Some? && start <= |raw| && lines == [first.value] + Lines(raw, start)
    ensures json.None? <==> TooLong(lines)
    ensures json.Some? ==> json.value == Pieces(lines, Tested(lines, |raw|), |lines|)
  {
    var tokens, pos: nat := first, start;
    var sum: nat, cont: nat, out: seq<Piece> := |tokens.value|, 0, [];
    assert lines[..0] == [] && lines[0..] == lines;
    while tokens.Some?
      invariant pos <= |raw| && At(lines, |raw|, tokens, Lines(raw, pos), cont, sum, out)
      decreases |lines| - cont
    {
      var tmp := tokens.value;
      RestOf(lines, cont, tmp, Lines(raw, pos));
      if |tmp| >= 1000 {
        return None;
      }
      NotTooLong(lines, cont);
      tokens, pos := Strtok(raw, pos);
      sum := sum + |tmp|;
      if cont > 0 {
        out := PutRow(out, tmp, sum < |raw|);
      }
      cont := cont + 1;
    }
    assert lines[..cont] == lines;
    json := Some(out);
  }

  lemma NotTooLong(lines: seq<Line>, k: nat)
    requires k < |lines| && |lines[k]| < 1000 && !TooLong(lines[..k])
    ensures !TooLong(lines[..k + 1])
  {
  }

  lemma RestOf(lines: seq<Line>, k: nat, head: Line, rest: seq<Line>)
    requires k <= |lines| && lines[k..] == [head] + rest
    ensures k < |lines| && head == lines[k] && rest == lines[k + 1..]
    ensures Total(lines[..k + 1]) == Total(lines[..k]) + |head|
  {
    assert lines[k..][0] == head && lines[k..][1..] == rest;
    assert lines[..k + 1][..k] == lines[..k];
  }

  // ---- When the commas separate --------------------------------------------------------------------

  /** The pieces tell the commas. */
  lemma {:induction false} CommasShow(lines: seq<Line>, f: seq<bool>, g: seq<bool>, n: nat)
    requires n <= |lines| == |f| == |g|
    ensures Pieces(lines, f, n) == Pieces(lines, g, n) <==> forall i :: 1 <= i < n ==> f[i] == g[i]
  {
    if n > 1 {
      CommasShow(lines, f, g, n - 1);
      var p, q := Pieces(lines, f, n), Pieces(lines, g, n);
      assert p[|p| - 1] == (if f[n - 1] then Comma else Row(lines[n - 1]));
      assert q[|q| - 1] == (if g[n - 1] then Comma else Row(lines[n - 1]));
      if p == q {
        var k := if f[n - 1] then 2 else 1;
        assert Pieces(lines, f, n - 1) == p[..|p| - k] == Pieces(lines, g, n - 1);
      }
    }
  }

  lemma {:induction false} SumsGrow(lines: seq<Line>, i: nat, j: nat)
    requires i <= j <= |lines|
    ensures Total(lines[..i]) <= Total(lines[..j])
    decreases j
  {
    if i < j {
      SumsGrow(lines, i, j - 1);
      assert lines[..j][..j - 1] == lines[..j - 1];
    }
  }

  /** With a header of length h, at least two rows, a last row of length r and n newlines in the
      text, the commas separate the rows exactly when n <= h < r + n. */
  lemma CommasSeparateIff(raw: seq<byte>)
    requires |Lines(raw, 0)| >= 3
    ensures var lines := Lines(raw, 0);
      var h, r, n := |lines[0]|, |lines[|lines| - 1]|, Newlines(raw, 0);
      Pieces(lines, Tested(lines, |raw|), |lines|) == Pieces(lines, Separating(lines), |lines|) <==> n <= h < r + n
  {
    var lines := Lines(raw, 0);
    var m := |lines|;
    LengthSplits(raw, 0);
    CommasShow(lines, Tested(lines, |raw|), Separating(lines), m);
    assert lines[..m] == lines;
    assert lines[..m][..m - 1] == lines[..m - 1];
    forall i | 1 <= i < m - 1 ensures Sum(lines, i) <= Sum(lines, m - 2) {
      SumsGrow(lines, i + 1, m - 1);
    }
    assert Tested(lines, |raw|)[m - 2] == (Sum(lines, m - 2) < |raw|);
    assert Tested(lines, |raw|)[m - 1] == (Sum(lines, m - 1) < |raw|);
  }

  /** With one row there is no comma exactly when the text has no more newlines than the header has bytes. */
  lemma OneRowIff(raw: seq<byte>)
    requires |Lines(raw, 0)| == 2
    ensures var lines := Lines(raw, 0);
      Pieces(lines, Tested(lines, |raw|), 2) == Pieces(lines, Separating(lines), 2) <==> Newlines(raw, 0) <= |lines[0]|
  {
    var lines := Lines(raw, 0);
    LengthSplits(raw, 0);
    CommasShow(lines, Tested(lines, |raw|), Separating(lines), 2);
    assert lines[..2] == lines;
  }

  /** A header of h bytes, then "a" and "b". */
  lemma TwoRows(raw: seq<byte>, h: nat)
    requires |raw| == h + 4 && h > 0 && (forall i :: 0 <= i < h ==> raw[i] != NEWLINE) &&
      raw[h..] == [NEWLINE, 97, NEWLINE, 98]
    ensures Lines(raw, 0) == [raw[..h], [97], [98]]
  {
    assert forall i :: 0 <= i < 4 ==> raw[h + i] == raw[h..][i];
    assert raw[h + 0] == raw[h + 2] == NEWLINE && raw[h + 1] == 97 && raw[h + 3] == 98;
    LineIs(raw, 0, h);
    assert Lines(raw, h + 4) == [];
    ShortLine(raw, h + 2);
    ShortLine(raw, h);
    assert Lines(raw, 0) == [raw[..h]] + Lines(raw, h);
  }

  /** One byte between two newlines, or between a newline and the end. */
  lemma ShortLine(raw: seq<byte>, pos: nat)
    requires pos + 1 < |raw| && raw[pos] == NEWLINE && raw[pos + 1] != NEWLINE
    requires pos + 2 < |raw| ==> raw[pos + 2] == NEWLINE
    ensures Lines(raw, pos) == [[raw[pos + 1]]] + Lines(raw, pos + 2)
  {
    assert SkipNewlines(raw, pos + 1) == pos + 1;
    assert TokenEnd(raw, pos + 2) == pos + 2;
    assert raw[pos + 1..pos + 2] == [raw[pos + 1]];
  }

  lemma {:induction false} LineIs(raw: seq<byte>, pos: nat, e: nat)
    requires pos <= e < |raw| && raw[e] == NEWLINE && forall i :: pos <= i < e ==> raw[i] != NEWLINE
    ensures TokenEnd(raw, pos) == e
    decreases e - pos
  {
    if pos < e { LineIs(raw, pos + 1, e); }
  }

  /** "hhh", "a", "b": the comma between the rows is missing. */
  lemma CommaCanBeMissing()
    ensures var raw := [104, 104, 104, NEWLINE, 97, NEWLINE, 98]; var lines := Lines(raw, 0);
      |lines| == 3 && Pieces(lines, Tested(lines, |raw|), 3) == [Row([97]), Row([98])]
  {
    var raw := [104, 104, 104, NEWLINE, 97, NEWLINE, 98];
    TwoRows(raw, 3);
    Totals(raw[..3]);
    var lines := Lines(raw, 0);
    assert Sum(lines, 1) == 7 && Sum(lines, 2) == 8;
    assert Pieces(lines, Tested(lines, 7), 2) == [Row([97])];
  }

  /** "h", "a", "b": there is a comma behind the last row. */
  lemma CommaCanBeTooMany()
    ensures var raw := [104, NEWLINE, 97, NEWLINE, 98]; var lines := Lines(raw, 0);
      |lines| == 3 && Pieces(lines, Tested(lines, |raw|), 3) == [Row([97]), Comma, Row([98]), Comma]
  {
    var raw := [104, NEWLINE, 97, NEWLINE, 98];
    TwoRows(raw, 1);
    Totals(raw[..1]);
    var lines := Lines(raw, 0);
    assert Sum(lines, 1) == 3 && Sum(lines, 2) == 4;
    assert Pieces(lines, Tested(lines, 5), 2) == [Row([97]), Comma];
  }

  lemma Totals(header: Line)
    ensures var lines := [header, [97], [98]];
      Total(lines[..1]) == |header| && Total(lines[..2]) == |header| + 1 && Total(lines[..3]) == |header| + 2
  {
    var lines: seq<Line> := [header, [97], [98]];
    assert lines[..3][..2] == lines[..2] && lines[..2][..1] == lines[..1] && lines[..1][..0] == [];
  }
}
