/** The parser of Varnish's `param.show -l` output: a cursor that walks a C string, and a bounded
    buffer for the description. */
module Vparams {
  import opened Bytes

  const OPEN: byte := 91         // '['
  const CLOSE: byte := 93        // ']'
  const PAREN: byte := 41        // ')'

  const VALUE_IS: seq<byte> := [86, 97, 108, 117, 101, 32, 105, 115, 58, 32]                  // "Value is: "
  const DEFAULT_IS: seq<byte> := [68, 101, 102, 97, 117, 108, 116, 32, 105, 115, 58, 32]      // "Default is: "
  const MINIMUM_IS: seq<byte> := [77, 105, 110, 105, 109, 117, 109, 32, 105, 115, 58, 32]     // "Minimum is: "
  const MAXIMUM_IS: seq<byte> := [77, 97, 120, 105, 109, 117, 109, 32, 105, 115, 58, 32]      // "Maximum is: "
  const DEFAULT_MARK: seq<byte> := [32, 40, 100, 101, 102, 97, 117, 108, 116, 41]             // " (default)"
  const PARAGRAPH: seq<byte> := [92, 110, 92, 110]                                            // two escaped newlines

  predicate IsBlank(b: byte) { b == SPACE || b == TAB }

  /** A C string with its terminator (and nothing is said of what is behind an earlier one: no cursor goes there). */
  predicate Terminated(text: seq<byte>) {
    |text| > 0 && text[|text| - 1] == NUL
  }

  /** p stands at pos, in front of the terminator. */
  predicate At(text: seq<byte>, pos: nat, p: seq<byte>) {
    pos + |p| < |text| && forall i :: 0 <= i < |p| ==> text[pos + i] == p[i]
  }

  /** STARTS_WITH, for a p without NUL: byte by byte. */
  predicate StartsWith(text: seq<byte>, pos: nat, p: seq<byte>) { pos + |p| < |text| && SameFrom(text, pos, p, 0) }

  predicate SameFrom(text: seq<byte>, pos: nat, p: seq<byte>, k: nat)
    requires pos + |p| <= |text|
    decreases |p| - k
  {
    k >= |p| || (text[pos + k] == p[k] && SameFrom(text, pos, p, k + 1))
  }

  lemma {:induction false} SameFromIs(text: seq<byte>, pos: nat, p: seq<byte>, k: nat)
    requires pos + |p| <= |text|
    ensures SameFrom(text, pos, p, k) <==> forall i :: k <= i < |p| ==> text[pos + i] == p[i]
    decreases |p| - k
  {
    if k < |p| { SameFromIs(text, pos, p, k + 1); }
  }

  lemma StartsWithIs(text: seq<byte>, pos: nat, p: seq<byte>)
    ensures StartsWith(text, pos, p) <==> At(text, pos, p)
  {
    if pos + |p| < |text| { SameFromIs(text, pos, p, 0); }
  }

  // ---- Cursor movements ----------------------------------------------------------------------

  function Skip(text: seq<byte>, pos: nat): (r: nat)
    requires Terminated(text) && pos < |text|
    ensures pos <= r < |text| && !IsBlank(text[r])
    decreases |text| - pos
  {
    if IsBlank(text[pos]) then Skip(text, pos + 1) else pos
  }

  /** The end of the line: the next newline, or the terminator. */
  function LineEnd(text: seq<byte>, pos: nat): (r: nat)
    requires Terminated(text) && pos < |text|
    ensures pos <= r < |text| && (text[r] == NEWLINE || text[r] == NUL)
    decreases |text| - pos
  {
    if text[pos] == NEWLINE || text[pos] == NUL then pos else LineEnd(text, pos + 1)
  }

  lemma {:induction false} LineHasNoEnd(text: seq<byte>, pos: nat)
    requires Terminated(text) && pos < |text|
    ensures forall i :: pos <= i < LineEnd(text, pos) ==> text[i] != NEWLINE && text[i] != NUL
    decreases |text| - pos
  {
    if text[pos] != NEWLINE && text[pos] != NUL { LineHasNoEnd(text, pos + 1); }
  }

  /** skip_space(). */
  method SkipSpace(text: seq<byte>, pos: nat) returns (p: nat)
    requires Terminated(text) && pos < |text|
    ensures p == Skip(text, pos)
  {
    p := pos;
    while text[p] != NUL && IsBlank(text[p])
      invariant pos <= p < |text| && Skip(text, p) == Skip(text, pos)
      decreases |text| - p
    {
      p := p + 1;
    }
  }

  /** strchr() for a newline, and for the terminator where there is none. */
  method ToLineEnd(text: seq<byte>, pos: nat) returns (p: nat)
    requires Terminated(text) && pos < |text|
    ensures p == LineEnd(text, pos)
  {
    p := pos;
    while text[p] != NEWLINE && text[p] != NUL
      invariant pos <= p < |text| && LineEnd(text, p) == LineEnd(text, pos)
      decreases |text| - p
    {
      p := p + 1;
    }
  }

  /** Where c is last in s[1..k + 1]; 0 when it is not. */
  function LastIndex(s: seq<byte>, c: byte, k: nat): (r: nat)
    requires k < |s|
    ensures r <= k && (r > 0 ==> s[r] == c) && forall i :: r < i <= k ==> s[i] != c
  {
    if k == 0 || s[k] == c then k else LastIndex(s, c, k - 1)
  }

  /** strbchr(), for s behind b: the last c in front of s, but not at b; else NULL. */
  method Strbchr(text: seq<byte>, b: nat, s: nat, c: byte) returns (r: Option<nat>)
    requires b < s < |text|
    ensures r == (var k := LastIndex(text[b..s + 1], c, s - b); if k == 0 then None else Some(b + k))
  {
    var p := s;
    ghost var line := text[b..s + 1];
    while p > b
      invariant b <= p <= s && LastIndex(line, c, p - b) == LastIndex(line, c, s - b)
    {
      if text[p] == c {
        return Some(p);
      }
      p := p - 1;
    }
    r := None;
  }

  // ---- The description ---------------------------------------------------------------------------

  /** How a description is laid out in lines and empty lines. Malformed is where the parser's
      assertion that a line is not empty fails. */
  datatype Layout = Stop | Malformed | Break(rest: Layout) | Line(bytes: seq<byte>, rest: Layout)

  /** The layout of the text behind the newline at pos, and where the parser goes on. */
  function LayoutAt(text: seq<byte>, pos: nat): (r: (Layout, nat))
    requires Terminated(text) && pos < |text| && text[pos] == NEWLINE
    ensures pos < r.1 < |text|
    decreases |text| - pos
  {
    var p := pos + 1;
    if text[p] == NEWLINE && text[p + 1] == SPACE then
      var (l, next) := LayoutAt(text, p); (Break(l), next)
    else if text[p] == NEWLINE then (Stop, p + 1)
    else
      var q := Skip(text, p);
      var eol := LineEnd(text, q);
      if eol == q then (Malformed, q)
      else if text[eol] == NEWLINE then
        var (l, next) := LayoutAt(text, eol); (Line(text[q..eol], l), next)
      else (Line(text[q..eol], Stop), eol)
  }

  /** An empty line becomes two escaped newlines, the lines of a paragraph are joined by a space. */
  function Rendered(l: Layout, sep: seq<byte>): seq<byte> {
    match l
    case Stop => []
    case Malformed => []
    case Break(rest) => PARAGRAPH + Rendered(rest, [])
    case Line(bytes, rest) => sep + bytes + Rendered(rest, [SPACE])
  }

  predicate WellEnded(l: Layout) {
    match l
    case Stop => true
    case Malformed => false
    case Break(rest) => WellEnded(rest)
    case Line(_, rest) => WellEnded(rest)
  }

  /** Behind an empty line there is a line. */
  predicate BreaksLead(l: Layout) {
    match l
    case Stop => true
    case Malformed => true
    case Break(rest) => (rest.Line? || rest.Malformed?) && BreaksLead(rest)
    case Line(_, rest) => BreaksLead(rest)
  }

  lemma {:induction false} LayoutBreaksLead(text: seq<byte>, pos: nat)
    requires Terminated(text) && pos < |text| && text[pos] == NEWLINE
    ensures BreaksLead(LayoutAt(text, pos).0)
    decreases |text| - pos
  {
    var p := pos + 1;
    if text[p] == NEWLINE && text[p + 1] == SPACE {
      LayoutBreaksLead(text, p);
    } else if text[p] != NEWLINE {
      var eol := LineEnd(text, Skip(text, p));
      if eol != Skip(text, p) && text[eol] == NEWLINE {
        LayoutBreaksLead(text, eol);
      }
    }
  }

  /** An empty line stands where exactly k bytes have been rendered, and a line follows. */
  predicate BreakAt(l: Layout, sep: seq<byte>, k: int) {
    match l
    case Stop => false
    case Malformed => false
    case Break(rest) => (k == 0 && rest.Line?) || BreakAt(rest, [], k - 4)
    case Line(bytes, rest) => BreakAt(rest, [SPACE], k - |sep| - |bytes|)
  }

  /** What happens to a parser that stops normally, fails an assertion, writes behind its buffer,
      or reads a buffer that was never written. */
  datatype Fate = Done | Abort | Overrun | Unwritten

  /** The description against a buffer with `room` bytes left. */
  function DescriptionFate(l: Layout, sep: seq<byte>, room: nat): Fate {
    match l
    case Stop => Done
    case Malformed => Abort
    case Break(rest) =>
      if room <= 2 then Abort
      else if room == 3 then if rest.Line? then Overrun else Abort
      else DescriptionFate(rest, [], room - 4)
    case Line(bytes, rest) =>
      if room <= |sep| + |bytes| then Abort
      else DescriptionFate(rest, [SPACE], room - |sep| - |bytes|)
  }

  lemma {:induction false} NoBreakBeyond(l: Layout, sep: seq<byte>, k: int)
    requires k < 0
    ensures !BreakAt(l, sep, k)
  {
    match l
    case Stop =>
    case Malformed =>
    case Break(rest) => NoBreakBeyond(rest, [], k - 4);
    case Line(bytes, rest) => NoBreakBeyond(rest, [SPACE], k - |sep| - |bytes|);
  }

  /** Exactly when which. The room test looks for more than 2 bytes where 4 are used up; with
      exactly 3 left the count of free bytes wraps around, and the next line is written outside. */
  lemma {:induction false} DescriptionFateIs(l: Layout, sep: seq<byte>, room: nat)
    requires BreaksLead(l) && (room == 0 ==> l.Line? || l.Malformed?)
    ensures |Rendered(l, sep)| < room ==> DescriptionFate(l, sep, room) == if WellEnded(l) then Done else Abort
    ensures |Rendered(l, sep)| >= room ==>
      DescriptionFate(l, sep, room) == if BreakAt(l, sep, room - 3) then Overrun else Abort
  {
    match l
    case Stop =>
    case Malformed =>
    case Break(rest) =>
      if room <= 3 {
        NoBreakBeyond(rest, [], room - 7);
      } else {
        DescriptionFateIs(rest, [], room - 4);
      }
    case Line(bytes, rest) =>
      var n := |sep| + |bytes|;
      if room <= n {
        NoBreakBeyond(rest, [SPACE], room - 3 - n);
      } else {
        DescriptionFateIs(rest, [SPACE], room - n);
      }
  }

  const DESC := 2048                              // char desc[2048]
  const SIZE_T: nat := 0x1_0000_0000_0000_0000

  /** snprintf() of `out` at off with a size of `room`; false stands for a write behind the array. */
  method Snprintf(buf: array<byte>, off: nat, room: nat, out: seq<byte>) returns (inside: bool)
    requires room > 0
    modifies buf
    ensures inside == (off + Min(|out|, room - 1) < buf.Length)
    ensures !inside ==> buf[..] == old(buf[..])
    ensures inside ==>
      var w := Min(|out|, room - 1);
      buf[..off] == old(buf[..off]) && buf[off..off + w] == out[..w] && buf[off + w] == NUL
  {
    var w := Min(|out|, room - 1);
    if off + w >= buf.Length {
      return false;
    }
    forall i | 0 <= i < w { buf[off + i] := out[i]; }
    assert forall i :: 0 <= i < w ==> buf[off + i] == out[i];
    ghost var front, piece := buf[..off], buf[off..off + w];
    assert piece == out[..w];
    buf[off + w] := NUL;
    assert buf[..off] == front && buf[off..off + w] == piece;
    inside := true;
  }

  /** extract_description(), on the text at pos. */
  function DescriptionAt(text: seq<byte>, pos: nat): Fate
    requires Terminated(text) && pos < |text|
  {
    if text[pos] != NEWLINE then Abort
    else if LayoutAt(text, pos).0 == Stop then Unwritten
    else DescriptionFate(LayoutAt(text, pos).0, [], DESC)
  }

  /** The buffer holds `out` up to off, and a NUL behind it unless nothing has been written. */
  ghost predicate Holds(buf: array<byte>, off: nat, out: seq<byte>)
    reads buf
  {
    && buf.Length == DESC && NUL !in out
    && off == |out| <= DESC && buf[..off] == out
    && (0 < off < DESC ==> buf[off] == NUL)
  }

  /** The bytes of a line go behind what is there. */
  method PutLine(buf: array<byte>, off: nat, room: nat, sep: seq<byte>, line: seq<byte>, ghost out: seq<byte>)
    requires Holds(buf, off, out) && off + room == DESC
    requires |sep| + |line| < room && NUL !in sep && NUL !in line && line != []
    modifies buf
    ensures Holds(buf, off + |sep| + |line|, out + sep + line)
  {
    var piece := sep + line;
    var inside := Snprintf(buf, off, |piece| + 1, piece);
    assert piece[..|piece|] == piece;
    assert buf[..off + |piece|] == buf[..off] + buf[off..off + |piece|];
    assert out + sep + line == out + piece;
  }

  /** The escaped newlines, of which the last does not fit when room is 4. */
  method PutBreak(buf: array<byte>, off: nat, room: nat, ghost out: seq<byte>)
    requires Holds(buf, off, out) && off + room == DESC && room > 2
    modifies buf
    ensures room > 4 ==> Holds(buf, off + 4, out + PARAGRAPH)
  {
    var inside := Snprintf(buf, off, room, PARAGRAPH);
    assert PARAGRAPH[..4] == PARAGRAPH;
    assert room > 4 ==> buf[..off + 4] == buf[..off] + buf[off..off + 4];
  }

  /** Where the parser is inside a description. */
  ghost predicate Inside(text: seq<byte>, p: nat, cur: Layout, end: nat) {
    && Terminated(text) && p < |text| && BreaksLead(cur)
    && (text[p] == NEWLINE ==> LayoutAt(text, p) == (cur, end))
    && (text[p] != NEWLINE ==> cur == Stop && end == p)
  }

  /** What is done and what is to come make the whole. */
  ghost predicate Matching(whole: Layout, cur: Layout, sep: seq<byte>, off: nat, room: nat, out: seq<byte>) {
    && (sep == [] || sep == [SPACE])
    && out + Rendered(cur, sep) == Rendered(whole, [])
    && DescriptionFate(cur, sep, room) == DescriptionFate(whole, [], DESC)
    && (off == 0 ==> cur == whole) && (off > 0 ==> whole != Stop)
  }

  lemma MatchingBreak(whole: Layout, cur: Layout, sep: seq<byte>, off: nat, room: nat, out: seq<byte>)
    requires Matching(whole, cur, sep, off, room, out) && cur.Break? && room > 3
    ensures Matching(whole, cur.rest, [], off + 4, room - 4, out + PARAGRAPH)
  {
  }

  lemma MatchingLine(whole: Layout, cur: Layout, sep: seq<byte>, off: nat, room: nat, out: seq<byte>)
    requires Matching(whole, cur, sep, off, room, out) && cur.Line? && cur.bytes != [] && room > |sep| + |cur.bytes|
    ensures var n := |sep| + |cur.bytes|;
      Matching(whole, cur.rest, [SPACE], off + n, room - n, out + sep + cur.bytes)
  {
  }

  lemma InsideBehind(text: seq<byte>, p: nat, eol: nat, cur: Layout, end: nat)
    requires Inside(text, p, cur, end) && cur.Line? && eol < |text| && text[eol] in {NEWLINE, NUL}
    requires if text[eol] == NEWLINE then LayoutAt(text, eol) == (cur.rest, end) else cur.rest == Stop && end == eol
    ensures Inside(text, eol, cur.rest, end)
  {
  }

  lemma LineFails(whole: Layout, cur: Layout, sep: seq<byte>, off: nat, room: nat, out: seq<byte>)
    requires Matching(whole, cur, sep, off, room, out)
    requires cur.Malformed? || (cur.Line? && room <= |sep| + |cur.bytes|)
    ensures DescriptionFate(whole, [], DESC) == Abort
  {
  }

  /** The C string in the buffer. */
  lemma HeldString(buf: array<byte>, off: nat, out: seq<byte>)
    requires Holds(buf, off, out) && 0 < off < DESC
    ensures CStr(buf[..]) == out
  {
  }

  /** The part of extract_description() for a line that is not empty. */
  method TakeLine(text: seq<byte>, pos: nat, buf: array<byte>, off: nat, room: nat, sep: seq<byte>,
                  ghost out: seq<byte>)
    returns (ok: bool, eol: nat, l: nat)
    requires Terminated(text) && pos < |text| && text[pos] == NEWLINE && text[pos + 1] != NEWLINE
    requires room > 0 ==> Holds(buf, off, out)
    requires off + room == DESC && NUL !in sep
    modifies buf
    ensures var (cur, end) := LayoutAt(text, pos);
      if ok then
        && cur.Line? && cur.bytes != [] && pos < eol && l == |sep| + |cur.bytes| < room
        && Holds(buf, off + l, out + sep + cur.bytes)
        && eol < |text| && text[eol] in {NEWLINE, NUL} &&
          (if text[eol] == NEWLINE then LayoutAt(text, eol) == (cur.rest, end) else cur.rest == Stop && end == eol)
      else
        cur.Malformed? || (cur.Line? && room <= |sep| + |cur.bytes|)
  {
    var p := SkipSpace(text, pos + 1);
    eol := ToLineEnd(text, p);
    if eol <= p {
      return false, eol, 0;
    }
    l := |sep| + (eol - p);
    if room <= l {
      return false, eol, l;
    }
    LineHasNoEnd(text, p);
    PutLine(buf, off, room, sep, text[p..eol], out);
    ok := true;
  }

  /** The state at the head of the loop. */
  ghost predicate Going(whole: Layout, cur: Layout, sep: seq<byte>, buf: array<byte>, off: nat, room: nat,
                        out: seq<byte>)
    reads buf
  {
    && off + room == DESC == buf.Length && Matching(whole, cur, sep, off, room, out)
    && (room > 0 ==> Holds(buf, off, out))
    && (room == 0 ==> cur.Line? || cur.Malformed?)
  }

  /** The turn for an empty line. */
  method BreakTurn(text: seq<byte>, p: nat, buf: array<byte>, off: nat, room: nat, sep: seq<byte>,
                   ghost whole: Layout, ghost cur: Layout, ghost end: nat, ghost out: seq<byte>)
    returns (failure: Option<Fate>)
    requires Inside(text, p, cur, end) && Going(whole, cur, sep, buf, off, room, out) && |text| < SIZE_T - 1
    requires text[p] == NEWLINE && text[p + 1] == NEWLINE && text[p + 2] == SPACE
    modifies buf
    ensures cur.Break?
    ensures failure.Some? ==> failure.value == DescriptionFate(whole, [], DESC) && failure.value in {Abort, Overrun}
    ensures failure.None? ==>
      room > 3 && Going(whole, cur.rest, [], buf, off + 4, room - 4, out + PARAGRAPH) &&
      Inside(text, p + 1, cur.rest, end)
  {
    if room <= 2 {
      return Some(Abort);
    }
    PutBreak(buf, off, room, out);
    if room == 3 {
      var fate := BehindTheBuffer(text, p + 1, buf, (room - 4) % SIZE_T, off + 4);
      return Some(fate);
    }
    MatchingBreak(whole, cur, sep, off, room, out);
    failure := None;
  }

  /** The turn for a line with something on it. */
  method LineTurn(text: seq<byte>, p: nat, buf: array<byte>, off: nat, room: nat, sep: seq<byte>,
                  ghost whole: Layout, ghost cur: Layout, ghost end: nat, ghost out: seq<byte>)
    returns (ok: bool, eol: nat, l: nat)
    requires Inside(text, p, cur, end) && Going(whole, cur, sep, buf, off, room, out)
    requires text[p] == NEWLINE && text[p + 1] != NEWLINE
    modifies buf
    ensures !ok ==> DescriptionFate(whole, [], DESC) == Abort
    ensures ok ==> cur.Line? && p < eol && l == |sep| + |cur.bytes| < room && cur.bytes != []
    ensures ok ==>
      Going(whole, cur.rest, [SPACE], buf, off + l, room - l, out + sep + cur.bytes) && Inside(text, eol, cur.rest, end)
  {
    ok, eol, l := TakeLine(text, p, buf, off, room, sep, out);
    if ok {
      MatchingLine(whole, cur, sep, off, room, out);
      InsideBehind(text, p, eol, cur, end);
    } else {
      LineFails(whole, cur, sep, off, room, out);
    }
  }

  /** The end of the loop. */
  lemma Ended(whole: Layout, sep: seq<byte>, buf: array<byte>, off: nat, room: nat, out: seq<byte>)
    requires Going(whole, Stop, sep, buf, off, room, out) && off > 0
    ensures whole != Stop && DescriptionFate(whole, [], DESC) == Done
    ensures CStr(buf[..]) == Rendered(whole, [])
  {
    HeldString(buf, off, out);
  }

  /** Any turn of the loop; the description may end in it. */
  method Turn(text: seq<byte>, p: nat, buf: array<byte>, off: nat, room: nat, sep: seq<byte>,
              ghost whole: Layout, ghost cur: Layout, ghost end: nat, ghost out: seq<byte>)
    returns (fate: Option<Fate>, q: nat, l: nat, nextSep: seq<byte>, ghost rest: Layout, ghost more: seq<byte>)
    requires Inside(text, p, cur, end) && Going(whole, cur, sep, buf, off, room, out) && |text| < SIZE_T - 1
    requires text[p] == NEWLINE
    modifies buf
    ensures p < q
    ensures fate.Some? ==> fate.value == if whole == Stop then Unwritten else DescriptionFate(whole, [], DESC)
    ensures fate == Some(Done) ==> q == end && CStr(buf[..]) == Rendered(whole, [])
    ensures fate.None? ==> 0 < l <= room && Inside(text, q, rest, end)
    ensures fate.None? ==> Going(whole, rest, nextSep, buf, off + l, room - l, more)
  {
    q, l, nextSep, rest, more := p + 1, 4, [], cur, out;
    if text[p + 1] == NEWLINE && text[p + 2] == SPACE {
      fate := BreakTurn(text, p, buf, off, room, sep, whole, cur, end, out);
      rest, more := cur.rest, out + PARAGRAPH;
    } else if text[p + 1] == NEWLINE {
      q := p + 2;
      if off == 0 {
        return Some(Unwritten), q, l, nextSep, rest, more;
      }
      Ended(whole, sep, buf, off, room, out);
      fate := Some(Done);
    } else {
      var ok, eol, n := LineTurn(text, p, buf, off, room, sep, whole, cur, end, out);
      if !ok {
        return Some(Abort), q, l, nextSep, rest, more;
      }
      fate, q, l, nextSep, rest, more := None, eol, n, [SPACE], cur.rest, out + sep + cur.bytes;
    }
  }

  /** extract_description(), from the newline on that it asserts. */
  method Describe(text: seq<byte>, pos: nat, buf: array<byte>, ghost whole: Layout, ghost end: nat)
    returns (fate: Fate, next: nat)
    requires Terminated(text) && pos < |text| < SIZE_T - 1 && buf.Length == DESC
    requires text[pos] == NEWLINE && LayoutAt(text, pos) == (whole, end)
    modifies buf
    ensures fate == if whole == Stop then Unwritten else DescriptionFate(whole, [], DESC)
    ensures fate == Done ==> next == end && CStr(buf[..]) == Rendered(whole, [])
  {
    var p: nat, off: nat, room: nat := pos, 0, DESC;
    var sep: seq<byte> := [];
    ghost var cur, out := whole, [];
    LayoutBreaksLead(text, pos);
    while text[p] == NEWLINE
      invariant Inside(text, p, cur, end) && Going(whole, cur, sep, buf, off, room, out)
      invariant off == 0 ==> p == pos
      decreases |text| - p
    {
      var end?: Option<Fate>, l: nat;
      end?, p, l, sep, cur, out := Turn(text, p, buf, off, room, sep, whole, cur, end, out);
      if end?.Some? {
        return end?.value, p;
      }
      off, room := off + l, room - l;
    }
    Ended(whole, sep, buf, off, room, out);
    return Done, p;
  }

  /** extract_description(). */
  method ExtractDescription(text: seq<byte>, pos: nat, buf: array<byte>) returns (fate: Fate, next: nat)
    requires Terminated(text) && pos < |text| < SIZE_T - 1 && buf.Length == DESC
    modifies buf
    ensures fate == DescriptionAt(text, pos)
    ensures fate == Done ==> next == LayoutAt(text, pos).1 && CStr(buf[..]) == Rendered(LayoutAt(text, pos).0, [])
  {
    if text[pos] != NEWLINE {
      return Abort, pos;
    }
    fate, next := Describe(text, pos, buf, LayoutAt(text, pos).0, LayoutAt(text, pos).1);
  }

  /** Past a break that was rendered with 3 bytes left: the size has wrapped around, the room test
      lets every line through, and the write is outside. */
  method BehindTheBuffer(text: seq<byte>, pos: nat, buf: array<byte>, room: nat, off: nat) returns (fate: Fate)
    requires Terminated(text) && pos + 1 < |text| && text[pos] == NEWLINE && text[pos + 1] == SPACE
    requires buf.Length == DESC && off == DESC + 1 && room == SIZE_T - 1 && |text| < room
    modifies buf
    ensures fate == if LayoutAt(text, pos).0.Line? then Overrun else Abort
  {
    var p := SkipSpace(text, pos + 1);
    var eol := ToLineEnd(text, p);
    if eol <= p || room <= eol - p {
      return Abort;
    }
    var inside := Snprintf(buf, off, eol - p + 1, text[p..eol]);
    fate := Overrun;
  }

  /** Every text in front of the parser: when it is done with the description, when it aborts, when it
      writes behind its buffer, and when it never writes to it. */
  lemma DescriptionAtIs(text: seq<byte>, pos: nat)
    requires Terminated(text) && pos < |text|
    ensures text[pos] != NEWLINE ==> DescriptionAt(text, pos) == Abort
    ensures text[pos] == NEWLINE ==>
      var fate, l := DescriptionAt(text, pos), LayoutAt(text, pos).0;
      var fits := |Rendered(l, [])| < DESC;
      && (fate == Unwritten <==> l == Stop)
      && (fate == Done <==> l != Stop && fits && WellEnded(l))
      && (fate == Overrun <==> !fits && BreakAt(l, [], DESC - 3))
      && (fate == Abort <==> if fits then !WellEnded(l) else !BreakAt(l, [], DESC - 3))
  {
    if text[pos] == NEWLINE {
      LayoutBreaksLead(text, pos);
      DescriptionFateIs(LayoutAt(text, pos).0, [], DESC);
    }
  }

  /** A description that is not there: the buffer is read without having been written. */
  lemma UnwrittenHappens()
    ensures DescriptionAt([NEWLINE, NEWLINE, NUL], 0) == Unwritten
  {
  }
}
