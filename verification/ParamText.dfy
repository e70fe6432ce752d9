/** `param.show -l` the way Varnish prints it, and the round trip through the agent's parser. */
module ParamText {
  import opened Bytes
  import opened Vparams
  import opened Params

  /** A parameter to be printed. Without a default of its own the value is marked as the default. */
  datatype Param = Param(name: seq<byte>, value: seq<byte>, quoted: bool, unit: Option<seq<byte>>,
                         def: Option<seq<byte>>, min: Option<seq<byte>>, max: Option<seq<byte>>, description: Layout)

  predicate OneLine(s: seq<byte>) { NEWLINE !in s && NUL !in s }

  // ---- The value line ---------------------------------------------------------------------

  function Core(p: Param): seq<byte> { if p.quoted then [DQUOTE] + p.value + [DQUOTE] else p.value }

  function UnitText(p: Param): seq<byte> {
    if p.unit.Some? then [SPACE, OPEN] + p.unit.value + [CLOSE] else []
  }

  function ValueText(p: Param): seq<byte> {
    Core(p) + UnitText(p) + if p.def.None? then DEFAULT_MARK else []
  }

  /** Value and unit cannot be taken for something else. */
  predicate ClearBody(p: Param) {
    && p.value != []
    && (if p.quoted then p.unit.None? else p.value[0] != DQUOTE)
    && (p.unit.Some? ==> OPEN !in p.unit.value)
    && (p.unit.None? && !p.quoted ==> p.value[|p.value| - 1] != CLOSE)
  }

  /** Neither can they be taken for a default mark, or for the beginning of one. */
  predicate Clear(p: Param) {
    && ClearBody(p)
    && (p.unit.None? && !p.quoted && p.def.Some? ==> Searchable(p.value) && !EndsWith(p.value, DEFAULT_MARK))
  }

  lemma MarkComesOff(body: seq<byte>)
    requires body != []
    ensures Searchable(body + DEFAULT_MARK) && EndsWith(body + DEFAULT_MARK, DEFAULT_MARK) &&
      Unmarked(body + DEFAULT_MARK) == body
  {
    var line := body + DEFAULT_MARK;
    assert line[|body|] == SPACE;
    assert line[|line| - 10..] == DEFAULT_MARK;
    EndsWithIs(line, DEFAULT_MARK);
  }

  lemma UnitComesOff(core: seq<byte>, unit: seq<byte>)
    ensures var body := core + ([SPACE, OPEN] + unit + [CLOSE]);
      && HasUnit(body)
      && (OPEN !in unit ==>
            UnitOpens(body) == |core| + 1 && UnitIsOff(body) && Plain(body) == core && UnitOf(body) == Some(unit))
  {
    var body := core + ([SPACE, OPEN] + unit + [CLOSE]);
    if OPEN !in unit {
      assert body[|core| + 1] == OPEN && body[|core|] == SPACE;
      assert forall i :: |core| + 1 < i < |body| ==> body[i] == (unit + [CLOSE])[i - |core| - 2];
      assert body[..|core|] == core;
      assert body[|core| + 2..|body| - 1] == unit;
    }
  }

  /** Value and unit come out of the line without its mark as they went in. */
  predicate BodyReads(p: Param, body: seq<byte>) {
    && UnitIsOff(body) && UnitOf(body) == p.unit
    && Bare(IsQuoted(body), Plain(body), HasUnit(body)) == Some(p.value)
  }

  lemma QuotedBody(p: Param)
    requires p.quoted
    ensures BodyReads(p, Core(p) + UnitText(p)) <==> ClearBody(p)
  {
    var body := Core(p) + UnitText(p);
    assert body[0] == DQUOTE;
    if p.unit.Some? {
      UnitComesOff(Core(p), p.unit.value);
    } else {
      assert body == Core(p);
      assert body[1..|body| - 1] == p.value;
    }
  }

  lemma BareBodyWithUnit(p: Param)
    requires !p.quoted && p.unit.Some?
    ensures BodyReads(p, Core(p) + UnitText(p)) <==> ClearBody(p)
  {
    var core, unit := Core(p), p.unit.value;
    var body := core + UnitText(p);
    UnitComesOff(core, unit);
    if core != [] {
      assert body[0] == core[0];
    }
    if j :| 0 <= j < |unit| && unit[j] == OPEN {
      assert body[|core| + 2 + j] == OPEN;
    }
  }

  lemma BareBody(p: Param)
    requires !p.quoted && p.unit.None?
    ensures BodyReads(p, Core(p) + UnitText(p)) <==> ClearBody(p)
  {
    assert Core(p) + UnitText(p) == p.value;
  }

  lemma MarkedIff(p: Param)
    requires BodyReads(p, Core(p) + UnitText(p)) <==> ClearBody(p)
    requires p.def.None?
    ensures ReadValue(ValueText(p)) == Some(Value(p.value, p.unit, true)) <==> Clear(p)
  {
    var body, line := Core(p) + UnitText(p), ValueText(p);
    if body != [] {
      MarkComesOff(body);
      assert line[0] == body[0];
    } else {
      assert line == DEFAULT_MARK;
    }
  }

  /** Without a mark nothing must look like one. */
  lemma NoMark(p: Param)
    requires p.quoted || p.unit.Some?
    ensures var body := Core(p) + UnitText(p);
      body != [] && body[|body| - 1] != PAREN && Searchable(body) && !EndsWith(body, DEFAULT_MARK)
  {
  }

  lemma UnmarkedIff(p: Param)
    requires BodyReads(p, Core(p) + UnitText(p)) <==> ClearBody(p)
    requires p.def.Some?
    ensures ReadValue(ValueText(p)) == Some(Value(p.value, p.unit, false)) <==> Clear(p)
  {
    var body := Core(p) + UnitText(p);
    assert ValueText(p) == body;
    if p.quoted || p.unit.Some? { NoMark(p); } else { assert body == p.value; }
  }

  /** The value line is read back as it was meant exactly when it is clear. */
  lemma ValueRoundTripIff(p: Param)
    ensures ReadValue(ValueText(p)) == Some(Value(p.value, p.unit, p.def.None?)) <==> Clear(p)
  {
    if p.quoted { QuotedBody(p); } else if p.unit.Some? { BareBodyWithUnit(p); } else { BareBody(p); }
    if p.def.None? { MarkedIff(p); } else { UnmarkedIff(p); }
  }

  /** Values that are not read back: "x)", "x]", and the empty string in quotes. */
  lemma ValuesCanFail()
    ensures ReadValue([120, PAREN]) == None && ReadValue([120, CLOSE]) == None && ReadValue([DQUOTE, DQUOTE]) == None
  {
    var empty := [DQUOTE, DQUOTE];
    assert Unmarked(empty) == empty && Plain(empty) == empty;
  }

  // ---- A whole entry -------------------------------------------------------------------------

  function FieldText(title: seq<byte>, o: Option<seq<byte>>): seq<byte> {
    if o.None? then [] else [SPACE, SPACE] + title + o.value + [NEWLINE]
  }

  /** Where what follows a field begins. */
  function FieldEnd(pos: nat, title: seq<byte>, o: Option<seq<byte>>): nat { pos + |FieldText(title, o)| }

  /** Lines are indented, an empty line stands between paragraphs and at the end. */
  function LayoutText(l: Layout): seq<byte> {
    match l
    case Stop => [NEWLINE]
    case Malformed => []
    case Break(rest) => [NEWLINE] + LayoutText(rest)
    case Line(b, rest) => [SPACE, SPACE] + b + [NEWLINE] + LayoutText(rest)
  }

  predicate GoodLayout(l: Layout) {
    match l
    case Stop => true
    case Malformed => false
    case Break(rest) => rest.Line? && GoodLayout(rest)
    case Line(b, rest) => b != [] && OneLine(b) && !IsBlank(b[0]) && GoodLayout(rest)
  }

  function LimitsText(p: Param): seq<byte> {
    FieldText(MINIMUM_IS, p.min) + (FieldText(MAXIMUM_IS, p.max) + ([NEWLINE] + LayoutText(p.description)))
  }

  function EntryText(p: Param): seq<byte> {
    (p.name + [NEWLINE]) + (FieldText(VALUE_IS, Some(ValueText(p))) + (FieldText(DEFAULT_IS, p.def) + LimitsText(p)))
  }

  predicate OneLineOption(o: Option<seq<byte>>) { o.Some? ==> OneLine(o.value) }

  /** A parameter in the documented grammar, whose description fits. */
  predicate WellFormed(p: Param) {
    && OneLine(p.name) && (p.name != [] ==> !IsBlank(p.name[0]))
    && Clear(p) && OneLine(p.value) && OneLineOption(p.unit)
    && OneLineOption(p.def) && OneLineOption(p.min) && OneLineOption(p.max)
    && GoodLayout(p.description) && p.description != Stop && |Rendered(p.description, [])| < DESC
  }

  /** What the parser should make of it. */
  function Meant(p: Param): Entry {
    Entry(p.name, p.value,
          if p.unit.Some? then p.unit.value else [],
          if p.def.Some? then p.def.value else p.value,
          if p.min.Some? then p.min.value else [],
          if p.max.Some? then p.max.value else [],
          Rendered(p.description, []))
  }

  // ---- Reading printed text ---------------------------------------------------------------------

  lemma AtSplit(text: seq<byte>, pos: nat, a: seq<byte>, b: seq<byte>)
    requires At(text, pos, a + b)
    ensures At(text, pos, a) && At(text, pos + |a|, b)
  {
    assert forall i :: 0 <= i < |a| ==> a[i] == (a + b)[i];
    assert forall i :: 0 <= i < |b| ==> b[i] == (a + b)[|a| + i];
  }

  lemma ByteAt(text: seq<byte>, pos: nat, a: seq<byte>, k: nat)
    requires At(text, pos, a) && k < |a|
    ensures pos + k < |text| && text[pos + k] == a[k]
  {
  }

  /** A printed line is found whole. */
  lemma {:induction false} LineIsRead(text: seq<byte>, pos: nat, s: seq<byte>)
    requires Terminated(text) && At(text, pos, s + [NEWLINE]) && OneLine(s)
    ensures pos + |s| + 1 < |text| && LineEnd(text, pos) == pos + |s| && text[pos + |s|] == NEWLINE &&
      text[pos..pos + |s|] == s
    decreases |s|
  {
    AtSplit(text, pos, s, [NEWLINE]);
    ByteAt(text, pos + |s|, [NEWLINE], 0);
    if s != [] {
      ByteAt(text, pos, s, 0);
      assert (s + [NEWLINE]) == [s[0]] + (s[1..] + [NEWLINE]);
      AtSplit(text, pos, [s[0]], s[1..] + [NEWLINE]);
      LineIsRead(text, pos + 1, s[1..]);
    }
  }

  lemma SkipIndent(text: seq<byte>, pos: nat, s: seq<byte>)
    requires Terminated(text) && At(text, pos, [SPACE, SPACE] + s) && s != [] && !IsBlank(s[0]) && s[0] != NUL
    ensures pos + 2 < |text| && Skip(text, pos) == pos + 2 && text[pos + 2] == s[0] && At(text, pos + 2, s)
  {
    AtSplit(text, pos, [SPACE, SPACE], s);
    ByteAt(text, pos, [SPACE, SPACE], 0);
    ByteAt(text, pos, [SPACE, SPACE], 1);
    ByteAt(text, pos + 2, s, 0);
    assert Skip(text, pos + 1) == pos + 2;
  }

  lemma LineCase(text: seq<byte>, pos: nat, q: nat, eol: nat)
    requires Terminated(text) && pos + 1 < |text| && text[pos] == NEWLINE && text[pos + 1] != NEWLINE
    requires q == Skip(text, pos + 1) && eol == LineEnd(text, q) > q && text[eol] == NEWLINE
    ensures LayoutAt(text, pos) == (Line(text[q..eol], LayoutAt(text, eol).0), LayoutAt(text, eol).1)
  {
  }

  /** A line of a description, up to its newline. */
  lemma DescriptionLine(text: seq<byte>, pos: nat, b: seq<byte>)
    requires Terminated(text) && pos < |text| && text[pos] == NEWLINE &&
      At(text, pos + 1, [SPACE, SPACE] + b + [NEWLINE])
    requires b != [] && OneLine(b) && !IsBlank(b[0])
    ensures pos + 3 + |b| + 1 < |text| && text[pos + 3 + |b|] == NEWLINE
    ensures LayoutAt(text, pos) == (Line(b, LayoutAt(text, pos + 3 + |b|).0), LayoutAt(text, pos + 3 + |b|).1)
  {
    IndentedLine(text, pos + 1, b);
    LineCase(text, pos, pos + 3, pos + 3 + |b|);
  }

  lemma IndentedLine(text: seq<byte>, pos: nat, b: seq<byte>)
    requires Terminated(text) && At(text, pos, [SPACE, SPACE] + b + [NEWLINE])
    requires b != [] && OneLine(b) && !IsBlank(b[0])
    ensures pos + 2 + |b| + 1 < |text| && text[pos] == SPACE && Skip(text, pos) == pos + 2
    ensures LineEnd(text, pos + 2) == pos + 2 + |b| && text[pos + 2 + |b|] == NEWLINE &&
      text[pos + 2..pos + 2 + |b|] == b
  {
    assert [SPACE, SPACE] + b + [NEWLINE] == [SPACE, SPACE] + (b + [NEWLINE]);
    ByteAt(text, pos, [SPACE, SPACE] + b + [NEWLINE], 0);
    SkipIndent(text, pos, b + [NEWLINE]);
    LineIsRead(text, pos + 2, b);
  }

  /** An empty line with a line behind it. */
  lemma BreakCase(text: seq<byte>, pos: nat, rest: Layout)
    requires Terminated(text) && pos < |text| && text[pos] == NEWLINE && rest.Line? &&
      At(text, pos + 1, [NEWLINE] + LayoutText(rest))
    ensures pos + 2 < |text| && text[pos + 1] == NEWLINE && At(text, pos + 2, LayoutText(rest))
    ensures LayoutAt(text, pos) == (Break(LayoutAt(text, pos + 1).0), LayoutAt(text, pos + 1).1)
  {
    AtSplit(text, pos + 1, [NEWLINE], LayoutText(rest));
    ByteAt(text, pos + 1, [NEWLINE], 0);
    ByteAt(text, pos + 2, LayoutText(rest), 0);
  }

  lemma StopCase(text: seq<byte>, pos: nat)
    requires Terminated(text) && pos < |text| && text[pos] == NEWLINE && At(text, pos + 1, [NEWLINE])
    requires pos + 2 < |text| && text[pos + 2] != SPACE
    ensures LayoutAt(text, pos) == (Stop, pos + 2)
  {
    ByteAt(text, pos + 1, [NEWLINE], 0);
  }

  /** Where a printed description ends that begins behind the newline at pos; where a line of it ends. */
  function LayoutEnd(pos: nat, l: Layout): nat { pos + 1 + |LayoutText(l)| }

  function LineStop(pos: nat, b: seq<byte>): nat { pos + 3 + |b| }

  /** l is printed behind the newline at pos, and something that is no space behind that. */
  ghost predicate Stands(text: seq<byte>, pos: nat, l: Layout) {
    && Terminated(text) && pos < |text| && text[pos] == NEWLINE && At(text, pos + 1, LayoutText(l))
    && LayoutEnd(pos, l) < |text| && text[LayoutEnd(pos, l)] != SPACE
  }

  lemma LineStands(text: seq<byte>, pos: nat, b: seq<byte>, rest: Layout)
    requires Stands(text, pos, Line(b, rest)) && b != [] && OneLine(b) && !IsBlank(b[0])
    ensures Stands(text, LineStop(pos, b), rest) && LayoutEnd(LineStop(pos, b), rest) == LayoutEnd(pos, Line(b, rest))
    ensures LayoutAt(text, pos) == (Line(b, LayoutAt(text, LineStop(pos, b)).0), LayoutAt(text, LineStop(pos, b)).1)
  {
    var line := [SPACE, SPACE] + b + [NEWLINE];
    AtSplit(text, pos + 1, line, LayoutText(rest));
    DescriptionLine(text, pos, b);
  }

  lemma BreakStands(text: seq<byte>, pos: nat, rest: Layout)
    requires Stands(text, pos, Break(rest)) && rest.Line?
    ensures Stands(text, pos + 1, rest) && LayoutEnd(pos + 1, rest) == LayoutEnd(pos, Break(rest))
    ensures LayoutAt(text, pos) == (Break(LayoutAt(text, pos + 1).0), LayoutAt(text, pos + 1).1)
  {
    BreakCase(text, pos, rest);
  }

  lemma StopStands(text: seq<byte>, pos: nat)
    requires Stands(text, pos, Stop)
    ensures LayoutAt(text, pos) == (Stop, LayoutEnd(pos, Stop))
  {
    StopCase(text, pos);
  }

  /** A printed description is laid out as it was meant. */
  lemma {:induction false} LayoutIsRead(text: seq<byte>, pos: nat, l: Layout)
    requires GoodLayout(l)
    ensures Stands(text, pos, l) ==> LayoutAt(text, pos) == (l, LayoutEnd(pos, l))
    decreases l
  {
    if Stands(text, pos, l) {
      match l
      case Stop =>
        StopStands(text, pos);
      case Break(rest) =>
        BreakStands(text, pos, rest);
        LayoutIsRead(text, pos + 1, rest);
      case Line(b, rest) =>
        LineStands(text, pos, b, rest);
        LayoutIsRead(text, LineStop(pos, b), rest);
    }
  }

  /** A first paragraph of 2045 bytes, and a second one. */
  function Overlong(): Layout { Line(seq(2045, _ => 97), Break(Line([97], Stop))) }

  /** The text of that description makes the parser write behind its buffer. */
  lemma OverrunHappens()
    ensures var text := [NEWLINE] + (LayoutText(Overlong()) + [NUL]);
      Terminated(text) && DescriptionAt(text, 0) == Overrun
  {
    var l := Overlong();
    var t := LayoutText(l);
    var text := [NEWLINE] + (t + [NUL]);
    assert forall i :: 0 <= i < |t| ==> text[1 + i] == t[i];
    assert Stands(text, 0, l);
    LayoutIsRead(text, 0, l);
  }

  lemma FieldCase(text: seq<byte>, q: nat, title: seq<byte>, b: nat, eol: nat, v: seq<byte>)
    requires Terminated(text) && StartsWith(text, q, title) && b == q + |title|
    requires b <= eol < |text| && eol == LineEnd(text, b) && text[eol] == NEWLINE && text[b..eol] == v
    ensures FieldAt(text, q, title, None) == Parsed(Some(v), Skip(text, eol + 1))
  {
  }

  /** Where the title and the text of a printed field stand. */
  lemma FieldStands(text: seq<byte>, pos: nat, title: seq<byte>, v: seq<byte>)
    requires Terminated(text) && At(text, pos, FieldText(title, Some(v)))
    requires title != [] && !IsBlank(title[0]) && title[0] != NUL
    ensures pos + 2 + |title| < |text| && Skip(text, pos) == pos + 2 && StartsWith(text, pos + 2, title)
    ensures At(text, pos + 2 + |title|, v + [NEWLINE])
    ensures FieldEnd(pos, title, Some(v)) == pos + 2 + |title| + |v| + 1 < |text|
  {
    assert FieldText(title, Some(v)) == [SPACE, SPACE] + (title + (v + [NEWLINE]));
    SkipIndent(text, pos, title + (v + [NEWLINE]));
    AtSplit(text, pos + 2, title, v + [NEWLINE]);
    StartsWithIs(text, pos + 2, title);
  }

  lemma TitledLine(text: seq<byte>, q: nat, title: seq<byte>, v: seq<byte>)
    requires Terminated(text) && StartsWith(text, q, title) && At(text, q + |title|, v + [NEWLINE]) && OneLine(v)
    requires q + |title| + |v| + 1 < |text|
    ensures FieldAt(text, q, title, None) == Parsed(Some(v), Skip(text, q + |title| + |v| + 1))
  {
    var b := q + |title|;
    LineIsRead(text, b, v);
    FieldCase(text, q, title, b, b + |v|, v);
  }

  /** A field that was printed is read. */
  lemma PrintedField(text: seq<byte>, pos: nat, title: seq<byte>, v: seq<byte>)
    requires Terminated(text) && At(text, pos, FieldText(title, Some(v))) && OneLine(v)
    requires title != [] && !IsBlank(title[0]) && title[0] != NUL
    ensures FieldEnd(pos, title, Some(v)) < |text| && Skip(text, pos) == pos + 2 && StartsWith(text, pos + 2, title)
    ensures FieldAt(text, pos + 2, title, None) == Parsed(Some(v), Skip(text, FieldEnd(pos, title, Some(v))))
  {
    FieldStands(text, pos, title, v);
    TitledLine(text, pos + 2, title, v);
  }

  lemma Titled(text: seq<byte>, q: nat, title: seq<byte>)
    requires |title| > 1
    ensures StartsWith(text, q, title) ==> q + 1 < |text| && text[q] == title[0] && text[q + 1] == title[1]
  {
    StartsWithIs(text, q, title);
  }

  /** A title has two bytes or more, and no blanks in front. */
  predicate IsTitle(title: seq<byte>) {
    |title| > 1 && !IsBlank(title[0]) && title[0] != NUL
  }

  /** A field that may be there, with something else behind it. */
  lemma OptionalField(text: seq<byte>, pos: nat, title: seq<byte>, o: Option<seq<byte>>)
    requires Terminated(text) && IsTitle(title) && At(text, pos, FieldText(title, o)) && OneLineOption(o) &&
      pos < |text|
    requires o.None? ==> !StartsWith(text, Skip(text, pos), title)
    ensures FieldEnd(pos, title, o) < |text|
    ensures FieldAt(text, Skip(text, pos), title, None) == Parsed(o, Skip(text, FieldEnd(pos, title, o)))
  {
    if o.Some? { PrintedField(text, pos, title, o.value); }
  }

  /** How the rest of an entry begins, behind its blanks: with the title of a field, or with the empty line. */
  lemma Begins(text: seq<byte>, pos: nat, title: seq<byte>, o: Option<seq<byte>>)
    requires Terminated(text) && pos < |text| && IsTitle(title) && OneLineOption(o) &&
      At(text, pos, FieldText(title, o))
    requires o.None? ==> text[pos] == NEWLINE
    ensures var q := Skip(text, pos);
      if o.Some? then q + 1 < |text| && text[q] == title[0] && text[q + 1] == title[1] else text[q] == NEWLINE
  {
    if o.Some? {
      PrintedField(text, pos, title, o.value);
      Titled(text, pos + 2, title);
    }
  }

  lemma MaximumIsRead(text: seq<byte>, pos: nat, max: Option<seq<byte>>, rest: seq<byte>)
    requires Terminated(text) && At(text, pos, FieldText(MAXIMUM_IS, max) + ([NEWLINE] + rest)) && OneLineOption(max)
    ensures pos < |text| && FieldEnd(pos, MAXIMUM_IS, max) < |text|
    ensures text[FieldEnd(pos, MAXIMUM_IS, max)] == NEWLINE && At(text, FieldEnd(pos, MAXIMUM_IS, max) + 1, rest)
    ensures FieldAt(text, Skip(text, pos), MAXIMUM_IS, None) == Parsed(max, FieldEnd(pos, MAXIMUM_IS, max))
  {
    MaximumSplits(text, pos, max, rest);
    MaximumBegins(text, pos, max);
    OptionalField(text, pos, MAXIMUM_IS, max);
  }

  lemma MaximumSplits(text: seq<byte>, pos: nat, max: Option<seq<byte>>, rest: seq<byte>)
    requires At(text, pos, FieldText(MAXIMUM_IS, max) + ([NEWLINE] + rest))
    ensures pos < |text| && FieldEnd(pos, MAXIMUM_IS, max) < |text| && At(text, pos, FieldText(MAXIMUM_IS, max))
    ensures text[FieldEnd(pos, MAXIMUM_IS, max)] == NEWLINE && At(text, FieldEnd(pos, MAXIMUM_IS, max) + 1, rest)
  {
    var f := FieldText(MAXIMUM_IS, max);
    AtSplit(text, pos, f, [NEWLINE] + rest);
    AtSplit(text, pos + |f|, [NEWLINE], rest);
    ByteAt(text, pos + |f|, [NEWLINE], 0);
  }

  /** What begins with a maximum, or with the empty line, does not look like another field. */
  lemma MaximumBegins(text: seq<byte>, pos: nat, max: Option<seq<byte>>)
    requires Terminated(text) && pos < |text| && At(text, pos, FieldText(MAXIMUM_IS, max)) && OneLineOption(max)
    requires max.None? ==> text[pos] == NEWLINE
    ensures var q := Skip(text, pos);
      && !StartsWith(text, q, MINIMUM_IS) && text[q] != DEFAULT_IS[0]
      && (max.None? ==> !StartsWith(text, q, MAXIMUM_IS))
  {
    Begins(text, pos, MAXIMUM_IS, max);
    Titled(text, Skip(text, pos), MAXIMUM_IS);
    Titled(text, Skip(text, pos), MINIMUM_IS);
  }

  lemma MinimumIsRead(text: seq<byte>, pos: nat, min: Option<seq<byte>>)
    requires Terminated(text) && At(text, pos, FieldText(MINIMUM_IS, min)) && OneLineOption(min)
    requires FieldEnd(pos, MINIMUM_IS, min) < |text|
    requires min.None? ==> !StartsWith(text, Skip(text, pos), MINIMUM_IS)
    ensures FieldAt(text, Skip(text, pos), MINIMUM_IS, None) == Parsed(min, Skip(text, FieldEnd(pos, MINIMUM_IS, min)))
  {
    OptionalField(text, pos, MINIMUM_IS, min);
  }

  lemma LimitsCase(text: seq<byte>, q: nat, lo: Option<seq<byte>>, q2: nat, hi: Option<seq<byte>>, next: nat)
    requires Terminated(text) && q < |text| && q2 < |text|
    requires FieldAt(text, q, MINIMUM_IS, None) == Parsed(lo, q2) &&
      FieldAt(text, q2, MAXIMUM_IS, None) == Parsed(hi, next)
    ensures LimitsAt(text, q) == Parsed((lo, hi), next)
  {
  }

  function MaximumStart(pos: nat, p: Param): nat { FieldEnd(pos, MINIMUM_IS, p.min) }

  /** Where the empty line stands that ends the fields, given where the limits begin. */
  function FieldsEnd(pos: nat, p: Param): nat { FieldEnd(MaximumStart(pos, p), MAXIMUM_IS, p.max) }

  /** The limits and the description are printed at pos. */
  ghost predicate LimitsStand(text: seq<byte>, pos: nat, p: Param) {
    Terminated(text) && StartsWith(text, pos, LimitsText(p)) && OneLineOption(p.min) && OneLineOption(p.max)
  }

  lemma LimitsSplit(text: seq<byte>, pos: nat, p: Param)
    requires LimitsStand(text, pos, p)
    ensures pos < |text| && At(text, pos, FieldText(MINIMUM_IS, p.min)) && MaximumStart(pos, p) < |text|
    ensures At(text, MaximumStart(pos, p), FieldText(MAXIMUM_IS, p.max) + ([NEWLINE] + LayoutText(p.description)))
  {
    StartsWithIs(text, pos, LimitsText(p));
    AtSplit(text, pos, FieldText(MINIMUM_IS, p.min),
      FieldText(MAXIMUM_IS, p.max) + ([NEWLINE] + LayoutText(p.description)));
  }

  lemma MaximumStep(text: seq<byte>, pos: nat, p: Param)
    requires LimitsStand(text, pos, p)
    ensures MaximumStart(pos, p) < |text| && FieldsEnd(pos, p) < |text| && text[FieldsEnd(pos, p)] == NEWLINE
    ensures At(text, FieldsEnd(pos, p) + 1, LayoutText(p.description))
    ensures FieldAt(text, Skip(text, MaximumStart(pos, p)), MAXIMUM_IS, None) == Parsed(p.max, FieldsEnd(pos, p))
  {
    LimitsSplit(text, pos, p);
    MaximumIsRead(text, MaximumStart(pos, p), p.max, LayoutText(p.description));
  }

  lemma NoMinimum(text: seq<byte>, pos: nat, p: Param)
    requires LimitsStand(text, pos, p) && p.min.None?
    ensures pos < |text| && !StartsWith(text, Skip(text, pos), MINIMUM_IS)
  {
    LimitsSplit(text, pos, p);
    MaximumSplits(text, pos, p.max, LayoutText(p.description));
    MaximumBegins(text, pos, p.max);
  }

  /** The limits do not begin like a default. */
  lemma LimitsShow(text: seq<byte>, pos: nat, p: Param)
    requires LimitsStand(text, pos, p)
    ensures pos < |text| && text[Skip(text, pos)] != DEFAULT_IS[0]
  {
    LimitsSplit(text, pos, p);
    if p.min.Some? {
      Begins(text, pos, MINIMUM_IS, p.min);
    } else {
      MaximumSplits(text, pos, p.max, LayoutText(p.description));
      MaximumBegins(text, pos, p.max);
    }
  }

  lemma MinimumStep(text: seq<byte>, pos: nat, p: Param)
    requires LimitsStand(text, pos, p)
    ensures pos < |text| && MaximumStart(pos, p) < |text|
    ensures FieldAt(text, Skip(text, pos), MINIMUM_IS, None) == Parsed(p.min, Skip(text, MaximumStart(pos, p)))
  {
    LimitsSplit(text, pos, p);
    if p.min.None? { NoMinimum(text, pos, p); }
    MinimumIsRead(text, pos, p.min);
  }

  lemma LimitsAreRead(text: seq<byte>, pos: nat, p: Param)
    requires LimitsStand(text, pos, p)
    ensures pos < |text| && FieldsEnd(pos, p) < |text|
    ensures LimitsAt(text, Skip(text, pos)) == Parsed((p.min, p.max), FieldsEnd(pos, p))
  {
    MaximumStep(text, pos, p);
    MinimumStep(text, pos, p);
    LimitsCase(text, Skip(text, pos), p.min, Skip(text, MaximumStart(pos, p)), p.max, FieldsEnd(pos, p));
  }

  lemma DefaultIsRead(text: seq<byte>, pos: nat, def: Option<seq<byte>>, given: Option<seq<byte>>)
    requires Terminated(text) && At(text, pos, FieldText(DEFAULT_IS, def)) && OneLineOption(def)
    requires FieldEnd(pos, DEFAULT_IS, def) < |text| && (def.Some? <==> given.None?)
    requires def.None? ==> text[Skip(text, pos)] != DEFAULT_IS[0]
    ensures FieldAt(text, Skip(text, pos), DEFAULT_IS, given) ==
      Parsed(if def.Some? then def else given, Skip(text, FieldEnd(pos, DEFAULT_IS, def)))
  {
    Titled(text, Skip(text, pos), DEFAULT_IS);
    if def.Some? { PrintedField(text, pos, DEFAULT_IS, def.value); }
  }

  lemma ValueTextIsOneLine(p: Param)
    requires WellFormed(p)
    ensures OneLine(ValueText(p))
  {
    assert OneLine(Core(p)) && OneLine(UnitText(p)) && OneLine(DEFAULT_MARK);
  }

  function BodyText(p: Param): seq<byte> {
    FieldText(VALUE_IS, Some(ValueText(p))) + (FieldText(DEFAULT_IS, p.def) + LimitsText(p))
  }

  /** Where the default begins, given where the value line does. */
  function DefaultStart(pos: nat, p: Param): nat { FieldEnd(pos, VALUE_IS, Some(ValueText(p))) }

  /** Where the limits begin. */
  function LimitsStart(pos: nat, p: Param): nat {
    FieldEnd(DefaultStart(pos, p), DEFAULT_IS, p.def)
  }

  lemma BodySplits(text: seq<byte>, pos: nat, p: Param)
    requires StartsWith(text, pos, BodyText(p))
    ensures At(text, pos, FieldText(VALUE_IS, Some(ValueText(p))))
    ensures At(text, DefaultStart(pos, p), FieldText(DEFAULT_IS, p.def))
    ensures StartsWith(text, LimitsStart(pos, p), LimitsText(p))
  {
    var v, d := FieldText(VALUE_IS, Some(ValueText(p))), FieldText(DEFAULT_IS, p.def);
    StartsWithIs(text, pos, BodyText(p));
    AtSplit(text, pos, v, d + LimitsText(p));
    AtSplit(text, pos + |v|, d, LimitsText(p));
    StartsWithIs(text, LimitsStart(pos, p), LimitsText(p));
  }

  /** The rest of an entry is printed behind the name's line. */
  ghost predicate BodyStands(text: seq<byte>, pos: nat, p: Param) {
    Terminated(text) && pos < |text| && StartsWith(text, pos, BodyText(p)) && WellFormed(p)
  }

  function ValueOf(p: Param): Value { Value(p.value, p.unit, p.def.None?) }

  function DefaultOf(p: Param): Option<seq<byte>> { if p.def.None? then Some(p.value) else p.def }

  lemma PrintedFirst(text: seq<byte>, pos: nat, title: seq<byte>, line: seq<byte>)
    requires Terminated(text) && At(text, pos, FieldText(title, Some(line))) && OneLine(line) && IsTitle(title)
    ensures pos < |text| && FieldEnd(pos, title, Some(line)) < |text|
    ensures FieldAt(text, Skip(text, pos), title, None) ==
      Parsed(Some(line), Skip(text, FieldEnd(pos, title, Some(line))))
  {
    PrintedField(text, pos, title, line);
  }

  lemma ValueStep(text: seq<byte>, pos: nat, p: Param)
    requires BodyStands(text, pos, p)
    ensures DefaultStart(pos, p) < |text|
    ensures FieldAt(text, Skip(text, pos), VALUE_IS, None) ==
      Parsed(Some(ValueText(p)), Skip(text, DefaultStart(pos, p)))
  {
    BodySplits(text, pos, p);
    ValueTextIsOneLine(p);
    PrintedFirst(text, pos, VALUE_IS, ValueText(p));
  }

  lemma DefaultSplit(text: seq<byte>, pos: nat, p: Param)
    requires BodyStands(text, pos, p)
    ensures At(text, DefaultStart(pos, p), FieldText(DEFAULT_IS, p.def)) && OneLineOption(p.def)
    ensures LimitsStart(pos, p) == FieldEnd(DefaultStart(pos, p), DEFAULT_IS, p.def) < |text|
    ensures p.def.None? ==> text[Skip(text, LimitsStart(pos, p))] != DEFAULT_IS[0]
  {
    BodySplits(text, pos, p);
    LimitsShow(text, LimitsStart(pos, p), p);
  }

  lemma DefaultStep(text: seq<byte>, q1: nat, q2: nat, v: Value, def: Option<seq<byte>>)
    requires Terminated(text) && v.isDefault == def.None? && OneLineOption(def)
    requires At(text, q1, FieldText(DEFAULT_IS, def)) && q2 == FieldEnd(q1, DEFAULT_IS, def) < |text|
    requires def.None? ==> text[Skip(text, q2)] != DEFAULT_IS[0]
    ensures FieldAt(text, Skip(text, q1), DEFAULT_IS, MarkedDefault(Some(v)))
      == Parsed(if def.None? then Some(v.value) else def, Skip(text, q2))
  {
    DefaultIsRead(text, q1, def, MarkedDefault(Some(v)));
  }

  lemma BehindCase(text: seq<byte>, q1: nat, q2: nat, v: Option<Value>, def: Option<seq<byte>>,
                   lo: Option<seq<byte>>, hi: Option<seq<byte>>, next: nat)
    requires Terminated(text) && q1 < |text| && q2 < |text|
    requires FieldAt(text, q1, DEFAULT_IS, MarkedDefault(v)) == Parsed(def, q2) &&
      LimitsAt(text, q2) == Parsed((lo, hi), next)
    ensures FieldsBehind(text, q1, v) == Parsed(Fields(v, def, lo, hi), next)
  {
  }

  lemma FieldsCase(text: seq<byte>, pos: nat, t: nat, q: nat, line: seq<byte>, v: Value, r: Parse<Fields>)
    requires Terminated(text) && pos < |text| && t == Skip(text, pos) && q < |text| &&
      FieldAt(text, t, VALUE_IS, None) == Parsed(Some(line), q)
    requires ValueIn(Some(line)) == Some(v) && r == FieldsBehind(text, q, Some(v))
    ensures FieldsAt(text, pos) == r
  {
  }

  lemma DefaultIsBehind(text: seq<byte>, pos: nat, p: Param)
    requires BodyStands(text, pos, p)
    ensures DefaultStart(pos, p) <= LimitsStart(pos, p) < |text|
    ensures FieldAt(text, Skip(text, DefaultStart(pos, p)), DEFAULT_IS, MarkedDefault(Some(ValueOf(p))))
      == Parsed(DefaultOf(p), Skip(text, LimitsStart(pos, p)))
  {
    DefaultSplit(text, pos, p);
    DefaultStep(text, DefaultStart(pos, p), LimitsStart(pos, p), ValueOf(p), p.def);
  }

  lemma BehindIsRead(text: seq<byte>, pos: nat, p: Param)
    requires BodyStands(text, pos, p)
    ensures DefaultStart(pos, p) < |text|
    ensures FieldsBehind(text, Skip(text, DefaultStart(pos, p)), Some(ValueOf(p))) ==
      Parsed(Fields(Some(ValueOf(p)), DefaultOf(p), p.min, p.max), FieldsEnd(LimitsStart(pos, p), p))
  {
    DefaultIsBehind(text, pos, p);
    BodySplits(text, pos, p);
    LimitsAreRead(text, LimitsStart(pos, p), p);
    BehindCase(text, Skip(text, DefaultStart(pos, p)), Skip(text, LimitsStart(pos, p)), Some(ValueOf(p)),
      DefaultOf(p), p.min, p.max, FieldsEnd(LimitsStart(pos, p), p));
  }

  lemma FieldsAreRead(text: seq<byte>, pos: nat, p: Param)
    requires BodyStands(text, pos, p)
    ensures FieldsAt(text, pos) ==
      Parsed(Fields(Some(ValueOf(p)), DefaultOf(p), p.min, p.max), FieldsEnd(LimitsStart(pos, p), p))
  {
    ValueStep(text, pos, p);
    ValueRoundTripIff(p);
    BehindIsRead(text, pos, p);
    FieldsCase(text, pos, Skip(text, pos), Skip(text, DefaultStart(pos, p)), ValueText(p), ValueOf(p),
               FieldsBehind(text, Skip(text, DefaultStart(pos, p)), Some(ValueOf(p))));
  }

  // ---- The whole list ------------------------------------------------------------------------------

  /** Where the line after the name begins, and where the next entry does. */
  function BodyStart(pos: nat, p: Param): nat { pos + |p.name| + 1 }

  function EntryEnd(pos: nat, p: Param): nat { pos + |EntryText(p)| }

  /** p is printed at pos, and what follows is not a space. */
  ghost predicate EntryStands(text: seq<byte>, pos: nat, p: Param) {
    && Terminated(text) && pos < |text| && StartsWith(text, pos, EntryText(p)) && WellFormed(p)
    && text[EntryEnd(pos, p)] != SPACE
  }

  lemma EntrySplits(text: seq<byte>, pos: nat, p: Param)
    requires EntryStands(text, pos, p)
    ensures At(text, pos, p.name + [NEWLINE]) && BodyStands(text, BodyStart(pos, p), p)
  {
    StartsWithIs(text, pos, EntryText(p));
    AtSplit(text, pos, p.name + [NEWLINE], BodyText(p));
    StartsWithIs(text, BodyStart(pos, p), BodyText(p));
  }

  lemma NameIsRead(text: seq<byte>, pos: nat, p: Param)
    requires EntryStands(text, pos, p)
    ensures NameAt(text, pos) == Parsed(p.name, BodyStart(pos, p))
  {
    EntrySplits(text, pos, p);
    LineIsRead(text, pos, p.name);
    ByteAt(text, pos, p.name + [NEWLINE], 0);
  }

  /** Where the description's first newline is. */
  function DescriptionStart(pos: nat, p: Param): nat { FieldsEnd(LimitsStart(BodyStart(pos, p), p), p) }

  lemma EntryLength(pos: nat, p: Param)
    ensures LayoutEnd(DescriptionStart(pos, p), p.description) == EntryEnd(pos, p)
  {
  }

  lemma DescriptionStands(text: seq<byte>, pos: nat, p: Param)
    requires EntryStands(text, pos, p)
    ensures Stands(text, DescriptionStart(pos, p), p.description)
  {
    var d := DescriptionStart(pos, p);
    EntrySplits(text, pos, p);
    BodySplits(text, BodyStart(pos, p), p);
    MaximumStep(text, LimitsStart(BodyStart(pos, p), p), p);
    EntryLength(pos, p);
  }

  lemma DescriptionIsRead(text: seq<byte>, d: nat, l: Layout)
    requires Stands(text, d, l) && GoodLayout(l) && l != Stop && |Rendered(l, [])| < DESC
    ensures LayoutAt(text, d) == (l, LayoutEnd(d, l)) && DescriptionAt(text, d) == Done
  {
    LayoutIsRead(text, d, l);
    LayoutBreaksLead(text, d);
    DescriptionFateIs(l, [], DESC);
    GoodIsWellEnded(l);
  }

  lemma {:induction false} GoodIsWellEnded(l: Layout)
    requires GoodLayout(l)
    ensures WellEnded(l)
  {
    match l
    case Stop =>
    case Break(rest) => GoodIsWellEnded(rest);
    case Line(_, rest) => GoodIsWellEnded(rest);
  }

  lemma BodyCase(text: seq<byte>, pos: nat, f: Fields, d: nat, l: Layout, next: nat)
    requires Terminated(text) && pos < |text| && d < |text| && text[pos] != NUL && text[d] == NEWLINE
    requires FieldsAt(text, pos) == Parsed(f, d) && DescriptionAt(text, d) == Done && LayoutAt(text, d) == (l, next)
    ensures BodyAt(text, pos) == Parsed((f, Rendered(l, [])), next)
  {
  }

  lemma EntryCase(text: seq<byte>, pos: nat, name: seq<byte>, next: nat, body: Parse<(Fields, seq<byte>)>)
    requires Terminated(text) && pos < |text| && next < |text| && NameAt(text, pos) == Parsed(name, next)
    requires BodyAt(text, next) == body
    ensures EntryAt(text, pos) == Finished(name, body)
  {
  }

  lemma BodyIsRead(text: seq<byte>, pos: nat, p: Param)
    requires EntryStands(text, pos, p)
    ensures BodyStart(pos, p) < |text|
    ensures BodyAt(text, BodyStart(pos, p)) ==
      Parsed((Fields(Some(ValueOf(p)), DefaultOf(p), p.min, p.max), Rendered(p.description, [])), EntryEnd(pos, p))
  {
    var b, d := BodyStart(pos, p), DescriptionStart(pos, p);
    EntrySplits(text, pos, p);
    FieldsAreRead(text, b, p);
    DescriptionStands(text, pos, p);
    DescriptionIsRead(text, d, p.description);
    EntryLength(pos, p);
    BodyBegins(text, b, p);
    BodyCase(text, b, Fields(Some(ValueOf(p)), DefaultOf(p), p.min, p.max), d, p.description, EntryEnd(pos, p));
  }

  lemma BodyBegins(text: seq<byte>, pos: nat, p: Param)
    requires BodyStands(text, pos, p)
    ensures text[pos] == SPACE
  {
  }

  lemma EntryMeant(p: Param, next: nat)
    requires Clear(p)
    ensures Finished(p.name,
      Parsed((Fields(Some(ValueOf(p)), DefaultOf(p), p.min, p.max), Rendered(p.description, [])), next))
      == Parsed(Meant(p), next)
  {
  }

  lemma EntryEnds(text: seq<byte>, pos: nat, p: Param, next: nat)
    requires Terminated(text) && pos < |text| && Clear(p) && BodyStart(pos, p) < |text|
    requires NameAt(text, pos) == Parsed(p.name, BodyStart(pos, p))
    requires BodyAt(text, BodyStart(pos, p)) ==
      Parsed((Fields(Some(ValueOf(p)), DefaultOf(p), p.min, p.max), Rendered(p.description, [])), next)
    ensures EntryAt(text, pos) == Parsed(Meant(p), next)
  {
    var body := Parsed((Fields(Some(ValueOf(p)), DefaultOf(p), p.min, p.max), Rendered(p.description, [])), next);
    EntryCase(text, pos, p.name, BodyStart(pos, p), body);
    EntryMeant(p, next);
  }

  /** A printed parameter is read as it was meant, and the cursor stands behind it. */
  lemma EntryIsRead(text: seq<byte>, pos: nat, p: Param)
    requires EntryStands(text, pos, p)
    ensures EntryAt(text, pos) == Parsed(Meant(p), EntryEnd(pos, p))
  {
    NameIsRead(text, pos, p);
    BodyIsRead(text, pos, p);
    EntryEnds(text, pos, p, EntryEnd(pos, p));
  }

  function Concat(ts: seq<seq<byte>>): seq<byte> {
    if ts == [] then [] else ts[0] + Concat(ts[1..])
  }

  function ListText(ps: seq<Param>): seq<byte> { Concat(seq(|ps|, i requires 0 <= i < |ps| => EntryText(ps[i]))) }

  predicate AllWellFormed(ps: seq<Param>) { forall i :: 0 <= i < |ps| ==> WellFormed(ps[i]) }

  function Meanings(ps: seq<Param>): seq<Entry> { seq(|ps|, i requires 0 <= i < |ps| => Meant(ps[i])) }

  lemma EntriesStep(text: seq<byte>, pos: nat, top: seq<Entry>, e: Entry, next: nat)
    requires Terminated(text) && pos < |text| && text[pos] != NUL && EntryAt(text, pos) == Parsed(e, next)
    ensures EntriesAt(text, pos, top) == EntriesAt(text, next, [e] + top)
  {
  }

  /** How a printed parameter begins. */
  lemma EntryBegins(p: Param)
    requires WellFormed(p)
    ensures |EntryText(p)| > 0 && EntryText(p)[0] != NUL && EntryText(p)[0] != SPACE
  {
  }

  /** How a text of a list must begin. */
  predicate Leads(t: seq<byte>) { |t| > 0 && t[0] != NUL && t[0] != SPACE }

  /** Wherever t stands, with something that is no space behind it, e is read from it. */
  ghost predicate ReadsAs(t: seq<byte>, e: Entry) {
    forall text, pos: nat :: Terminated(text) && StartsWith(text, pos, t) && text[pos + |t|] != SPACE ==>
      EntryAt(text, pos) == Parsed(e, pos + |t|)
  }

  lemma ReadThere(text: seq<byte>, pos: nat, t: seq<byte>, e: Entry, next: nat)
    requires Terminated(text) && StartsWith(text, pos, t) && text[pos + |t|] != SPACE && next == pos + |t|
    ensures ReadsAs(t, e) ==> EntryAt(text, pos) == Parsed(e, next)
  {
  }

  lemma EntryReadsAs(p: Param)
    requires WellFormed(p)
    ensures ReadsAs(EntryText(p), Meant(p))
  {
    var t := EntryText(p);
    forall text, pos: nat | Terminated(text) && StartsWith(text, pos, t) && text[pos + |t|] != SPACE
      ensures EntryAt(text, pos) == Parsed(Meant(p), pos + |t|)
    {
      EntryIsRead(text, pos, p);
    }
  }

  /** The texts stand one behind the other from pos on, and a NUL behind the last. */
  ghost predicate LaidOut(text: seq<byte>, pos: nat, ts: seq<seq<byte>>)
    decreases |ts|
  {
    pos < |text| && text[pos] != SPACE &&
    if ts == [] then text[pos] == NUL
    else StartsWith(text, pos, ts[0]) && text[pos] != NUL && LaidOut(text, pos + |ts[0]|, ts[1..])
  }

  lemma {:induction false} ConcatIsLaidOut(before: seq<byte>, ts: seq<seq<byte>>, text: seq<byte>)
    requires text == before + (Concat(ts) + [NUL]) && forall i :: 0 <= i < |ts| ==> Leads(ts[i])
    ensures LaidOut(text, |before|, ts)
    decreases |ts|
  {
    if ts != [] {
      assert Leads(ts[0]);
      Regroup(before, ts, text);
      ConcatIsLaidOut(before + ts[0], ts[1..], text);
    }
  }

  lemma Regroup(before: seq<byte>, ts: seq<seq<byte>>, text: seq<byte>)
    requires ts != [] && ts[0] != [] && text == before + (Concat(ts) + [NUL])
    ensures text == (before + ts[0]) + (Concat(ts[1..]) + [NUL])
    ensures StartsWith(text, |before|, ts[0]) && text[|before|] == ts[0][0]
  {
    var t, rest := ts[0], Concat(ts[1..]) + [NUL];
    assert Concat(ts) + [NUL] == t + rest;
    Reassociate(before, t, rest);
    StandsBetween(before, t, rest);
  }

  lemma Reassociate(a: seq<byte>, b: seq<byte>, c: seq<byte>)
    ensures a + (b + c) == (a + b) + c
  {
  }

  lemma StandsBetween(a: seq<byte>, b: seq<byte>, c: seq<byte>)
    requires b != [] && c != []
    ensures StartsWith(a + (b + c), |a|, b) && (a + (b + c))[|a|] == b[0]
  {
    StartsWithIs(a + (b + c), |a|, b);
  }

  lemma HeadIsRead(text: seq<byte>, pos: nat, t: seq<byte>, e: Entry, next: nat, top: seq<Entry>)
    requires Terminated(text) && StartsWith(text, pos, t) && text[pos] != NUL && next == pos + |t| &&
      text[next] != SPACE
    ensures ReadsAs(t, e) ==> next < |text| && EntriesAt(text, pos, top) == EntriesAt(text, next, [e] + top)
  {
    if ReadsAs(t, e) {
      ReadThere(text, pos, t, e, next);
      EntriesStep(text, pos, top, e, next);
    }
  }

  ghost predicate AllRead(ts: seq<seq<byte>>, es: seq<Entry>)
    requires |ts| == |es|
  {
    ts == [] || (ReadsAs(ts[0], es[0]) && AllRead(ts[1..], es[1..]))
  }

  lemma {:induction false} AllReadIs(ts: seq<seq<byte>>, es: seq<Entry>)
    requires |ts| == |es| && forall i :: 0 <= i < |ts| ==> ReadsAs(ts[i], es[i])
    ensures AllRead(ts, es)
  {
    if ts != [] { AllReadIs(ts[1..], es[1..]); }
  }

  lemma BackwardsStep(es: seq<Entry>, top: seq<Entry>)
    requires es != []
    ensures Backwards(es) + top == Backwards(es[1..]) + ([es[0]] + top)
  {
  }

  /** A list of texts of which each can be read alone is read as a whole. */
  lemma {:induction false} LaidOutIsRead(text: seq<byte>, pos: nat, ts: seq<seq<byte>>, es: seq<Entry>, top: seq<Entry>)
    requires |ts| == |es| && Terminated(text) && pos < |text|
    ensures LaidOut(text, pos, ts) && AllRead(ts, es) ==>
      EntriesAt(text, pos, top).Parsed? && EntriesAt(text, pos, top).value == Backwards(es) + top
    decreases |ts|
  {
    if ts == [] {
      assert Backwards(es) + top == top;
    } else if LaidOut(text, pos, ts) && AllRead(ts, es) {
      var next := pos + |ts[0]|;
      assert LaidOut(text, next, ts[1..]);
      HeadIsRead(text, pos, ts[0], es[0], next, top);
      LaidOutIsRead(text, next, ts[1..], es[1..], [es[0]] + top);
      BackwardsStep(es, top);
    }
  }

  /** Printing any list of well-formed parameters and running the parser gives exactly those, backwards. */
  lemma RoundTrip(ps: seq<Param>)
    requires AllWellFormed(ps)
    ensures var r := EntriesAt(ListText(ps) + [NUL], 0, []); r.Parsed? && r.value == Backwards(Meanings(ps))
  {
    var ts := seq(|ps|, i requires 0 <= i < |ps| => EntryText(ps[i]));
    var text, es := Concat(ts) + [NUL], Meanings(ps);
    forall i | 0 <= i < |ts| ensures Leads(ts[i]) && ReadsAs(ts[i], es[i]) {
      assert WellFormed(ps[i]);
      EntryBegins(ps[i]);
      EntryReadsAs(ps[i]);
    }
    assert text == [] + (Concat(ts) + [NUL]);
    ConcatIsLaidOut([], ts, text);
    AllReadIs(ts, es);
    LaidOutIsRead(text, 0, ts, es, []);
    assert Backwards(es) + [] == Backwards(es);
  }

  // ---- A known text ------------------------------------------------------------------------------

  /** The fixed parts of the printed form, and what two escaped newlines are. */
  lemma Titles()
    ensures VALUE_IS == Ascii("Value is: ") && DEFAULT_IS == Ascii("Default is: ")
    ensures MINIMUM_IS == Ascii("Minimum is: ") && MAXIMUM_IS == Ascii("Maximum is: ")
  {
  }

  lemma Marks()
    ensures DEFAULT_MARK == Ascii(" (default)") && PARAGRAPH == Ascii("\\n\\n")
    ensures forall b: byte :: IsBlank(b) <==> b in Ascii(" \t")
  {
    assert Ascii(" \t") == [SPACE, TAB];
  }

  /** A parameter with its default value, a unit, limits and two paragraphs. */
  function Timeout(): Param {
    Param(Ascii("t"), Ascii("3"), false, Some(Ascii("seconds")), None, Some(Ascii("0")), Some(Ascii("9")),
          Line(Ascii("d"), Break(Line(Ascii("e"), Stop))))
  }

  /** A parameter with a default of its own, and nothing that could be left out. */
  function Switch(): Param {
    Param(Ascii("u"), Ascii("on"), false, None, Some(Ascii("off")), None, None,
          Line(Ascii("x"), Line(Ascii("y"), Stop)))
  }

  lemma ValueLine()
    ensures FieldText(VALUE_IS, Some(ValueText(Timeout()))) ==
      Ascii("  Value is: 3") + Ascii(" [seconds]") + Ascii(" (default)\n")
  {
    Titles();
    Marks();
    assert FieldText(VALUE_IS, Some(ValueText(Timeout()))) ==
      [SPACE, SPACE] + VALUE_IS + Ascii("3") + UnitText(Timeout()) + DEFAULT_MARK + [NEWLINE];
    assert [SPACE, SPACE] + VALUE_IS + Ascii("3") == Ascii("  Value is: 3");
    assert UnitText(Timeout()) == Ascii(" [seconds]");
    assert DEFAULT_MARK + [NEWLINE] == Ascii(" (default)\n");
  }

  lemma MinimumLine()
    ensures FieldText(MINIMUM_IS, Timeout().min) == Ascii("  Minimum is: 0\n")
  {
    Titles();
  }

  lemma MaximumLine()
    ensures FieldText(MAXIMUM_IS, Timeout().max) == Ascii("  Maximum is: 9\n")
  {
    Titles();
  }

  lemma SwitchLine()
    ensures FieldText(VALUE_IS, Some(ValueText(Switch()))) == Ascii("  Value is: on\n")
  {
    Titles();
  }

  lemma DefaultLine()
    ensures FieldText(DEFAULT_IS, Switch().def) == Ascii("  Default is: off\n")
  {
    Titles();
  }

  lemma DescriptionLines()
    ensures [NEWLINE] + LayoutText(Timeout().description) == Ascii("\n  d\n\n  e\n\n")
    ensures [NEWLINE] + LayoutText(Switch().description) == Ascii("\n  x\n  y\n\n")
  {
  }

  lemma FiveParts(a: seq<byte>, b: seq<byte>, c: seq<byte>, d: seq<byte>, e: seq<byte>)
    ensures a + (b + (c + (d + e))) == a + b + c + d + e
  {
  }

  /** What Varnish prints of the first. */
  function TimeoutText(): seq<byte> {
    Ascii("t\n") + (Ascii("  Value is: 3") + Ascii(" [seconds]") + Ascii(" (default)\n")) +
    Ascii("  Minimum is: 0\n") + Ascii("  Maximum is: 9\n") + Ascii("\n  d\n\n  e\n\n")
  }

  lemma TimeoutPrints()
    ensures EntryText(Timeout()) == TimeoutText()
  {
    var p := Timeout();
    ValueLine();
    MinimumLine();
    MaximumLine();
    DescriptionLines();
    assert p.name + [NEWLINE] == Ascii("t\n");
    NoDefault(p);
    FiveParts(p.name + [NEWLINE], FieldText(VALUE_IS, Some(ValueText(p))), FieldText(MINIMUM_IS, p.min),
              FieldText(MAXIMUM_IS, p.max), [NEWLINE] + LayoutText(p.description));
  }

  lemma NoDefault(p: Param)
    requires p.def.None?
    ensures EntryText(p) == p.name + [NEWLINE] + (FieldText(VALUE_IS, Some(ValueText(p))) + LimitsText(p))
  {
  }

  /** ... and of the second. */
  function SwitchText(): seq<byte> {
    Ascii("u\n") + Ascii("  Value is: on\n") + Ascii("  Default is: off\n") + Ascii("\n  x\n  y\n\n")
  }

  lemma SwitchPrints()
    ensures EntryText(Switch()) == SwitchText()
  {
    var p := Switch();
    SwitchLine();
    DefaultLine();
    DescriptionLines();
    assert p.name + [NEWLINE] == Ascii("u\n");
    NoLimits(p);
  }

  lemma NoLimits(p: Param)
    requires p.min.None? && p.max.None?
    ensures EntryText(p) == p.name + [NEWLINE] + FieldText(VALUE_IS, Some(ValueText(p))) +
      FieldText(DEFAULT_IS, p.def) + ([NEWLINE] + LayoutText(p.description))
  {
  }

  /** What the parser makes of the two, letter by letter. */
  lemma KnownList()
    ensures var r := EntriesAt(TimeoutText() + SwitchText() + [NUL], 0, []);
      r.Parsed? && r.value == [
        Entry(Ascii("u"), Ascii("on"), [], Ascii("off"), [], [], Ascii("x y")),
        Entry(Ascii("t"), Ascii("3"), Ascii("seconds"), Ascii("3"), Ascii("0"), Ascii("9"), Ascii("d\\n\\ne"))]
  {
    var ps := [Timeout(), Switch()];
    KnownAreWellFormed();
    KnownMeanings();
    RoundTrip(ps);
    TimeoutPrints();
    SwitchPrints();
    assert ListText(ps) == EntryText(ps[0]) + EntryText(ps[1]) by { TwoTexts(ps); }
    assert Meanings(ps) == [Meant(ps[0]), Meant(ps[1])];
    TwoBackwards(Meant(ps[0]), Meant(ps[1]));
  }

  lemma TwoTexts(ps: seq<Param>)
    requires |ps| == 2
    ensures ListText(ps) == EntryText(ps[0]) + EntryText(ps[1])
  {
    var ts := [EntryText(ps[0]), EntryText(ps[1])];
    assert seq(|ps|, i requires 0 <= i < |ps| => EntryText(ps[i])) == ts;
    assert ts[1..] == [ts[1]];
    assert Concat(ts) == ts[0] + (ts[1] + Concat(ts[2..]));
  }

  lemma TwoBackwards<T>(a: T, b: T)
    ensures Backwards([a, b]) == [b, a]
  {
    BackwardsAppend([], a);
    BackwardsAppend([a], b);
    assert [] + [a] == [a] && [a] + [b] == [a, b];
  }

  lemma KnownAreWellFormed()
    ensures WellFormed(Timeout()) && WellFormed(Switch())
  {
  }

  lemma KnownMeanings()
    ensures Meant(Switch()) == Entry(Ascii("u"), Ascii("on"), [], Ascii("off"), [], [], Ascii("x y"))
    ensures Meant(Timeout()) ==
      Entry(Ascii("t"), Ascii("3"), Ascii("seconds"), Ascii("3"), Ascii("0"), Ascii("9"), Ascii("d\\n\\ne"))
  {
    Marks();
    assert Rendered(Switch().description, []) == Ascii("x") + [SPACE] + Ascii("y");
    assert Rendered(Timeout().description, []) == Ascii("d") + PARAGRAPH + Ascii("e");
  }
}
