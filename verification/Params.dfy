/** Entries of `param.show -l`: the fields of one, the list of all, and the way back from the
    printed form. */
module Params {
  import opened Bytes
  import opened Vparams

  // ---- One value --------------------------------------------------------------------------

  datatype Value = Value(value: seq<byte>, unit: Option<seq<byte>>, isDefault: bool)

  predicate EndsWith(line: seq<byte>, tail: seq<byte>) {
    |tail| < |line| && SameFrom(line, |line| - |tail|, tail, 0)
  }

  lemma EndsWithIs(line: seq<byte>, tail: seq<byte>)
    ensures EndsWith(line, tail) <==> |tail| < |line| && line[|line| - |tail|..] == tail
  {
    if |tail| < |line| {
      var n := |line| - |tail|;
      SameFromIs(line, n, tail, 0);
      assert forall i :: 0 <= i < |tail| ==> line[n..][i] == line[n + i];
    }
  }

  /** A line that ends in ')' has to have a space behind its first byte. */
  predicate Searchable(line: seq<byte>) {
    |line| > 0 && line[|line| - 1] == PAREN ==> LastIndex(line, SPACE, |line| - 1) > 0
  }

  /** The line without the mark of a default value. */
  function Unmarked(line: seq<byte>): (body: seq<byte>)
    ensures body <= line && (line != [] ==> body != [])
  {
    if EndsWith(line, DEFAULT_MARK) then line[..|line| - |DEFAULT_MARK|] else line
  }

  /** Where the unit's bracket opens; 0 when there is none to be found. */
  function UnitOpens(body: seq<byte>): (u: nat)
    ensures u == 0 || (u < |body| - 1 && body[u] == OPEN)
  {
    if body == [] || body[|body| - 1] != CLOSE then 0 else LastIndex(body, OPEN, |body| - 1)
  }

  predicate HasUnit(body: seq<byte>) { body != [] && body[|body| - 1] == CLOSE }

  /** What stands in front of the unit and a space, or all. */
  function Plain(body: seq<byte>): (v: seq<byte>)
    requires HasUnit(body) ==> UnitOpens(body) > 0
  {
    if HasUnit(body) then body[..UnitOpens(body) - 1] else body
  }

  predicate UnitIsOff(body: seq<byte>) {
    HasUnit(body) ==> UnitOpens(body) > 0 && body[UnitOpens(body) - 1] == SPACE
  }

  /** The value without its quotes; None is a failed assertion. */
  function Bare(quoted: bool, v: seq<byte>, hasUnit: bool): Option<seq<byte>> {
    if quoted then
      if hasUnit || |v| < 3 || v[|v| - 1] != DQUOTE then None else Some(v[1..|v| - 1])
    else if v == [] then None else Some(v)
  }

  function UnitOf(body: seq<byte>): Option<seq<byte>>
    requires UnitIsOff(body)
  {
    if HasUnit(body) then Some(body[UnitOpens(body) + 1..|body| - 1]) else None
  }

  predicate IsQuoted(line: seq<byte>) { line != [] && line[0] == DQUOTE }

  /** parse_value(), on the rest of its line; None is a failed assertion. */
  function ReadValue(line: seq<byte>): Option<Value> {
    var body := Unmarked(line);
    if !Searchable(line) || !UnitIsOff(body) then None
    else
      var v := Bare(IsQuoted(line), Plain(body), HasUnit(body));
      if v.None? then None else Some(Value(v.value, UnitOf(body), EndsWith(line, DEFAULT_MARK)))
  }

  lemma EndsLikeTail(line: seq<byte>, tail: seq<byte>)
    requires EndsWith(line, tail) && tail != []
    ensures line[|line| - 1] == tail[|tail| - 1]
  {
    EndsWithIs(line, tail);
    assert line[|line| - 1] == line[|line| - |tail|..][|tail| - 1];
  }

  lemma LastInTail(line: seq<byte>, tail: seq<byte>, c: byte)
    requires line != [] && tail != [] && tail[0] == c && forall i :: 1 <= i < |tail| ==> tail[i] != c
    ensures var d := LastIndex(line, c, |line| - 1); EndsWith(line, tail) <==> d > 0 && line[d..] == tail
  {
    EndsWithIs(line, tail);
    if EndsWith(line, tail) {
      var n := |line| - |tail|;
      assert line[n] == line[n..][0];
      assert forall i :: n < i < |line| ==> line[i] == line[n..][i - n];
    }
  }

  /** The only space of the mark is its first byte, so a search for the last space finds it. */
  lemma MarkHasOneSpace()
    ensures |DEFAULT_MARK| == 10 && DEFAULT_MARK[0] == SPACE && DEFAULT_MARK[9] == PAREN &&
      forall i :: 1 <= i < 10 ==> DEFAULT_MARK[i] != SPACE
  {
  }

  predicate IsMark(mark: seq<byte>) {
    |mark| > 1 && mark[0] == SPACE && mark[|mark| - 1] == PAREN && forall i :: 1 <= i < |mark| ==> mark[i] != SPACE
  }

  /** strncmp() at the last space. */
  method Compare(text: seq<byte>, w: nat, eol: nat, def: nat, mark: seq<byte>, ghost line: seq<byte>)
    returns (same: bool)
    requires w < def <= eol <= |text| && line == text[w..eol] && line != [] && IsMark(mark)
    requires def - w == LastIndex(line, SPACE, |line| - 1)
    ensures same == EndsWith(line, mark) && (same ==> def == eol - |mark|)
  {
    LastInTail(line, mark, SPACE);
    SliceOfSlice(text, w, eol, def - w, |line|);
    assert line[def - w..] == line[def - w..|line|];
    same := text[def..eol] == mark;
  }

  /** The search for a mark, as strbchr() finds it: where the value and its unit end (inclusive). */
  method FindMark(text: seq<byte>, w: nat, eol: nat, mark: seq<byte>, ghost line: seq<byte>)
    returns (ok: bool, marked: bool, cursor: int)
    requires 0 < w <= eol < |text| && text[w - 1] == SPACE && text[eol] == NEWLINE && IsMark(mark) &&
      line == text[w..eol]
    ensures ok == Searchable(line)
    ensures ok ==> marked == EndsWith(line, mark) && cursor == eol - (if marked then |mark| else 0) - 1
  {
    cursor := eol - 1;
    marked := false;
    if text[cursor] == PAREN {
      if cursor <= w {
        return false, marked, cursor;
      }
      var def := Strbchr(text, w, cursor, SPACE);
      assert text[w..cursor + 1] == line;
      if def.None? {
        return false, marked, cursor;
      }
      marked := Compare(text, w, eol, def.value, mark, line);
      cursor := if marked then def.value - 1 else cursor;
    } else if EndsWith(line, mark) {
      EndsLikeTail(line, mark);
    }
    ok := true;
  }

  /** The search for the unit: where its bracket opens, 0 without one, and where the value ends (inclusive). */
  method FindUnit(text: seq<byte>, w: nat, cursor: int, ghost body: seq<byte>) returns (ok: bool, opens: nat, eov: int)
    requires 0 < w && w - 1 <= cursor < |text| && text[w - 1] == SPACE && body == text[w..cursor + 1]
    ensures ok == UnitIsOff(body)
    ensures ok ==> opens == (if HasUnit(body) then w + UnitOpens(body) else 0) && eov == w + |Plain(body)| - 1
  {
    opens, eov := 0, cursor;
    if text[cursor] == CLOSE {
      if cursor <= w {
        return false, opens, eov;
      }
      var u := Strbchr(text, w, cursor, OPEN);
      if u.None? || text[u.value - 1] != SPACE {
        return false, opens, eov;
      }
      opens, eov := u.value, u.value - 2;
    }
    ok := true;
  }

  /** The value proper. */
  method Unquote(text: seq<byte>, w: nat, eov: int, hasUnit: bool, ghost v: seq<byte>) returns (bare: Option<seq<byte>>)
    requires 0 < w < |text| && w - 1 <= eov < |text| && v == text[w..eov + 1] && text[w - 1] == SPACE
    ensures bare == Bare(text[w] == DQUOTE, v, hasUnit)
  {
    var from, to := w, eov;
    if text[w] == DQUOTE {
      if text[eov] != DQUOTE || hasUnit {
        return None;
      }
      from, to := w + 1, eov - 1;
    }
    if to < from {
      return None;
    }
    assert from == w + 1 ==> v[1..|v| - 1] == text[from..to + 1];
    bare := Some(text[from..to + 1]);
  }

  lemma SliceOfSlice(text: seq<byte>, w: nat, end: nat, i: nat, j: nat)
    requires w <= end <= |text| && i <= j <= end - w
    ensures text[w..end][i..j] == text[w + i..w + j]
  {
    var a, b := text[w..end][i..j], text[w + i..w + j];
    assert forall k :: 0 <= k < j - i ==> a[k] == text[w..end][i + k] == b[k];
  }

  /** The unit's text, between its brackets. */
  method TakeUnit(text: seq<byte>, w: nat, opens: nat, cursor: int, ghost body: seq<byte>)
    returns (unit: Option<seq<byte>>)
    requires 0 < w && w - 1 <= cursor < |text| && body == text[w..cursor + 1] && UnitIsOff(body)
    requires opens == if HasUnit(body) then w + UnitOpens(body) else 0
    ensures unit == UnitOf(body)
  {
    unit := None;
    if opens > 0 {
      SliceOfSlice(text, w, cursor + 1, UnitOpens(body) + 1, |body| - 1);
      unit := Some(text[opens + 1..cursor]);
    }
  }

  /** The value in a line, found from both ends. */
  method Locate(text: seq<byte>, w: nat, eol: nat) returns (v: Option<Value>)
    requires 0 < w <= eol < |text| && text[w - 1] == SPACE && text[eol] == NEWLINE
    ensures v == ReadValue(text[w..eol])
  {
    ghost var line := text[w..eol];
    MarkHasOneSpace();
    var ok, isDefault, cursor := FindMark(text, w, eol, DEFAULT_MARK, line);
    if !ok {
      return None;
    }
    assert Unmarked(line) == text[w..cursor + 1];
    v := LocateBody(text, w, cursor, isDefault, Unmarked(line), IsQuoted(line));
  }

  method LocateBody(text: seq<byte>, w: nat, cursor: int, isDefault: bool, ghost body: seq<byte>, ghost quoted: bool)
    returns (v: Option<Value>)
    requires 0 < w < |text| && w - 1 <= cursor < |text| && text[w - 1] == SPACE && body == text[w..cursor + 1]
    requires quoted == (text[w] == DQUOTE)
    ensures v == if !UnitIsOff(body) then None else
        var bare := Bare(quoted, Plain(body), HasUnit(body));
        if bare.None? then None else Some(Value(bare.value, UnitOf(body), isDefault))
  {
    var off, opens, eov := FindUnit(text, w, cursor, body);
    if !off {
      return None;
    }
    PlainIsText(text, w, eov, body);
    var bare := Unquote(text, w, eov, opens > 0, Plain(body));
    if bare.None? {
      return None;
    }
    var unit := TakeUnit(text, w, opens, cursor, body);
    v := Some(Value(bare.value, unit, isDefault));
  }

  lemma PlainIsText(text: seq<byte>, w: nat, eov: int, body: seq<byte>)
    requires w + |body| <= |text| && body == text[w..w + |body|] && UnitIsOff(body) && eov == w + |Plain(body)| - 1
    ensures Plain(body) == text[w..eov + 1]
  {
  }

  // ---- One entry ----------------------------------------------------------------------------

  /** What was read and where to go on, or how the agent ends. */
  datatype Parse<T> = Parsed(value: T, next: nat) | Failed(fate: Fate)

  /** parse_name(), and the step over the newline. */
  function NameAt(text: seq<byte>, pos: nat): (r: Parse<seq<byte>>)
    requires Terminated(text) && pos < |text|
    ensures r.Parsed? ==> pos < r.next < |text|
  {
    var eol := LineEnd(text, pos);
    if Skip(text, pos) != pos || text[eol] == NUL then Failed(Abort)
    else Parsed(text[pos..eol], eol + 1)
  }

  /** Behind a line and the blanks of the next one. */
  function NextLine(text: seq<byte>, b: nat): (r: nat)
    requires Terminated(text) && b < |text| && text[LineEnd(text, b)] == NEWLINE
    ensures b < r < |text|
  {
    Skip(text, LineEnd(text, b) + 1)
  }

  method ToNextLine(text: seq<byte>, b: nat, eol: nat) returns (r: nat)
    requires Terminated(text) && b < |text| && eol == LineEnd(text, b) && text[eol] == NEWLINE
    ensures r == NextLine(text, b)
  {
    r := SkipSpace(text, eol + 1);
  }

  /** The rest of a line, and the blanks in front of what follows. */
  function LineAt(text: seq<byte>, b: nat): (r: Parse<seq<byte>>)
    requires Terminated(text) && b < |text|
    ensures r.Parsed? ==> b < r.next < |text|
    ensures r.Failed? ==> r.fate == Abort
  {
    var eol := LineEnd(text, b);
    if text[eol] == NUL then Failed(Abort) else Parsed(text[b..eol], NextLine(text, b))
  }

  /** A field, if its title stands at pos; a field that was set before must not come again. */
  function FieldAt(text: seq<byte>, pos: nat, title: seq<byte>, was: Option<seq<byte>>): (r: Parse<Option<seq<byte>>>)
    requires Terminated(text) && pos < |text|
    ensures r.Parsed? ==> pos <= r.next < |text|
    ensures r.Failed? ==> r.fate == Abort
  {
    if !StartsWith(text, pos, title) then Parsed(was, pos)
    else if was.Some? then Failed(Abort)
    else
      var l := LineAt(text, pos + |title|);
      if l.Failed? then Failed(Abort) else Parsed(Some(l.value), l.next)
  }

  datatype Fields = Fields(value: Option<Value>, def: Option<seq<byte>>, min: Option<seq<byte>>, max: Option<seq<byte>>)

  function LimitsAt(text: seq<byte>, pos: nat): (r: Parse<(Option<seq<byte>>, Option<seq<byte>>)>)
    requires Terminated(text) && pos < |text|
    ensures r.Parsed? ==> pos <= r.next < |text|
  {
    var lo := FieldAt(text, pos, MINIMUM_IS, None);
    if lo.Failed? then Failed(lo.fate)
    else
      var hi := FieldAt(text, lo.next, MAXIMUM_IS, None);
      if hi.Failed? then Failed(hi.fate) else Parsed((lo.value, hi.value), hi.next)
  }

  /** The default that the mark stands for. */
  function MarkedDefault(v: Option<Value>): Option<seq<byte>> {
    if v.Some? && v.value.isDefault then Some(v.value.value) else None
  }

  /** The lines behind the value. */
  function FieldsBehind(text: seq<byte>, pos: nat, v: Option<Value>): (r: Parse<Fields>)
    requires Terminated(text) && pos < |text|
    ensures r.Parsed? ==> pos <= r.next < |text|
  {
    var d := FieldAt(text, pos, DEFAULT_IS, MarkedDefault(v));
    if d.Failed? then Failed(d.fate)
    else
      var limits := LimitsAt(text, d.next);
      if limits.Failed? then Failed(limits.fate)
      else Parsed(Fields(v, d.value, limits.value.0, limits.value.1), limits.next)
  }

  /** The value that a line stands for, if there is a line. */
  function ValueIn(line: Option<seq<byte>>): Option<Value> {
    if line.None? then None else ReadValue(line.value)
  }

  /** The four lines that may follow the name, in this order. */
  function FieldsAt(text: seq<byte>, pos: nat): (r: Parse<Fields>)
    requires Terminated(text) && pos < |text|
    ensures r.Parsed? ==> pos <= r.next < |text|
  {
    var line := FieldAt(text, Skip(text, pos), VALUE_IS, None);
    if line.Failed? then Failed(line.fate)
    else if line.value.Some? && ValueIn(line.value).None? then Failed(Abort)
    else FieldsBehind(text, line.next, ValueIn(line.value))
  }

  /** A complete entry: a unit, a minimum or a maximum that is missing is an empty string. */
  datatype Entry = Entry(name: seq<byte>, value: seq<byte>, unit: seq<byte>, def: seq<byte>,
                         min: seq<byte>, max: seq<byte>, description: seq<byte>)

  function OrEmpty(o: Option<seq<byte>>): seq<byte> { if o.Some? then o.value else [] }

  /** fill_entry(): the fields and the description. */
  function BodyAt(text: seq<byte>, pos: nat): (r: Parse<(Fields, seq<byte>)>)
    requires Terminated(text) && pos < |text|
    ensures r.Parsed? ==> pos < r.next < |text|
  {
    var f := FieldsAt(text, pos);
    if text[pos] == NUL then Failed(Abort)
    else if f.Failed? then Failed(f.fate)
    else if DescriptionAt(text, f.next) != Done then Failed(DescriptionAt(text, f.next))
    else
      var (l, next) := LayoutAt(text, f.next);
      Parsed((f.value, Rendered(l, [])), next)
  }

  /** What param_assert() lets through. */
  function Complete(name: seq<byte>, f: Fields, description: seq<byte>): Option<Entry> {
    if f.value.None? || f.def.None? then None
    else Some(Entry(name, f.value.value.value, OrEmpty(f.value.value.unit), f.def.value, OrEmpty(f.min),
      OrEmpty(f.max), description))
  }

  function Finished(name: seq<byte>, body: Parse<(Fields, seq<byte>)>): Parse<Entry> {
    if body.Failed? then Failed(body.fate)
    else
      var e := Complete(name, body.value.0, body.value.1);
      if e.None? then Failed(Abort) else Parsed(e.value, body.next)
  }

  function EntryAt(text: seq<byte>, pos: nat): (r: Parse<Entry>)
    requires Terminated(text) && pos < |text|
    ensures r.Parsed? ==> pos < r.next < |text|
  {
    var name := NameAt(text, pos);
    if name.Failed? then Failed(name.fate) else Finished(name.value, BodyAt(text, name.next))
  }

  /** All entries, the last one first, in front of `top`. */
  function EntriesAt(text: seq<byte>, pos: nat, top: seq<Entry>): (r: Parse<seq<Entry>>)
    requires Terminated(text) && pos < |text|
    ensures r.Parsed? ==> r.next < |text| && text[r.next] == NUL
    decreases |text| - pos
  {
    if text[pos] == NUL then Parsed(top, pos)
    else
      var e := EntryAt(text, pos);
      if e.Failed? then Failed(e.fate) else EntriesAt(text, e.next, [e.value] + top)
  }

  lemma TitledField(text: seq<byte>, t: nat, title: seq<byte>, w: nat, line: seq<byte>)
    requires Terminated(text) && StartsWith(text, t, title) && w == t + |title| && line == text[w..LineEnd(text, w)]
    ensures var eol := LineEnd(text, w);
      FieldAt(text, t, title, None) == if text[eol] == NUL then Failed(Abort) else Parsed(Some(line), NextLine(text, w))
  {
  }

  lemma BeforeValue(text: seq<byte>, t: nat, title: seq<byte>)
    requires StartsWith(text, t, title) && title != []
    ensures text[t + |title| - 1] == title[|title| - 1]
  {
    StartsWithIs(text, t, title);
  }

  /** struct param_opt, NULL being None. */
  class ParamOpt {
    var name: Option<seq<byte>>
    var value: Option<seq<byte>>
    var unit: Option<seq<byte>>
    var def: Option<seq<byte>>
    var description: Option<seq<byte>>
    var min: Option<seq<byte>>
    var max: Option<seq<byte>>

    constructor ()
      ensures name == value == unit == def == description == min == max == None
    {
      name, value, unit, def, description, min, max := None, None, None, None, None, None, None;
    }

    /** parse_name(), and the step over the newline. */
    method ParseName(text: seq<byte>, raw: nat) returns (r: Parse<seq<byte>>)
      requires Terminated(text) && raw < |text| && name == None
      modifies this`name
      ensures r == NameAt(text, raw) && (r.Parsed? ==> name == Some(r.value))
    {
      var p := SkipSpace(text, raw);
      if p != raw {
        return Failed(Abort);
      }
      var eol := ToLineEnd(text, raw);
      if text[eol] == NUL {
        return Failed(Abort);
      }
      name := Some(text[raw..eol]);
      r := Parsed(text[raw..eol], eol + 1);
    }

    /** The fields that a value sets. */
    ghost predicate Given(v: Option<Value>)
      reads this
    {
      if v.None? then value == None && unit == None && def == None
      else value == Some(v.value.value) && unit == v.value.unit && def == MarkedDefault(v)
    }

    /** parse_value(), up to the end of its line; None is a failed assertion. */
    method ParseValue(text: seq<byte>, w: nat, ghost line: seq<byte>) returns (v: Option<Value>, eol: nat)
      requires Terminated(text) && 0 < w < |text| && text[w - 1] == SPACE && Given(None) &&
        line == text[w..LineEnd(text, w)]
      modifies this`value, this`unit, this`def
      ensures eol == LineEnd(text, w) && (v.Some? ==> text[eol] == NEWLINE && Given(v))
      ensures v == if text[eol] == NUL then None else ReadValue(line)
    {
      eol := ToLineEnd(text, w);
      if text[eol] == NUL {
        return None, eol;
      }
      v := Locate(text, w, eol);
      if v.Some? {
        value, unit := Some(v.value.value), v.value.unit;
        if v.value.isDefault {
          def := value;
        }
      }
    }

    /** The Value line, if there is one; false is a failed assertion. */
    method ParseValueLine(text: seq<byte>, pos: nat, title: seq<byte>) returns (ok: bool, next: nat, v: Option<Value>)
      requires Terminated(text) && pos < |text| && Given(None) && title != [] && title[|title| - 1] == SPACE
      modifies this`value, this`unit, this`def
      ensures var f := FieldAt(text, Skip(text, pos), title, None);
        if ok then f.Parsed? && next == f.next && v == ValueIn(f.value) && (f.value.Some? ==> v.Some?)
        else f.Failed? || (f.value.Some? && ValueIn(f.value).None?)
      ensures ok ==> Given(v)
    {
      var tmp := SkipSpace(text, pos);
      if !StartsWith(text, tmp, title) {
        return true, tmp, None;
      }
      var w := tmp + |title|;
      ghost var line := text[w..LineEnd(text, w)];
      BeforeValue(text, tmp, title);
      TitledField(text, tmp, title, w, line);
      ok, next, v := ParseTitled(text, w, line, FieldAt(text, tmp, title, None));
    }

    /** The value behind its title; f is what the line is as a field. */
    method ParseTitled(text: seq<byte>, w: nat, ghost line: seq<byte>, ghost f: Parse<Option<seq<byte>>>)
      returns (ok: bool, next: nat, v: Option<Value>)
      requires Terminated(text) && 0 < w < |text| && text[w - 1] == SPACE && Given(None) &&
        line == text[w..LineEnd(text, w)]
      requires f == if text[LineEnd(text, w)] == NUL then Failed(Abort) else Parsed(Some(line), NextLine(text, w))
      modifies this`value, this`unit, this`def
      ensures if ok then f.Parsed? && f.value.Some? && next == f.next && v == ValueIn(f.value) && v.Some? && Given(v)
        else f.Failed? || (f.value.Some? && ValueIn(f.value).None?)
    {
      var eol: nat;
      v, eol := ParseValue(text, w, line);
      if v.None? {
        return false, eol, v;
      }
      next := ToNextLine(text, w, eol);
      ok := true;
    }

    /** The fields hold what was read. */
    ghost predicate Set(f: Fields)
      reads this
    {
      && (value.Some? <==> f.value.Some?) && def == f.def && min == f.min && max == f.max
      && (f.value.Some? ==> value == Some(f.value.value.value) && unit == f.value.value.unit)
    }

    method ParseFields(text: seq<byte>, pos: nat) returns (r: Parse<Fields>)
      requires Terminated(text) && pos < |text| && Given(None) && min == max == None
      modifies this`value, this`unit, this`def, this`min, this`max
      ensures r == FieldsAt(text, pos)
      ensures r.Parsed? ==> Set(r.value)
    {
      assert VALUE_IS[9] == SPACE;
      var ok, next, v := ParseValueLine(text, pos, VALUE_IS);
      if !ok {
        return Failed(Abort);
      }
      r := ParseBehind(text, next, v);
    }

    /** The macro PARSE_VALUE, three times. */
    method ParseBehind(text: seq<byte>, pos: nat, v: Option<Value>) returns (r: Parse<Fields>)
      requires Terminated(text) && pos < |text| && Given(v) && min == max == None
      modifies this`def, this`min, this`max
      ensures r == FieldsBehind(text, pos, v)
      ensures r.Parsed? ==> Set(r.value)
    {
      var d := ParseField(text, pos, DEFAULT_IS, def);
      if d.Failed? {
        return Failed(d.fate);
      }
      def := d.value;
      var limits := ParseLimits(text, d.next);
      if limits.Failed? {
        return Failed(limits.fate);
      }
      r := Parsed(Fields(v, def, min, max), limits.next);
    }

    method ParseLimits(text: seq<byte>, pos: nat) returns (r: Parse<(Option<seq<byte>>, Option<seq<byte>>)>)
      requires Terminated(text) && pos < |text| && min == None && max == None
      modifies this`min, this`max
      ensures r == LimitsAt(text, pos) && (r.Parsed? ==> r.value == (min, max))
    {
      var lo := ParseField(text, pos, MINIMUM_IS, min);
      if lo.Failed? {
        return Failed(lo.fate);
      }
      min := lo.value;
      var hi := ParseField(text, lo.next, MAXIMUM_IS, max);
      if hi.Failed? {
        return Failed(hi.fate);
      }
      max := hi.value;
      r := Parsed((min, max), hi.next);
    }

    /** The rest of fill_entry(), with its description buffer. */
    method ParseDescription(text: seq<byte>, pos: nat) returns (r: Parse<seq<byte>>)
      requires Terminated(text) && pos < |text| < SIZE_T - 1
      modifies this`description
      ensures if DescriptionAt(text, pos) == Done
        then r == Parsed(Rendered(LayoutAt(text, pos).0, []), LayoutAt(text, pos).1) && description == Some(r.value)
        else r == Failed(DescriptionAt(text, pos))
    {
      var desc := new byte[DESC](_ => NUL);
      var fate, next := ExtractDescription(text, pos, desc);
      if fate != Done {
        return Failed(fate);
      }
      description := Some(CStr(desc[..]));
      r := Parsed(description.value, next);
    }

    /** fill_entry(). */
    method FillEntry(text: seq<byte>, pos: nat) returns (r: Parse<(Fields, seq<byte>)>)
      requires Terminated(text) && pos < |text| < SIZE_T - 1
      requires Given(None) && min == max == None
      modifies this`value, this`unit, this`def, this`min, this`max, this`description
      ensures r == BodyAt(text, pos)
      ensures r.Parsed? ==> Stored(r.value.0, r.value.1)
    {
      if text[pos] == NUL {
        return Failed(Abort);
      }
      var f := ParseFields(text, pos);
      if f.Failed? {
        return Failed(f.fate);
      }
      var d := ParseDescription(text, f.next);
      if d.Failed? {
        return Failed(d.fate);
      }
      r := Parsed((f.value, d.value), d.next);
    }

    /** The fields hold what was read. */
    ghost predicate Stored(f: Fields, text: seq<byte>)
      reads this
    {
      Set(f) && description == Some(text)
    }

    /** The empty strings for what is missing, and param_assert(). */
    method CheckComplete(ghost f: Fields, ghost text: seq<byte>) returns (e: Option<Entry>)
      requires name.Some? && Stored(f, text)
      ensures e == Complete(name.value, f, text)
    {
      if value.None? || def.None? {
        return None;
      }
      e := Some(Entry(name.value, value.value, OrEmpty(unit), def.value, OrEmpty(min), OrEmpty(max),
        description.value));
    }

    /** One turn of the loop of vparams_show_json(). */
    method ParseEntry(text: seq<byte>, pos: nat) returns (r: Parse<Entry>)
      requires Terminated(text) && pos < |text| < SIZE_T - 1
      requires name == value == unit == def == description == min == max == None
      modifies this
      ensures r == EntryAt(text, pos)
    {
      var n := ParseName(text, pos);
      if n.Failed? {
        return Failed(n.fate);
      }
      var body := FillEntry(text, n.next);
      if body.Failed? {
        return Failed(body.fate);
      }
      var e := CheckComplete(body.value.0, body.value.1);
      if e.None? {
        return Failed(Abort);
      }
      r := Parsed(e.value, body.next);
    }
  }

  /** PARSE_VALUE. */
  method ParseField(text: seq<byte>, pos: nat, title: seq<byte>, was: Option<seq<byte>>)
    returns (r: Parse<Option<seq<byte>>>)
    requires Terminated(text) && pos < |text|
    ensures r == FieldAt(text, pos, title, was)
  {
    if !StartsWith(text, pos, title) {
      return Parsed(was, pos);
    }
    if was.Some? {
      return Failed(Abort);
    }
    var eol := ToLineEnd(text, pos + |title|);
    if text[eol] == NUL {
      return Failed(Abort);
    }
    var next := ToNextLine(text, pos + |title|, eol);
    r := Parsed(Some(text[pos + |title|..eol]), next);
  }

  /** The loop of vparams_show_json(): the list grows at its head. */
  method ParseAll(text: seq<byte>) returns (r: Parse<seq<Entry>>)
    requires Terminated(text) && |text| < SIZE_T - 1
    ensures r == EntriesAt(text, 0, [])
  {
    var pos: nat, top: seq<Entry> := 0, [];
    while text[pos] != NUL
      invariant pos < |text| && EntriesAt(text, pos, top) == EntriesAt(text, 0, [])
      decreases |text| - pos
    {
      var tmp := new ParamOpt();
      var e := tmp.ParseEntry(text, pos);
      if e.Failed? {
        return Failed(e.fate);
      }
      pos, top := e.next, [e.value] + top;
    }
    r := Parsed(top, pos);
  }
}
