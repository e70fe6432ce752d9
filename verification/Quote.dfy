/** The escape printer and parser of the string buffer, and what JSON makes of the former. */
module Quote {
  import opened Bytes
  import Vsb

  // ---- The printer --------------------------------------------------------------------

  /** isgraph() in the C locale. */
  predicate IsGraph(b: byte) { 33 <= b <= 126 }

  predicate IsOctal(b: byte) { 48 <= b <= 55 }

  /** The bytes that come out as an octal escape. */
  predicate Escaped(b: byte) { !IsGraph(b) && b !in {SPACE, NEWLINE, RETURN, TAB} }

  /** "%o" of a byte: no padding. */
  function Octal(b: byte): (s: seq<byte>)
    ensures 1 <= |s| <= 3 && forall i :: 0 <= i < |s| ==> IsOctal(s[i])
  {
    if b < 8 then [ZERO + b]
    else if b < 64 then [ZERO + b / 8, ZERO + b % 8]
    else [ZERO + b / 64, ZERO + b / 8 % 8, ZERO + b % 8]
  }

  const SMALL_N: byte := 110
  const SMALL_R: byte := 114
  const SMALL_T: byte := 116

  /** The character that a two-character escape for b has after its backslash. */
  function Letter(b: byte): Option<byte> {
    if b == BACKSLASH || b == DQUOTE then Some(b)
    else if b == NEWLINE then Some(SMALL_N)
    else if b == RETURN then Some(SMALL_R)
    else if b == TAB then Some(SMALL_T)
    else None
  }

  function QuoteByte(b: byte): (s: seq<byte>)
    ensures |s| >= 1
  {
    if Letter(b).Some? then [BACKSLASH, Letter(b).value]
    else if Escaped(b) then [BACKSLASH] + Octal(b)
    else [b]
  }

  function Body(p: seq<byte>): seq<byte> {
    if p == [] then [] else QuoteByte(p[0]) + Body(p[1..])
  }

  function Quoted(p: seq<byte>): seq<byte> { [DQUOTE] + Body(p) + [DQUOTE] }

  lemma {:induction false} BodyAppend(p: seq<byte>, b: byte)
    ensures Body(p + [b]) == Body(p) + QuoteByte(b)
  {
    if p == [] {
      assert p + [b] == [b] && Body([b][1..]) == [];
    } else {
      assert (p + [b])[1..] == p[1..] + [b];
      BodyAppend(p[1..], b);
    }
  }

  /** VSB_quote(). `len` is -1 for a C string; always with quotes around, and every byte printed
      through the buffer's own operations. On fixed storage, as much as fits, and an error if that is
      not all of it. */
  method Quote(v: Vsb.Vsb, p: seq<byte>, len: int)
    requires v.Valid() && !v.finished
    requires if len == -1 then NUL in p else 0 <= len <= |p|
    modifies v`buf, v`len, v`error, v`starved, v`extensions, v.buf
    ensures v.Kept()
    ensures old(v.error) ==> v.error && v.Contents() == old(v.Contents())
    ensures var q := Quoted(if len == -1 then CStr(p) else p[..len]);
      !old(v.error) ==>
        if v.auto then !old(v.starved) && !v.starved ==> !v.error && v.Contents() == old(v.Contents()) + q
        else
          && v.Contents() == old(v.Contents()) + q[..Min(|q|, old(v.FreeSpace()))]
          && (v.error <==> |q| > old(v.FreeSpace()))
  {
    ghost var s := Vsb.Start(v.Contents(), v.FreeSpace(), v.error);
    QuoteText(v, if len == -1 then CStr(p) else p[..len], s);
  }

  method QuoteText(v: Vsb.Vsb, text: seq<byte>, ghost s: Vsb.Start)
    requires v.Valid() && !v.finished && s == Vsb.Start(v.Contents(), v.FreeSpace(), v.error)
    modifies v`buf, v`len, v`error, v`starved, v`extensions, v.buf
    ensures v.Kept() && v.Added(s, Quoted(text))
    ensures !s.stuck && !v.auto ==> (v.error <==> |Quoted(text)| > s.room)
  {
    assert v.Added(s, []) by { assert v.Contents() + [] == v.Contents(); }
    assert [] + [DQUOTE] == [DQUOTE];
    v.AddByte(DQUOTE, s, []);
    QuoteLoop(v, text, s);
    v.AddByte(DQUOTE, s, [DQUOTE] + Body(text));
  }

  method QuoteLoop(v: Vsb.Vsb, text: seq<byte>, ghost s: Vsb.Start)
    requires v.Added(s, [DQUOTE])
    modifies v`buf, v`len, v`error, v`starved, v`extensions, v.buf
    ensures v.Kept() && v.Added(s, [DQUOTE] + Body(text))
  {
    assert [DQUOTE] + Body([]) == [DQUOTE];
    for q := 0 to |text|
      invariant v.Kept() && v.Added(s, [DQUOTE] + Body(text[..q]))
    {
      PutQuoted(v, text[q], s, [DQUOTE] + Body(text[..q]));
      OneMore([DQUOTE], text, q);
    }
    assert text[..|text|] == text;
  }

  lemma OneMore(before: seq<byte>, text: seq<byte>, q: nat)
    requires q < |text|
    ensures before + Body(text[..q]) + QuoteByte(text[q]) == before + Body(text[..q + 1])
  {
    BodyAppend(text[..q], text[q]);
    assert text[..q + 1] == text[..q] + [text[q]];
  }

  /** The switch inside VSB_quote's loop; t has been printed already. */
  method PutQuoted(v: Vsb.Vsb, b: byte, ghost s: Vsb.Start, ghost t: seq<byte>)
    requires v.Added(s, t)
    modifies v`buf, v`len, v`error, v`starved, v`extensions, v.buf
    ensures v.Kept() && v.Added(s, t + QuoteByte(b))
  {
    if b == SPACE {
      v.AddByte(b, s, t);
    } else if b == BACKSLASH || b == DQUOTE {
      v.AddByte(BACKSLASH, s, t);
      v.AddByte(b, s, t + [BACKSLASH]);
      assert t + [BACKSLASH] + [b] == t + [BACKSLASH, b];
    } else if b == NEWLINE {
      CatPair(v, SMALL_N, s, t);
    } else if b == RETURN {
      CatPair(v, SMALL_R, s, t);
    } else if b == TAB {
      CatPair(v, SMALL_T, s, t);
    } else if IsGraph(b) {
      v.AddByte(b, s, t);
    } else {
      v.AddOutput([BACKSLASH] + Octal(b), s, t);
    }
  }

  /** VSB_cat(s, "\\n") and its like. */
  method CatPair(v: Vsb.Vsb, c: byte, ghost s: Vsb.Start, ghost t: seq<byte>)
    requires v.Added(s, t) && c != NUL
    modifies v`buf, v`len, v`error, v`starved, v`extensions, v.buf
    ensures v.Kept() && v.Added(s, t + [BACKSLASH, c])
  {
    CStrOfTerminated([BACKSLASH, c], []);
    assert [BACKSLASH, c] + [NUL] + [] == [BACKSLASH, c, NUL];
    v.AddString([BACKSLASH, c, NUL], s, t);
  }

  // ---- The parser ---------------------------------------------------------------------

  /** What was appended, and how it ended. */
  datatype End = Fine | Incomplete | OutOfRange

  datatype Unquoted = Unquoted(text: seq<byte>, end: End)

  function Good(text: seq<byte>): Unquoted { Unquoted(text, Fine) }

  function Prepend(b: byte, u: Unquoted): Unquoted { u.(text := [b] + u.text) }

  /** strtoul(&mem[q], &r, 8), where an octal digit stands at q: the index where it stops. */
  function OctalEnd(mem: seq<byte>, q: nat): (r: nat)
    requires q <= |mem|
    ensures q <= r <= |mem|
    decreases |mem| - q
  {
    if q < |mem| && IsOctal(mem[q]) then OctalEnd(mem, q + 1) else q
  }

  function Digit(b: byte): nat { if IsOctal(b) then b - ZERO else 0 }

  /** ... and the value it returns. */
  function OctalValue(mem: seq<byte>, q: nat, r: nat): nat
    requires r <= |mem|
  {
    if r <= q then 0 else 8 * OctalValue(mem, q, r - 1) + Digit(mem[r - 1])
  }

  /** What a backslash turns the byte c after it into, digits aside. */
  function Unescape(c: byte): byte {
    if c == SMALL_N then NEWLINE else if c == SMALL_R then RETURN else if c == SMALL_T then TAB else c
  }

  /** One byte or one escape of a text: where the next one starts, and what it stands for. */
  datatype Token = Token(next: nat, b: byte, end: End)

  /** The first len bytes of `mem` are the text. Octal digits are read as far as they go, even past
      len: `mem` is the C string that the text is part of. */
  function TokenAt(mem: seq<byte>, len: nat, q: nat): (t: Token)
    requires q < len < |mem|
    ensures t.next > q
  {
    if mem[q] != BACKSLASH then Token(q + 1, mem[q], Fine)
    else if q + 1 >= len then Token(q + 1, NUL, Incomplete)
    else if IsOctal(mem[q + 1]) then
      var r := OctalEnd(mem, q + 1);
      var u := OctalValue(mem, q + 1, r);
      if u > 255 || r == q + 1 then Token(q + 1, NUL, OutOfRange) else Token(r, u, Fine)
    else Token(q + 2, Unescape(mem[q + 1]), Fine)
  }

  /** VSB_unquote() from index q on. */
  function Unquote(mem: seq<byte>, len: nat, q: nat): Unquoted
    requires len < |mem|
    decreases len - q
  {
    if q >= len then Good([])
    else
      var t := TokenAt(mem, len, q);
      if t.end.Fine? then Prepend(t.b, Unquote(mem, len, t.next)) else Unquoted([], t.end)
  }

  /** strtoul(&mem[q], &r, 8). */
  method Strtoul8(mem: seq<byte>, q: nat) returns (u: nat, r: nat)
    requires q <= |mem|
    ensures r == OctalEnd(mem, q) && u == OctalValue(mem, q, r)
  {
    u, r := 0, q;
    while r < |mem| && IsOctal(mem[r])
      invariant q <= r <= |mem| && OctalEnd(mem, r) == OctalEnd(mem, q)
      invariant u == OctalValue(mem, q, r)
    {
      u := 8 * u + Digit(mem[r]);
      r := r + 1;
    }
  }

  /** The part of VSB_unquote's loop that finds the next byte. */
  method ReadToken(mem: seq<byte>, len: nat, q: nat) returns (c: byte, r: nat, end: End)
    requires q < len < |mem|
    ensures end == TokenAt(mem, len, q).end
    ensures end.Fine? ==> r == TokenAt(mem, len, q).next && c == TokenAt(mem, len, q).b
  {
    c, r := mem[q], q + 1;
    if c != BACKSLASH { return c, r, Fine; }
    if r >= len { return NUL, r, Incomplete; }
    if IsOctal(mem[r]) {
      c, r, end := UnquoteOctal(mem, r);
    } else {
      c, r, end := Unescape(mem[r]), r + 1, Fine;
    }
  }

  /** VSB_unquote(), with the cursor of the original: it reads to the end, or to an escape it
      refuses, even where the storage is full. */
  method UnquoteInto(v: Vsb.Vsb, mem: seq<byte>, len: nat) returns (end: End)
    requires v.Valid() && !v.finished && len < |mem|
    modifies v`buf, v`len, v`error, v`starved, v`extensions, v.buf
    ensures v.Kept()
    ensures end == Unquote(mem, len, 0).end
    ensures old(v.error) ==> v.error && v.Contents() == old(v.Contents())
    ensures var text := Unquote(mem, len, 0).text;
      !old(v.error) ==>
        if v.auto then !old(v.starved) && !v.starved ==> !v.error && v.Contents() == old(v.Contents()) + text
        else
          && v.Contents() == old(v.Contents()) + text[..Min(|text|, old(v.FreeSpace()))]
          && (v.error <==> |text| > old(v.FreeSpace()))
  {
    ghost var s := Vsb.Start(v.Contents(), v.FreeSpace(), v.error);
    assert v.Added(s, []) by { assert v.Contents() + [] == v.Contents(); }
    end := UnquoteLoop(v, mem, len, s);
  }

  method UnquoteLoop(v: Vsb.Vsb, mem: seq<byte>, len: nat, ghost s: Vsb.Start) returns (end: End)
    requires v.Added(s, []) && len < |mem| && (!s.stuck ==> !v.error)
    modifies v`buf, v`len, v`error, v`starved, v`extensions, v.buf
    ensures v.Kept() && v.Added(s, Unquote(mem, len, 0).text) && end == Unquote(mem, len, 0).end
    ensures !s.stuck && !v.auto ==> (v.error <==> |Unquote(mem, len, 0).text| > s.room)
  {
    var q := 0;
    ghost var acc: seq<byte> := [];
    assert ReadSoFar(mem, len, q, acc);
    while q < len
      invariant v.Kept() && v.Added(s, acc) && (!s.stuck && !v.auto ==> (v.error <==> |acc| > s.room))
      invariant ReadSoFar(mem, len, q, acc)
      decreases len - q
    {
      var c, r, e := ReadToken(mem, len, q);
      if !e.Fine? {
        ReadingStops(mem, len, q, acc);
        return e;
      }
      v.AddBytes([c], s, acc);
      ReadOn(mem, len, q, acc);
      q, acc := r, acc + [c];
    }
    ReadingStops(mem, len, q, acc);
    return Fine;
  }

  /** The bytes before index q stand for acc. */
  ghost predicate ReadSoFar(mem: seq<byte>, len: nat, q: nat, acc: seq<byte>)
    requires len < |mem|
  {
    var rest := Unquote(mem, len, q);
    Unquote(mem, len, 0) == Unquoted(acc + rest.text, rest.end)
  }

  lemma ReadOn(mem: seq<byte>, len: nat, q: nat, acc: seq<byte>)
    requires q < len < |mem| && ReadSoFar(mem, len, q, acc)
    ensures var t := TokenAt(mem, len, q); t.end.Fine? ==> ReadSoFar(mem, len, t.next, acc + [t.b])
  {
    var t := TokenAt(mem, len, q);
    if t.end.Fine? {
      var rest := Unquote(mem, len, t.next);
      assert acc + ([t.b] + rest.text) == acc + [t.b] + rest.text;
    }
  }

  lemma ReadingStops(mem: seq<byte>, len: nat, q: nat, acc: seq<byte>)
    requires len < |mem| && ReadSoFar(mem, len, q, acc) && (q < len ==> !TokenAt(mem, len, q).end.Fine?)
    ensures Unquote(mem, len, 0) == Unquoted(acc, if q < len then TokenAt(mem, len, q).end else Fine)
  {
    assert acc + [] == acc;
  }

  /** The case of an octal digit after the backslash. */
  method UnquoteOctal(mem: seq<byte>, q: nat) returns (c: byte, r: nat, end: End)
    requires q < |mem| && IsOctal(mem[q])
    ensures r == OctalEnd(mem, q) > q
    ensures if OctalValue(mem, q, r) > 255 then end == OutOfRange else end == Fine && c == OctalValue(mem, q, r)
  {
    var u: nat;
    u, r := Strtoul8(mem, q);
    if u > 255 { return NUL, r, OutOfRange; }
    return u, r, Fine;
  }

  // ---- The round trip -------------------------------------------------------------------

  /** No octal-escaped byte is directly followed by a byte that looks like one more digit. */
  predicate Clean(p: seq<byte>) {
    forall i :: 0 <= i < |p| - 1 && Escaped(p[i]) ==> !IsOctal(p[i + 1])
  }

  /** What follows the opening quote: the text, the closing quote, the NUL of the C string. */
  function Tail(p: seq<byte>): seq<byte> { Body(p) + [DQUOTE, NUL] }

  /** How many bytes at the start of p look like octal digits. */
  function Lead(p: seq<byte>): (k: nat)
    ensures k <= |p| && (k > 0 ==> IsOctal(p[0]))
  {
    if p == [] || !IsOctal(p[0]) then 0 else 1 + Lead(p[1..])
  }

  /** From index q on, mem is the quoted form of p. */
  ghost predicate At(mem: seq<byte>, q: nat, p: seq<byte>) {
    q <= |mem| && mem[q..] == Tail(p)
  }

  /** s stands at q. */
  ghost predicate Has(mem: seq<byte>, q: nat, s: seq<byte>) { q + |s| <= |mem| && mem[q..q + |s|] == s }

  lemma HasByte(mem: seq<byte>, q: nat, s: seq<byte>, k: nat)
    requires Has(mem, q, s) && k < |s|
    ensures mem[q + k] == s[k]
  {
    assert mem[q + k] == mem[q..q + |s|][k];
  }

  lemma HasCons(mem: seq<byte>, q: nat, b: byte, s: seq<byte>)
    requires Has(mem, q, [b] + s)
    ensures mem[q] == b && Has(mem, q + 1, s)
  {
    HasByte(mem, q, [b] + s, 0);
    assert s == ([b] + s)[1..] == mem[q..q + 1 + |s|][1..] == mem[q + 1..q + 1 + |s|];
  }

  lemma TailCons(p: seq<byte>)
    requires p != []
    ensures Tail(p) == QuoteByte(p[0]) + Tail(p[1..])
  {
  }

  lemma AtCons(mem: seq<byte>, q: nat, p: seq<byte>)
    requires At(mem, q, p) && p != []
    ensures var s := QuoteByte(p[0]);
      Has(mem, q, s) && At(mem, q + |s|, p[1..]) && q + |s| <= |mem| - 2
  {
    TailCons(p);
    HasPrefix(mem, q, QuoteByte(p[0]), Tail(p[1..]));
  }

  lemma HasPrefix(mem: seq<byte>, q: nat, s: seq<byte>, t: seq<byte>)
    requires q <= |mem| && mem[q..] == s + t
    ensures Has(mem, q, s) && q + |s| + |t| == |mem| && mem[q + |s|..] == t
  {
    assert mem[q..q + |s|] == mem[q..][..|s|];
    assert mem[q + |s|..] == mem[q..][|s|..];
  }

  /** The digits that strtoul can swallow are the digits at the start of what is quoted next. */
  lemma {:induction false} AtLead(mem: seq<byte>, q: nat, p: seq<byte>)
    requires At(mem, q, p)
    ensures OctalEnd(mem, q) == q + Lead(p) && At(mem, OctalEnd(mem, q), p[Lead(p)..])
    decreases |p|
  {
    if p == [] {
      assert mem[q] == mem[q..][0] == DQUOTE;
    } else {
      AtCons(mem, q, p);
      HasByte(mem, q, QuoteByte(p[0]), 0);
      if IsOctal(p[0]) {
        AtLead(mem, q + 1, p[1..]);
      }
    }
  }

  /** One more digit. */
  lemma DigitAt(mem: seq<byte>, q: nat, r: nat)
    requires q <= r < |mem| && IsOctal(mem[r])
    ensures OctalEnd(mem, r) == OctalEnd(mem, r + 1)
    ensures OctalValue(mem, q, r + 1) == 8 * OctalValue(mem, q, r) + Digit(mem[r])
  {
  }

  /** What the digits of an escape come to. */
  lemma OctalMeans(b: byte)
    ensures var o := Octal(b);
      && (|o| == 1 ==> Digit(o[0]) == b)
      && (|o| == 2 ==> 8 * Digit(o[0]) + Digit(o[1]) == b)
      && (|o| == 3 ==> 8 * (8 * Digit(o[0]) + Digit(o[1])) + Digit(o[2]) == b)
  {
  }

  /** The digits of one escape, read where they stand, with k more behind them. */
  lemma OctalAt(mem: seq<byte>, q: nat, b: byte)
    requires Has(mem, q, Octal(b))
    ensures OctalEnd(mem, q) == OctalEnd(mem, q + |Octal(b)|)
    ensures OctalValue(mem, q, q + |Octal(b)|) == b
  {
    var o := Octal(b);
    OctalMeans(b);
    HasByte(mem, q, o, 0);
    DigitAt(mem, q, q);
    if |o| >= 2 {
      HasByte(mem, q, o, 1);
      DigitAt(mem, q, q + 1);
    }
    if |o| == 3 {
      HasByte(mem, q, o, 2);
      DigitAt(mem, q, q + 2);
    }
  }

  /** One byte that is not octal-escaped is read back alone. */
  lemma PlainToken(mem: seq<byte>, len: nat, q: nat, b: byte)
    requires !Escaped(b) && q + |QuoteByte(b)| <= len < |mem| && Has(mem, q, QuoteByte(b))
    ensures TokenAt(mem, len, q) == Token(q + |QuoteByte(b)|, b, Fine)
  {
    HasByte(mem, q, QuoteByte(b), 0);
    if Letter(b).Some? { HasByte(mem, q, QuoteByte(b), 1); }
  }

  /** An octal escape, whose own digits end at e, takes the octal digits after it along, up to n. */
  lemma EscapedToken(mem: seq<byte>, len: nat, q: nat, b: byte, e: nat, n: nat)
    requires e == q + 1 + |Octal(b)| <= len < |mem| && mem[q] == BACKSLASH && n == OctalEnd(mem, e)
    requires Has(mem, q + 1, Octal(b))
    ensures var t := TokenAt(mem, len, q);
      && (n == e ==> t.end.Fine? && t.b == b)
      && (t.end.Fine? ==> t.next == n)
  {
    OctalAt(mem, q + 1, b);
    HasByte(mem, q + 1, Octal(b), 0);
  }

  lemma EscapedAt(mem: seq<byte>, q: nat, p: seq<byte>, e: nat)
    requires At(mem, q, p) && p != [] && Escaped(p[0]) && e == q + 1 + |Octal(p[0])|
    ensures e <= |mem| - 2 && mem[q] == BACKSLASH && Has(mem, q + 1, Octal(p[0])) && At(mem, e, p[1..])
  {
    AtCons(mem, q, p);
    HasCons(mem, q, BACKSLASH, Octal(p[0]));
  }

  lemma {:induction false} RoundTripAt(mem: seq<byte>, q: nat, p: seq<byte>)
    requires At(mem, q, p)
    ensures var u := Unquote(mem, |mem| - 2, q);
      && (Clean(p) ==> u == Good(p))
      && (u.end.Fine? ==> |u.text| <= |p|)
      && (!Clean(p) && u.end.Fine? ==> |u.text| < |p|)
    decreases |p|
  {
    var len := |mem| - 2;
    assert |mem[q..]| == |Body(p)| + 2;
    if p != [] {
      var r := if Escaped(p[0]) then Lead(p[1..]) else 0;
      CleanCons(p);
      TokenFor(mem, q, p, r);
      var t := TokenAt(mem, len, q);
      if t.end.Fine? { RoundTripAt(mem, t.next, p[1 + r..]); }
      if r == 0 { assert p == [p[0]] + p[1..]; } else { assert p[1..][0] == p[1]; }
    }
  }

  lemma TokenForEscaped(mem: seq<byte>, q: nat, p: seq<byte>, r: nat)
    requires At(mem, q, p) && p != [] && Escaped(p[0]) && r == Lead(p[1..])
    ensures q < |mem| - 2
    ensures var t := TokenAt(mem, |mem| - 2, q);
      && (r == 0 ==> t.end.Fine? && t.b == p[0])
      && (t.end.Fine? ==> At(mem, t.next, p[1 + r..]))
  {
    var e := q + 1 + |Octal(p[0])|;
    EscapedAt(mem, q, p, e);
    AtLead(mem, e, p[1..]);
    EscapedToken(mem, |mem| - 2, q, p[0], e, OctalEnd(mem, e));
    assert p[1..][r..] == p[1 + r..];
  }

  lemma TokenForPlain(mem: seq<byte>, q: nat, p: seq<byte>)
    requires At(mem, q, p) && p != [] && !Escaped(p[0])
    ensures q < |mem| - 2
    ensures var t := TokenAt(mem, |mem| - 2, q); t.end.Fine? && t.b == p[0] && At(mem, t.next, p[1..])
  {
    AtCons(mem, q, p);
    PlainToken(mem, |mem| - 2, q, p[0]);
  }

  /** The token that stands for p's first byte, or for it and the digits it takes along. */
  lemma TokenFor(mem: seq<byte>, q: nat, p: seq<byte>, r: nat)
    requires At(mem, q, p) && p != [] && r == if Escaped(p[0]) then Lead(p[1..]) else 0
    ensures q < |mem| - 2
    ensures var t := TokenAt(mem, |mem| - 2, q);
      && (r == 0 ==> t.end.Fine? && t.b == p[0])
      && (t.end.Fine? ==> At(mem, t.next, p[1 + r..]))
  {
    if Escaped(p[0]) {
      TokenForEscaped(mem, q, p, r);
    } else {
      TokenForPlain(mem, q, p);
    }
  }

  lemma CleanCons(p: seq<byte>)
    requires p != []
    ensures Clean(p) <==> Clean(p[1..]) && !(Escaped(p[0]) && |p| > 1 && IsOctal(p[1]))
  {
  }

  /** Unquoting what is between the quotes gives the bytes back, if and only if no octal-escaped
      byte is directly followed by an octal digit: escapes are not padded. */
  lemma RoundTrip(p: seq<byte>)
    ensures Unquote(Quoted(p)[1..] + [NUL], |Quoted(p)| - 2, 0) == Good(p) <==> Clean(p)
  {
    var mem := Quoted(p)[1..] + [NUL];
    assert mem[0..] == mem == Tail(p);
    RoundTripAt(mem, 0, p);
  }

  /** Byte 1 and the digit 1: what is printed as \\11 is read as a tab. */
  lemma RoundTripCanFail()
    ensures var q := Quoted([1, 49]); Unquote(q[1..] + [NUL], |q| - 2, 0) != Good([1, 49])
  {
    RoundTrip([1, 49]);
    assert Escaped([1, 49][0]) && IsOctal([1, 49][1]);
  }

  // ---- Known texts, and what is refused ---------------------------------------------------

  /** The escapes, letter by letter. */
  lemma KnownMarks()
    ensures Quoted(Ascii("a \"\\")) == Ascii("\"a \\\"\\\\\"")
  {
    FourBytes(97, SPACE, DQUOTE, BACKSLASH);
    assert Ascii("a \"\\") == [97, SPACE, DQUOTE, BACKSLASH];
  }

  lemma KnownEnds()
    ensures Quoted(Ascii("\n\r\t")) == Ascii("\"\\n\\r\\t\"")
  {
    ThreeBytes(NEWLINE, RETURN, TAB);
    assert Ascii("\n\r\t") == [NEWLINE, RETURN, TAB];
  }

  lemma KnownOctals()
    ensures Quoted([1, 127]) == Ascii("\"\\1\\177\"")
  {
    TwoBytes(1, 127);
    assert Octal(1) == [49] && Octal(127) == [49, 55, 55];
  }

  lemma TwoBytes(a: byte, b: byte)
    ensures Body([a, b]) == QuoteByte(a) + QuoteByte(b)
  {
    assert [a, b][1..] == [b] && |[b][1..]| == 0;
    assert Body([b]) == QuoteByte(b) + [];
  }

  lemma ThreeBytes(a: byte, b: byte, c: byte)
    ensures Body([a, b, c]) == QuoteByte(a) + QuoteByte(b) + QuoteByte(c)
  {
    assert [a, b, c][1..] == [b, c];
    TwoBytes(b, c);
  }

  lemma FourBytes(a: byte, b: byte, c: byte, d: byte)
    ensures Body([a, b, c, d]) == QuoteByte(a) + QuoteByte(b) + QuoteByte(c) + QuoteByte(d)
  {
    assert [a, b, c, d][1..] == [b, c, d];
    ThreeBytes(b, c, d);
  }

  /** A text is refused as incomplete only for a backslash at its very end. */
  lemma {:induction false} IncompleteMeans(mem: seq<byte>, len: nat, q: nat)
    requires len < |mem| && Unquote(mem, len, q).end == Incomplete
    ensures q < len && mem[len - 1] == BACKSLASH
    decreases len - q
  {
    var t := TokenAt(mem, len, q);
    if t.end.Fine? { IncompleteMeans(mem, len, t.next); }
  }

  /** ... and as out of range only for octal digits behind a backslash that come to more than 255. */
  lemma {:induction false} OutOfRangeMeans(mem: seq<byte>, len: nat, q: nat) returns (k: nat)
    requires len < |mem| && Unquote(mem, len, q).end == OutOfRange
    ensures q <= k && k + 1 < len && mem[k] == BACKSLASH && IsOctal(mem[k + 1])
    ensures OctalValue(mem, k + 1, OctalEnd(mem, k + 1)) > 255
    decreases len - q
  {
    var t := TokenAt(mem, len, q);
    if t.end.Fine? { k := OutOfRangeMeans(mem, len, t.next); } else { k := q; }
  }

  /** "a\\" ends too early, "\\400" is too large, "\\377" is the largest byte, "\\x" is an x. */
  lemma KnownRefusals()
    ensures Unquote(Ascii("a\\") + [NUL], 2, 0) == Unquoted(Ascii("a"), Incomplete)
    ensures Unquote(Ascii("\\400") + [NUL], 4, 0) == Unquoted([], OutOfRange)
    ensures Unquote(Ascii("\\377") + [NUL], 4, 0) == Good([255])
    ensures Unquote(Ascii("\\x") + [NUL], 2, 0) == Good(Ascii("x"))
  {
    assert Ascii("a\\") + [NUL] == [97, BACKSLASH, NUL] && Ascii("\\x") + [NUL] == [BACKSLASH, 120, NUL];
    assert Ascii("a") == [97] && Ascii("x") == [120];
    ThreeDigits(52, 48, 48);
    ThreeDigits(51, 55, 55);
    assert Ascii("\\400") + [NUL] == [BACKSLASH, 52, 48, 48, NUL];
    assert Ascii("\\377") + [NUL] == [BACKSLASH, 51, 55, 55, NUL];
    assert Unquote([97, BACKSLASH, NUL], 2, 1) == Unquoted([], Incomplete);
  }

  lemma ThreeDigits(a: byte, b: byte, c: byte)
    requires IsOctal(a) && IsOctal(b) && IsOctal(c)
    ensures var mem, u := [BACKSLASH, a, b, c, NUL], 64 * Digit(a) + 8 * Digit(b) + Digit(c);
      Unquote(mem, 4, 0) == if u > 255 then Unquoted([], OutOfRange) else Good([u])
  {
    var mem := [BACKSLASH, a, b, c, NUL];
    DigitAt(mem, 1, 1);
    DigitAt(mem, 1, 2);
    DigitAt(mem, 1, 3);
    assert OctalEnd(mem, 4) == 4;
  }

  // ---- Framing ----------------------------------------------------------------------------

  predicate Printable(b: byte) { 32 <= b <= 126 }

  /** Where a scanner that skips what a backslash protects finds the closing quote, if at all. */
  function ClosingQuote(s: seq<byte>): Option<nat>
  {
    if s == [] then None
    else if s[0] == DQUOTE then Some(0)
    else
      var skip := if s[0] == BACKSLASH then 2 else 1;
      if skip > |s| then None
      else
        var r := ClosingQuote(s[skip..]);
        if r.Some? then Some(r.value + skip) else None
  }

  lemma {:induction false} PlainPrefix(a: seq<byte>, s: seq<byte>)
    requires forall i :: 0 <= i < |a| ==> a[i] != DQUOTE && a[i] != BACKSLASH
    requires ClosingQuote(s).Some?
    ensures ClosingQuote(a + s) == Some(ClosingQuote(s).value + |a|)
  {
    if a == [] {
      assert a + s == s;
    } else {
      assert (a + s)[1..] == a[1..] + s;
      PlainPrefix(a[1..], s);
    }
  }

  /** The output is printable ASCII, and its closing quote is its last byte and no other. */
  lemma {:induction false} QuotedIsFramed(p: seq<byte>)
    ensures forall i :: 0 <= i < |Quoted(p)| ==> Printable(Quoted(p)[i])
    ensures ClosingQuote(Quoted(p)[1..]) == Some(|Quoted(p)| - 2)
  {
    assert Quoted(p)[1..] == Body(p) + [DQUOTE];
    BodyFramed(p);
  }

  lemma {:induction false} BodyFramed(p: seq<byte>)
    ensures forall i :: 0 <= i < |Body(p)| ==> Printable(Body(p)[i])
    ensures ClosingQuote(Body(p) + [DQUOTE]) == Some(|Body(p)|)
  {
    if p != [] {
      BodyFramed(p[1..]);
      var rest := Body(p[1..]) + [DQUOTE];
      assert Body(p) + [DQUOTE] == QuoteByte(p[0]) + rest;
      QuoteBytePrintable(p[0]);
      FrameCons(p[0], rest);
    }
  }

  lemma FrameCons(b: byte, rest: seq<byte>)
    requires ClosingQuote(rest).Some?
    ensures ClosingQuote(QuoteByte(b) + rest) == Some(|QuoteByte(b)| + ClosingQuote(rest).value)
  {
    if Letter(b).None? && !Escaped(b) {
      PlainPrefix([b], rest);
    } else {
      FrameEscape(QuoteByte(b), rest);
    }
  }

  /** A backslash protects the byte behind it; more plain bytes may follow. */
  lemma FrameEscape(q: seq<byte>, rest: seq<byte>)
    requires ClosingQuote(rest).Some? && |q| >= 2 && q[0] == BACKSLASH
    requires forall i :: 2 <= i < |q| ==> q[i] != DQUOTE && q[i] != BACKSLASH
    ensures ClosingQuote(q + rest) == Some(|q| + ClosingQuote(rest).value)
  {
    BehindBackslash(q[1], q[2..], rest);
    Regroup(q, rest);
  }

  lemma BehindBackslash(c: byte, more: seq<byte>, rest: seq<byte>)
    requires ClosingQuote(rest).Some? && forall i :: 0 <= i < |more| ==> more[i] != DQUOTE && more[i] != BACKSLASH
    ensures ClosingQuote([BACKSLASH, c] + (more + rest)) == Some(2 + |more| + ClosingQuote(rest).value)
  {
    PlainPrefix(more, rest);
    SkipTwo(c, more + rest);
  }

  lemma Regroup(q: seq<byte>, rest: seq<byte>)
    requires |q| >= 2
    ensures q + rest == [q[0], q[1]] + (q[2..] + rest)
  {
  }

  lemma QuoteBytePrintable(b: byte)
    ensures forall i :: 0 <= i < |QuoteByte(b)| ==> Printable(QuoteByte(b)[i])
  {
  }

  lemma SkipTwo(c: byte, t: seq<byte>)
    requires ClosingQuote(t).Some?
    ensures ClosingQuote([BACKSLASH, c] + t) == Some(ClosingQuote(t).value + 2)
  {
    assert ([BACKSLASH, c] + t)[2..] == t;
  }

  // ---- JSON -------------------------------------------------------------------------------

  function HexDigit(b: byte): Option<nat> {
    if 48 <= b <= 57 then Some(b - 48)
    else if 65 <= b <= 70 then Some(b - 55)
    else if 97 <= b <= 102 then Some(b - 87)
    else None
  }

  /** The two-character escapes of section 7 of RFC 8259. */
  function JsonEscape(c: byte): Option<nat> {
    if c in {DQUOTE, BACKSLASH, 47} then Some(c as nat)
    else if c == 98 then Some(8)
    else if c == 102 then Some(12)
    else if c == SMALL_N then Some(10)
    else if c == SMALL_R then Some(13)
    else if c == SMALL_T then Some(9)
    else None
  }

  /** The characters a JSON string denotes, given what follows its opening quote; nothing if it is
      no JSON string. ASCII texts only: VSB_quote emits no other. */
  function JsonTail(s: seq<byte>): Option<seq<nat>> {
    if s == [] then None
    else if s[0] == DQUOTE then if |s| == 1 then Some([]) else None
    else if s[0] == BACKSLASH then
      if |s| < 2 then None
      else if s[1] == 117 then
        if |s| < 6 then None
        else
          var a, b, c, d := HexDigit(s[2]), HexDigit(s[3]), HexDigit(s[4]), HexDigit(s[5]);
          var r := JsonTail(s[6..]);
          if a.Some? && b.Some? && c.Some? && d.Some? && r.Some? then
            Some([4096 * a.value + 256 * b.value + 16 * c.value + d.value] + r.value)
          else None
      else
        var e, r := JsonEscape(s[1]), JsonTail(s[2..]);
        if e.Some? && r.Some? then Some([e.value] + r.value) else None
    else if !Printable(s[0]) && s[0] != 127 then None
    else
      var r := JsonTail(s[1..]);
      if r.Some? then Some([s[0] as nat] + r.value) else None
  }

  function Chars(p: seq<byte>): seq<nat> { seq(|p|, i requires 0 <= i < |p| => p[i] as nat) }

  lemma {:induction false} JsonOfBody(p: seq<byte>)
    ensures JsonTail(Body(p) + [DQUOTE]) ==
      if AnyEscaped(p) then None else Some(Chars(p))
  {
    if p == [] {
      assert Body(p) + [DQUOTE] == [DQUOTE];
    } else {
      JsonOfBody(p[1..]);
      var rest := Body(p[1..]) + [DQUOTE];
      assert Body(p) + [DQUOTE] == QuoteByte(p[0]) + rest;
      JsonCons(p[0], rest);
      AnyEscapedCons(p);
      assert Chars(p) == [p[0] as nat] + Chars(p[1..]);
    }
  }

  lemma JsonCons(b: byte, rest: seq<byte>)
    ensures JsonTail(QuoteByte(b) + rest) ==
      if Escaped(b) || JsonTail(rest).None? then None else Some([b as nat] + JsonTail(rest).value)
  {
    var s := QuoteByte(b) + rest;
    if Letter(b).Some? {
      assert s[0] == BACKSLASH && s[1] == Letter(b).value && s[2..] == rest;
    } else if Escaped(b) {
      OctalIsNoJson(Octal(b), rest);
      assert s == [BACKSLASH] + (Octal(b) + rest);
    } else {
      assert s[0] == b && s[1..] == rest;
    }
  }

  /** JSON has no octal escapes. */
  lemma OctalIsNoJson(o: seq<byte>, rest: seq<byte>)
    requires o != [] && IsOctal(o[0])
    ensures JsonTail([BACKSLASH] + (o + rest)) == None
  {
    var s := [BACKSLASH] + (o + rest);
    assert s[0] == BACKSLASH && s[1] == o[0] && JsonEscape(o[0]) == None;
  }

  predicate AnyEscaped(p: seq<byte>) { exists i :: 0 <= i < |p| && Escaped(p[i]) }

  lemma AnyEscapedCons(p: seq<byte>)
    requires p != []
    ensures AnyEscaped(p) <==> Escaped(p[0]) || AnyEscaped(p[1..])
  {
  }

  /** VSB_quote prints a JSON string that denotes its argument exactly when every byte of it is
      printable ASCII, a newline, a carriage return or a tab. */
  lemma JsonStringIff(p: seq<byte>)
    ensures JsonTail(Quoted(p)[1..]) == Some(Chars(p)) <==>
      forall i :: 0 <= i < |p| ==> Printable(p[i]) || p[i] in {NEWLINE, RETURN, TAB}
  {
    assert Quoted(p)[1..] == Body(p) + [DQUOTE];
    JsonOfBody(p);
    if i :| 0 <= i < |p| && Escaped(p[i]) {
      assert !(Printable(p[i]) || p[i] in {NEWLINE, RETURN, TAB});
    }
  }

  /** Byte 1 alone is quoted to something that is no JSON string for it. */
  lemma JsonCanFail()
    ensures JsonTail(Quoted([1])[1..]) != Some(Chars([1]))
  {
    JsonStringIff([1]);
    assert !Printable([1][0]);
  }
}
