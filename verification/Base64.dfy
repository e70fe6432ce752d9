/** The four shift-and-mask expressions of the encoder, and the arithmetic that they stand for. */
module Sixths {
  import opened Bytes

  lemma Doubled(x: bv8)
    requires x as int < 128
    ensures (x << 1) as int == 2 * x as int
  {
  }

  lemma DoubledAndOne(x: bv8)
    requires x as int < 128
    ensures ((x << 1) | 1) as int == 2 * x as int + 1
  {
  }

  /** The bits of a byte. */
  function Bits(a: byte): (x: bv8)
    ensures x as int == a
  {
    if a == 0 then 0
    else
      var h := Bits(a / 2);
      Doubled(h); DoubledAndOne(h);
      if a % 2 == 0 then h << 1 else (h << 1) | 1
  }

  lemma TopSix(x: bv8)
    ensures (x >> 2) as int == x as int / 4
  {
  }

  lemma LowTwo(x: bv8)
    ensures ((x & 0x03) << 4) as int == x as int % 4 * 16
  {
  }

  lemma LowTwoClear(x: bv8)
    ensures ((x & 0x03) << 4) & 0x0f == 0
  {
  }

  lemma TopFour(x: bv8)
    ensures (x >> 4) as int == x as int / 16
  {
  }

  lemma TopFourSmall(x: bv8)
    ensures x >> 4 < 16
  {
  }

  lemma LowFour(x: bv8)
    ensures ((x & 0x0f) << 2) as int == x as int % 16 * 4
  {
  }

  lemma LowFourClear(x: bv8)
    ensures ((x & 0x0f) << 2) & 0x03 == 0
  {
  }

  lemma TopTwo(x: bv8)
    ensures (x >> 6) as int == x as int / 64
  {
  }

  lemma TopTwoSmall(x: bv8)
    ensures x >> 6 < 4
  {
  }

  lemma LowSix(x: bv8)
    ensures (x & 0x3f) as int == x as int % 64
  {
  }

  lemma OrFour(x: bv8, y: bv8)
    requires x & 0x0f == 0 && y < 16
    ensures (x | y) as int == x as int + y as int
  {
  }

  lemma OrTwo(x: bv8, y: bv8)
    requires x & 0x03 == 0 && y < 4
    ensures (x | y) as int == x as int + y as int
  {
  }

  function Index0(a: byte): (i: int)
    ensures i == a / 4
  {
    var x := Bits(a);
    TopSix(x);
    (x >> 2) as int
  }

  function Index1(a: byte, b: byte): (i: int)
    ensures i == a % 4 * 16 + b / 16
  {
    var x, y := Bits(a), Bits(b);
    LowTwo(x); LowTwoClear(x); TopFour(y); TopFourSmall(y);
    OrFour((x & 0x03) << 4, y >> 4);
    (((x & 0x03) << 4) | (y >> 4)) as int
  }

  function Index2(b: byte, c: byte): (i: int)
    ensures i == b % 16 * 4 + c / 64
  {
    var x, y := Bits(b), Bits(c);
    LowFour(x); LowFourClear(x); TopTwo(y); TopTwoSmall(y);
    OrTwo((x & 0x0f) << 2, y >> 6);
    (((x & 0x0f) << 2) | (y >> 6)) as int
  }

  /** The third index of a last group of two bytes. */
  function Index2Last(b: byte): (i: int)
    ensures i == b % 16 * 4
  {
    var x := Bits(b);
    LowFour(x);
    ((x & 0x0f) << 2) as int
  }

  function Index3(c: byte): (i: int)
    ensures i == c % 64
  {
    var x := Bits(c);
    LowSix(x);
    (x & 0x3f) as int
  }
}

/** The base64 encoder that the agent's password check rests on. */
module Base64 {
  import opened Bytes
  import Vsb
  import Sixths

  // ---- Alphabets ------------------------------------------------------------------------

  datatype Alphabet = Alphabet(b64: seq<byte>, padding: byte)

  /** A-Z, a-z, 0-9 and two more. */
  function Letters(sym62: byte, sym63: byte): (s: seq<byte>)
    ensures |s| == 64
  {
    seq(64, i requires 0 <= i < 64 =>
      if i < 26 then 65 + i
      else if i < 52 then 97 + (i - 26)
      else if i < 62 then 48 + (i - 52)
      else if i == 62 then sym62 else sym63)
  }

  const BASE64 := Alphabet(Letters(43, 47), 61)            // '+', '/', padded with '='
  const BASE64URL := Alphabet(Letters(45, 95), 61)         // '-', '_', padded with '='
  const BASE64URLNOPAD := Alphabet(Letters(45, 95), NUL)   // '-', '_', padded with NUL

  /** 64 different symbols, none of them the padding or NUL. */
  ghost predicate Proper(al: Alphabet) {
    && |al.b64| == 64
    && (forall i, j :: 0 <= i < j < 64 ==> al.b64[i] != al.b64[j])
    && al.padding !in al.b64 && NUL !in al.b64
  }

  /** The alphabets, symbol by symbol. */
  lemma KnownAlphabets()
    ensures BASE64.b64 == Ascii("ABCDEFGHIJKLMNOP") + Ascii("QRSTUVWXYZabcdef") +
                          Ascii("ghijklmnopqrstuv") + Ascii("wxyz0123456789+/")
    ensures BASE64URL.b64 == Ascii("ABCDEFGHIJKLMNOP") + Ascii("QRSTUVWXYZabcdef") +
                             Ascii("ghijklmnopqrstuv") + Ascii("wxyz0123456789-_")
    ensures BASE64URLNOPAD.b64 == BASE64URL.b64
    ensures BASE64.padding == 61 && BASE64URL.padding == 61 && BASE64URLNOPAD.padding == 0
  {
    Quarters(43, 47);
    Quarters(45, 95);
    assert Ascii("wxyz0123456789") + [43, 47] == Ascii("wxyz0123456789+/");
    assert Ascii("wxyz0123456789") + [45, 95] == Ascii("wxyz0123456789-_");
  }

  lemma Quarters(x: byte, y: byte)
    ensures Letters(x, y) == Ascii("ABCDEFGHIJKLMNOP") + Ascii("QRSTUVWXYZabcdef") +
                             Ascii("ghijklmnopqrstuv") + (Ascii("wxyz0123456789") + [x, y])
  {
    var s := Letters(x, y);
    Quarter1(x, y);
    Quarter2(x, y);
    Quarter3(x, y);
    Quarter4(x, y);
    assert s == s[..16] + s[16..32] + s[32..48] + s[48..];
  }

  lemma Quarter1(x: byte, y: byte)
    ensures Letters(x, y)[..16] == Ascii("ABCDEFGHIJKLMNOP")
  {
  }

  lemma Quarter2(x: byte, y: byte)
    ensures Letters(x, y)[16..32] == Ascii("QRSTUVWXYZabcdef")
  {
  }

  lemma Quarter3(x: byte, y: byte)
    ensures Letters(x, y)[32..48] == Ascii("ghijklmnopqrstuv")
  {
  }

  lemma Quarter4(x: byte, y: byte)
    ensures Letters(x, y)[48..] == Ascii("wxyz0123456789") + [x, y]
  {
    var s := Letters(x, y);
    assert s[48..62] == Ascii("wxyz0123456789") && s[62..] == [x, y];
    assert s[48..] == s[48..62] + s[62..];
  }

  lemma GroupFirst(a: byte, b: byte, c: byte, rest: seq<byte>)
    ensures Pieces([a, b, c] + rest) == Pieces3(a, b, c) + Pieces(rest)
  {
    assert ([a, b, c] + rest)[3..] == rest;
  }

  lemma KnownPieces()
    ensures Pieces([118, 97, 114] + ([110, 105, 115] + ([104, 58, 97] + ([103, 101, 110] + [116])))) ==
      [29, 38, 5, 50, 27, 38, 37, 51, 26, 3, 41, 33, 25, 54, 21, 46, 29, 0, PAD, PAD]
  {
    GroupFirst(103, 101, 110, [116]);
    GroupFirst(104, 58, 97, [103, 101, 110] + [116]);
    GroupFirst(110, 105, 115, [104, 58, 97] + ([103, 101, 110] + [116]));
    GroupFirst(118, 97, 114, [110, 105, 115] + ([104, 58, 97] + ([103, 101, 110] + [116])));
    PiecesOf1(116);
  }

  lemma KnownBytes()
    ensures Ascii("varnish:agent") == [118, 97, 114] + ([110, 105, 115] + ([104, 58, 97] + ([103, 101, 110] + [116])))
  {
  }

  lemma KnownSymbols()
    ensures Render(BASE64, [29, 38, 5, 50, 27, 38, 37, 51, 26, 3, 41, 33]) == Ascii("dmFybmlzaDph")
    ensures Render(BASE64, [25, 54, 21, 46, 29, 0, PAD, PAD]) == Ascii("Z2VudA==")
  {
  }

  /** A line of user and password, and what a client makes of it. */
  lemma KnownLine()
    ensures Encode(BASE64, Ascii("varnish:agent")) == Ascii("dmFybmlzaDph") + Ascii("Z2VudA==")
  {
    KnownBytes();
    KnownPieces();
    KnownSymbols();
    var p, q := [29, 38, 5, 50, 27, 38, 37, 51, 26, 3, 41, 33], [25, 54, 21, 46, 29, 0, PAD, PAD];
    RenderAppend(BASE64, p, q);
    assert p + q == [29, 38, 5, 50, 27, 38, 37, 51, 26, 3, 41, 33, 25, 54, 21, 46, 29, 0, PAD, PAD];
  }

  lemma KnownAreProper()
    ensures Proper(BASE64) && Proper(BASE64URL) && Proper(BASE64URLNOPAD)
  {
  }

  /** The table i64: a symbol's index; else 0 for a padding character other than NUL, -1 for the rest. */
  ghost function Value(al: Alphabet, c: byte): (v: int)
    ensures v < |al.b64| || v == 0
  {
    if i :| 0 <= i < |al.b64| && al.b64[i] == c then i
    else if c == al.padding && c != NUL then 0
    else -1
  }

  /** digest_alpha_init(). */
  method AlphaInit(al: Alphabet) returns (i64: array<int>)
    requires Proper(al)
    ensures fresh(i64) && i64.Length == 256
    ensures forall c: byte :: i64[c] == Value(al, c)
  {
    i64 := new int[256](_ => -1);
    var i := 0;
    while i < |al.b64|
      invariant i <= |al.b64| == 64
      invariant forall k :: 0 <= k < i ==> i64[al.b64[k]] == k
      invariant forall c: byte :: c !in al.b64[..i] ==> i64[c] == -1
    {
      i64[al.b64[i]] := i;
      i := i + 1;
    }
    assert al.b64[..64] == al.b64;
    if al.padding != NUL {
      i64[al.padding] := 0;
    }
  }

  // ---- Encoding -------------------------------------------------------------------------

  const PAD := -1

  /** Four sixths of three bytes. */
  function Pieces3(a: byte, b: byte, c: byte): seq<int> {
    [a / 4, a % 4 * 16 + b / 16, b % 16 * 4 + c / 64, c % 64]
  }

  /** Section 4 of RFC 4648: 24 bits at a time, the last group padded. */
  function Pieces(s: seq<byte>): seq<int> {
    if |s| == 0 then []
    else if |s| == 1 then Pieces3(s[0], 0, 0)[..2] + [PAD, PAD]
    else if |s| == 2 then Pieces3(s[0], s[1], 0)[..3] + [PAD]
    else Pieces3(s[0], s[1], s[2]) + Pieces(s[3..])
  }

  predicate InRange(p: seq<int>) { forall i :: 0 <= i < |p| ==> PAD <= p[i] < 64 }

  function Render(al: Alphabet, p: seq<int>): (t: seq<byte>)
    requires |al.b64| == 64 && InRange(p)
    ensures |t| == |p|
  {
    seq(|p|, i requires 0 <= i < |p| => if p[i] == PAD then al.padding else al.b64[p[i]])
  }

  lemma {:induction false} PiecesInRange(s: seq<byte>)
    ensures InRange(Pieces(s))
  {
    if |s| >= 3 { PiecesInRange(s[3..]); }
  }

  function Encode(al: Alphabet, s: seq<byte>): seq<byte>
    requires |al.b64| == 64
  {
    PiecesInRange(s);
    Render(al, Pieces(s))
  }

  /** A growable buffer in good order, unless memory has run out. */
  ghost predicate Ready(out: Vsb.Vsb)
    reads out
  {
    out.Valid() && out.auto && !out.finished && out.error == out.starved
  }

  /** VSB_putc() of alpha->b64[i], or of the padding. */
  method PutPiece(al: Alphabet, out: Vsb.Vsb, i: int)
    requires Ready(out) && |al.b64| == 64 && PAD <= i < 64
    modifies out`buf, out`len, out`error, out`starved, out`extensions, out.buf
    ensures out.Kept() && Ready(out)
    ensures !out.starved ==> out.Contents() == old(out.Contents()) + Render(al, [i])
  {
    out.PutByte(if i == PAD then al.padding else al.b64[i]);
  }

  lemma RenderAppend(al: Alphabet, p: seq<int>, q: seq<int>)
    requires |al.b64| == 64 && InRange(p) && InRange(q)
    ensures InRange(p + q) && Render(al, p + q) == Render(al, p) + Render(al, q)
  {
  }

  /** Four pieces, one after the other. */
  method PutPieces(al: Alphabet, out: Vsb.Vsb, p: seq<int>)
    requires Ready(out) && |al.b64| == 64 && InRange(p)
    modifies out`buf, out`len, out`error, out`starved, out`extensions, out.buf
    ensures out.Kept() && Ready(out)
    ensures !out.starved ==> out.Contents() == old(out.Contents()) + Render(al, p)
  {
    for j := 0 to |p|
      invariant out.Kept() && Ready(out)
      invariant !out.starved ==> out.Contents() == old(out.Contents()) + Render(al, p[..j])
    {
      PutPiece(al, out, p[j]);
      assert p[..j + 1] == p[..j] + [p[j]];
      RenderAppend(al, p[..j], [p[j]]);
    }
    assert p[..|p|] == p;
  }

  /** The pieces of what stands in the window when the input is at its end. */
  method LastPieces(t: array<byte>, outlen: nat) returns (p: seq<int>)
    requires t.Length == 3 && 0 < outlen < 3
    modifies t
    ensures p == Pieces(old(t[..outlen]))
  {
    if outlen == 1 {
      assert t[..1] == [t[0]];
      t[1] := NUL;
    } else {
      assert t[..2] == [t[0], t[1]];
    }
    p := Padded(t[0], t[1], outlen);
  }

  /** The symbols of a last group of one byte (the second being NUL) or of two. */
  method Padded(a: byte, b: byte, outlen: nat) returns (p: seq<int>)
    requires outlen == 2 || (outlen == 1 && b == NUL)
    ensures p == Pieces([a, b][..outlen])
  {
    var third := if outlen == 2 then Sixths.Index2Last(b) else PAD;
    p := [Sixths.Index0(a), Sixths.Index1(a, b), third, PAD];
    if outlen == 1 { PiecesOf1(a); } else { PiecesOf2(a, b); }
    assert [a, b][..1] == [a] && [a, b][..2] == [a, b];
  }

  lemma PiecesOf1(a: byte)
    ensures Pieces([a]) == [a / 4, a % 4 * 16, PAD, PAD]
  {
  }

  lemma PiecesOf2(a: byte, b: byte)
    ensures Pieces([a, b]) == [a / 4, a % 4 * 16 + b / 16, b % 16 * 4, PAD]
  {
  }

  /** The full groups are out, and the rest stands in the window. */
  ghost predicate Sliding(al: Alphabet, out: Vsb.Vsb, t: array<byte>, outlen: nat, done: seq<byte>)
    requires |al.b64| == 64
    reads out, out.buf
  {
    t.Length == 3 && outlen < 3 && |done| % 3 == 0 && Holds(al, out, done) && t != out.buf
  }

  /** One turn of the loop; `more` is what is out after it. */
  method Slide(al: Alphabet, out: Vsb.Vsb, t: array<byte>, outlen: nat, b: byte, ghost done: seq<byte>)
    returns (now: nat, ghost more: seq<byte>)
    requires |al.b64| == 64 && Sliding(al, out, t, outlen, done)
    modifies out`buf, out`len, out`error, out`starved, out`extensions, out.buf, t
    ensures out.Kept() && Sliding(al, out, t, now, more)
    ensures more + t[..now] == done + (old(t[..outlen]) + [b])
  {
    Fill(t, outlen, b);
    now, more := outlen + 1, done;
    if now == 3 {
      assert t[..3] == t[..];
      var p := WindowPieces(t);
      more := done + t[..];
      PutGroup(al, out, p, done, t[..]);
      now := 0;
      assert more + t[..0] == more;
    }
  }

  method Fill(t: array<byte>, k: nat, b: byte)
    requires k < t.Length
    modifies t
    ensures t[..k + 1] == old(t[..k]) + [b]
  {
    t[k] := b;
  }

  /** What stands in the window at the end goes out, padded. */
  method Flush(al: Alphabet, out: Vsb.Vsb, t: array<byte>, outlen: nat, ghost done: seq<byte>)
    requires |al.b64| == 64 && Sliding(al, out, t, outlen, done)
    modifies out`buf, out`len, out`error, out`starved, out`extensions, out.buf, t
    ensures out.Kept() && Holds(al, out, done + old(t[..outlen]))
  {
    if outlen == 0 {
      assert done + t[..0] == done;
    } else {
      ghost var group := t[..outlen];
      var p := LastPieces(t, outlen);
      PutGroup(al, out, p, done, group);
    }
  }

  /** strlen(). */
  method Strlen(text: seq<byte>) returns (n: nat)
    requires NUL in text
    ensures n == |CStr(text)| <= |text| && text[..n] == CStr(text)
  {
    n := 0;
    assert |CStr(text)| < |text|;
    while text[n] != NUL
      invariant n <= |CStr(text)| < |text|
      decreases |text| - n
    {
      assert n < |CStr(text)|;
      n := n + 1;
    }
  }

  /** base64_encode(), the sliding window of three bytes as in the code. What comes out is the
      encoding and a NUL, as long as there is memory (the code asserts that there is). */
  method Base64Encode(al: Alphabet, text: seq<byte>, plenty: bool) returns (out: Vsb.Vsb)
    requires NUL in text && |al.b64| == 64
    ensures fresh(out) && out.Valid() && out.finished && out.error == out.starved && out.plenty == plenty
    ensures !out.starved ==> out.Contents() == Encode(al, CStr(text)) + [NUL]
  {
    var inlen := Strlen(text);
    out := EncodeBytes(al, text[..inlen], plenty);
    Terminate(al, out, text[..inlen]);
  }

  /** The loop, and what is left in the window after it. */
  method EncodeBytes(al: Alphabet, s: seq<byte>, plenty: bool) returns (out: Vsb.Vsb)
    requires |al.b64| == 64
    ensures fresh(out) && fresh(out.buf) && Holds(al, out, s) && out.plenty == plenty
  {
    var t: array<byte>;
    out, t := Prepare(al, plenty);
    SlideAll(al, out, t, s);
  }

  method SlideAll(al: Alphabet, out: Vsb.Vsb, t: array<byte>, s: seq<byte>)
    requires |al.b64| == 64 && Sliding(al, out, t, 0, [])
    modifies out`buf, out`len, out`error, out`starved, out`extensions, out.buf, t
    ensures out.Kept() && Holds(al, out, s)
  {
    var outlen: nat := 0;
    ghost var done: seq<byte> := [];
    for k := 0 to |s|
      invariant out.Kept() && Sliding(al, out, t, outlen, done)
      invariant done + t[..outlen] == s[..k]
    {
      ghost var window := t[..outlen];
      outlen, done := Slide(al, out, t, outlen, s[k], done);
      Regrouped(s, k, window);
    }
    assert s[..|s|] == s;
    Flush(al, out, t, outlen, done);
  }

  /** What has been read, and one byte more. */
  lemma Regrouped(s: seq<byte>, k: nat, window: seq<byte>)
    requires k < |s|
    ensures forall done :: done + window == s[..k] ==> done + (window + [s[k]]) == s[..k + 1]
  {
    forall done: seq<byte> | done + window == s[..k] ensures done + (window + [s[k]]) == s[..k + 1] {
      assert done + (window + [s[k]]) == done + window + [s[k]];
    }
  }

  method Terminate(al: Alphabet, out: Vsb.Vsb, ghost s: seq<byte>)
    requires |al.b64| == 64 && Holds(al, out, s)
    modifies out, out.buf
    ensures out.Valid() && out.finished && out.error == out.starved
    ensures !out.starved ==> out.Contents() == Encode(al, s) + [NUL]
  {
    out.PutByte(NUL);
    var ok := out.Finish();
  }

  /** An empty buffer and an empty window. */
  method Prepare(al: Alphabet, plenty: bool) returns (out: Vsb.Vsb, t: array<byte>)
    requires |al.b64| == 64
    ensures fresh(out) && fresh(out.buf) && fresh(t) && Sliding(al, out, t, 0, []) && out.plenty == plenty
  {
    out := new Vsb.Vsb.Auto(plenty);
    t := new byte[3](_ => NUL);
    assert Encode(al, []) == out.Contents();
    assert t[..0] == [];
  }

  /** The pieces of a full window. */
  method WindowPieces(t: array<byte>) returns (p: seq<int>)
    requires t.Length == 3
    ensures p == Pieces(t[..])
  {
    PiecesOf3(t[..]);
    p := [Sixths.Index0(t[0]), Sixths.Index1(t[0], t[1]), Sixths.Index2(t[1], t[2]), Sixths.Index3(t[2])];
  }

  /** The output so far: the encoding of s, unless memory has run out. */
  ghost predicate Holds(al: Alphabet, out: Vsb.Vsb, s: seq<byte>)
    requires |al.b64| == 64
    reads out, out.buf
  {
    Ready(out) && (!out.starved ==> out.Contents() == Encode(al, s))
  }

  /** The pieces of the next group go out. */
  method PutGroup(al: Alphabet, out: Vsb.Vsb, p: seq<int>, ghost done: seq<byte>, ghost group: seq<byte>)
    requires |al.b64| == 64 && Holds(al, out, done) && |done| % 3 == 0 && p == Pieces(group)
    modifies out`buf, out`len, out`error, out`starved, out`extensions, out.buf
    ensures out.Kept() && Holds(al, out, done + group)
  {
    PiecesInRange(group);
    PutPieces(al, out, p);
    EncodeSplit(al, done + group, |done|);
    assert (done + group)[..|done|] == done && (done + group)[|done|..] == group;
  }

  lemma PiecesOf3(s: seq<byte>)
    requires |s| == 3
    ensures Pieces(s) == Pieces3(s[0], s[1], s[2])
  {
  }

  /** Encoding may be cut after any number of full groups. */
  lemma {:induction false} PiecesSplit(s: seq<byte>, n: nat)
    requires n <= |s| && n % 3 == 0
    ensures Pieces(s) == Pieces(s[..n]) + Pieces(s[n..])
  {
    if n == 0 {
      assert s[0..] == s;
    } else {
      PiecesSplit(s[3..], n - 3);
      DropTake(s, n);
    }
  }

  lemma DropTake(s: seq<byte>, n: nat)
    requires 3 <= n <= |s|
    ensures s[..n][3..] == s[3..][..n - 3] && s[n..] == s[3..][n - 3..]
  {
  }

  lemma EncodeSplit(al: Alphabet, s: seq<byte>, n: nat)
    requires n <= |s| && n % 3 == 0 && |al.b64| == 64
    ensures Encode(al, s) == Encode(al, s[..n]) + Encode(al, s[n..])
  {
    PiecesSplit(s, n);
    PiecesInRange(s[..n]);
    PiecesInRange(s[n..]);
    RenderAppend(al, Pieces(s[..n]), Pieces(s[n..]));
  }

  // ---- Decoding, through the table --------------------------------------------------------

  /** What the table makes of a text: padding, a piece, or -2 for what belongs to neither. */
  ghost function Read(al: Alphabet, t: seq<byte>): (p: seq<int>)
    ensures |p| == |t|
  {
    seq(|t|, i requires 0 <= i < |t| =>
      if t[i] == al.padding then PAD else if Value(al, t[i]) < 0 then -2 else Value(al, t[i]))
  }

  /** Section 4 of RFC 4648 read backwards; the bits that padding leaves over are not looked at. */
  function Join(p: seq<int>): Option<seq<byte>> {
    if p == [] then Some([])
    else if |p| < 4 || !(0 <= p[0] < 64) || !(0 <= p[1] < 64) then None
    else
      var a := p[0] * 4 + p[1] / 16;
      if p[2..] == [PAD, PAD] then Some([a])
      else if !(0 <= p[2] < 64) then None
      else
        var b := p[1] % 16 * 16 + p[2] / 4;
        if p[3..] == [PAD] then Some([a, b])
        else if !(0 <= p[3] < 64) then None
        else
          var c := p[2] % 4 * 64 + p[3];
          var rest := Join(p[4..]);
          if rest.None? then None else Some([a, b, c] + rest.value)
  }

  ghost function Decode(al: Alphabet, t: seq<byte>): Option<seq<byte>> { Join(Read(al, t)) }

  lemma BytesBack(a: byte, b: byte, c: byte)
    ensures a / 4 * 4 + (a % 4 * 16 + b / 16) / 16 == a
    ensures (a % 4 * 16 + b / 16) % 16 * 16 + (b % 16 * 4 + c / 64) / 4 == b
    ensures (b % 16 * 4 + c / 64) % 4 * 64 + c % 64 == c
  {
  }

  lemma JoinOne(a: byte)
    ensures Join(Pieces([a])) == Some([a])
  {
  }

  /** Three pieces and the padding spell two bytes. */
  predicate SpellsTwo(p: seq<int>, a: int, b: int) {
    && |p| == 4 && p[3] == PAD && (forall i :: 0 <= i < 3 ==> 0 <= p[i] < 64)
    && p[0] * 4 + p[1] / 16 == a && p[1] % 16 * 16 + p[2] / 4 == b
  }

  lemma PiecesSpellTwo(a: byte, b: byte)
    ensures Pieces([a, b]) == [a / 4, a % 4 * 16 + b / 16, b % 16 * 4, PAD]
    ensures SpellsTwo([a / 4, a % 4 * 16 + b / 16, b % 16 * 4, PAD], a, b)
  {
    BytesBack(a, b, 0);
  }

  lemma JoinsTwo(p: seq<int>, a: byte, b: byte)
    requires SpellsTwo(p, a, b)
    ensures Join(p) == Some([a, b])
  {
    assert p[2..][0] == p[2] && p[3..] == [PAD];
  }

  lemma JoinTwo(a: byte, b: byte)
    ensures Join(Pieces([a, b])) == Some([a, b])
  {
    PiecesSpellTwo(a, b);
    JoinsTwo(Pieces([a, b]), a, b);
  }

  /** The first three bytes that four pieces spell. */
  predicate Spells(p: seq<int>, a: int, b: int, c: int) {
    && |p| >= 4 && (forall i :: 0 <= i < 4 ==> 0 <= p[i] < 64)
    && p[0] * 4 + p[1] / 16 == a && p[1] % 16 * 16 + p[2] / 4 == b && p[2] % 4 * 64 + p[3] == c
  }

  lemma PiecesSpell(a: byte, b: byte, c: byte, rest: seq<int>)
    ensures Spells(Pieces3(a, b, c) + rest, a, b, c)
  {
    BytesBack(a, b, c);
  }

  lemma JoinGroup(p: seq<int>, a: byte, b: byte, c: byte)
    requires Spells(p, a, b, c) && Join(p[4..]).Some?
    ensures Join(p) == Some([a, b, c] + Join(p[4..]).value)
  {
  }

  lemma PiecesStep(s: seq<byte>)
    requires |s| >= 3
    ensures Pieces(s)[4..] == Pieces(s[3..]) && Spells(Pieces(s), s[0], s[1], s[2])
  {
    PiecesSpell(s[0], s[1], s[2], Pieces(s[3..]));
  }

  lemma JoinThree(p: seq<int>, s: seq<byte>)
    requires |s| >= 3 && Spells(p, s[0], s[1], s[2]) && Join(p[4..]) == Some(s[3..])
    ensures Join(p) == Some(s)
  {
    JoinGroup(p, s[0], s[1], s[2]);
    assert s == [s[0], s[1], s[2]] + s[3..];
  }

  lemma {:induction false} JoinPieces(s: seq<byte>)
    ensures Join(Pieces(s)) == Some(s)
  {
    if |s| >= 3 {
      JoinPieces(s[3..]);
      PiecesStep(s);
      JoinThree(Pieces(s), s);
    } else if |s| == 2 {
      JoinTwo(s[0], s[1]);
      assert s == [s[0], s[1]];
    } else if |s| == 1 {
      JoinOne(s[0]);
      assert s == [s[0]];
    }
  }

  lemma {:induction false} PiecesLength(s: seq<byte>)
    ensures |Pieces(s)| == 4 * ((|s| + 2) / 3)
  {
    if |s| >= 3 { PiecesLength(s[3..]); }
  }

  lemma ReadRender(al: Alphabet, p: seq<int>)
    requires Proper(al) && InRange(p)
    ensures Read(al, Render(al, p)) == p
  {
  }

  /** Decoding through the table gives the input back, for every proper alphabet and every input,
      and the output has four symbols for every three bytes begun. */
  lemma DecodeEncode(al: Alphabet, s: seq<byte>)
    requires Proper(al)
    ensures Decode(al, Encode(al, s)) == Some(s)
    ensures |Encode(al, s)| == 4 * ((|s| + 2) / 3)
  {
    PiecesInRange(s);
    ReadRender(al, Pieces(s));
    JoinPieces(s);
    PiecesLength(s);
  }

  lemma EncodeInjective(al: Alphabet, s: seq<byte>, t: seq<byte>)
    requires Proper(al) && Encode(al, s) == Encode(al, t)
    ensures s == t
  {
    DecodeEncode(al, s);
    DecodeEncode(al, t);
  }

  // ---- What a C caller sees -------------------------------------------------------------------

  /** How many padding symbols the encoding of n bytes ends in. */
  function Padding(n: nat): nat { 2 * n % 3 }

  /** The last k pieces are padding, and no others. */
  predicate PaddedBy(p: seq<int>, k: nat) {
    k <= |p| && forall i :: 0 <= i < |p| ==> (p[i] == PAD <==> i >= |p| - k)
  }

  lemma GroupInFront(a: byte, b: byte, c: byte, rest: seq<int>, k: nat)
    requires PaddedBy(rest, k)
    ensures PaddedBy(Pieces3(a, b, c) + rest, k)
  {
  }

  lemma PaddingOfThree(n: nat)
    requires n >= 3
    ensures Padding(n) == Padding(n - 3)
  {
  }

  lemma {:induction false} PaddingAtEnd(s: seq<byte>)
    ensures PaddedBy(Pieces(s), Padding(|s|))
  {
    if |s| >= 3 {
      PaddingAtEnd(s[3..]);
      PaddingOfThree(|s|);
      GroupInFront(s[0], s[1], s[2], Pieces(s[3..]), Padding(|s|));
    }
  }

  /** The C string of the output: all of it when the padding is a character, and the unpadded form
      of section 3.2 of RFC 4648 when the padding is NUL. */
  lemma CView(al: Alphabet, s: seq<byte>)
    requires Proper(al)
    ensures Padding(|s|) <= |Encode(al, s)|
    ensures CStr(Encode(al, s) + [NUL]) ==
      if al.padding == NUL then Encode(al, s)[..|Encode(al, s)| - Padding(|s|)] else Encode(al, s)
  {
    PaddingAtEnd(s);
    PiecesInRange(s);
    var e := Encode(al, s);
    var n := |e| - Padding(|s|);
    if al.padding == NUL && n < |e| {
      assert e + [NUL] == e[..n] + [NUL] + (e[n + 1..] + [NUL]);
      CStrOfTerminated(e[..n], e[n + 1..] + [NUL]);
    } else {
      assert al.padding == NUL ==> e[..n] == e;
      CStrOfTerminated(e, []);
      assert e + [NUL] + [] == e + [NUL];
    }
  }
}
