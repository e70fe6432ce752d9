/** Bytes, and the few facts about byte strings that every other module uses. */
module Bytes {

  type byte = x: int | 0 <= x < 256

  const NUL: byte := 0
  const TAB: byte := 9
  const NEWLINE: byte := 10
  const RETURN: byte := 13
  const SPACE: byte := 32
  const DQUOTE: byte := 34
  const ZERO: byte := 48
  const BACKSLASH: byte := 92

  /** isspace() in the C locale. */
  predicate IsSpace(b: byte) { b == SPACE || 9 <= b <= 13 }

  function Min(a: int, b: int): int { if a <= b then a else b }

  datatype Option<+T> = None | Some(value: T)

  /** The bytes of a string constant. */
  function Ascii(s: string): (r: seq<byte>)
    ensures |r| == |s|
  {
    seq(|s|, i requires 0 <= i < |s| => s[i] as int % 256)
  }

  /** The characters that the constants stand for. */
  lemma Characters()
    ensures [TAB, NEWLINE, RETURN, SPACE, DQUOTE, ZERO, BACKSLASH] == Ascii("\t\n\r \"0\\") && NUL == 0
    ensures forall b: byte :: IsSpace(b) <==> b in Ascii("\t\n\r ") || b == 11 || b == 12
  {
    assert Ascii("\t\n\r ") == [TAB, NEWLINE, RETURN, SPACE];
  }

  /** What a C string function sees of a buffer: everything before the first NUL. */
  function CStr(s: seq<byte>): (r: seq<byte>)
    ensures r <= s && NUL !in r
    ensures |r| == |s| || s[|r|] == NUL
  {
    if s == [] || s[0] == NUL then [] else [s[0]] + CStr(s[1..])
  }

  /** A string without NUL is read back whole, whatever follows its terminator. */
  lemma {:induction false} CStrOfTerminated(s: seq<byte>, rest: seq<byte>)
    requires NUL !in s
    ensures CStr(s + [NUL] + rest) == s
  {
    var t := s + [NUL] + rest;
    if s == [] {
      assert t[0] == NUL;
    } else {
      assert t[0] == s[0] != NUL;
      assert t[1..] == s[1..] + [NUL] + rest;
      CStrOfTerminated(s[1..], rest);
    }
  }

  lemma CStrWithoutNul(s: seq<byte>)
    requires NUL !in s
    ensures CStr(s) == s
  {
  }

  /** The last element first. */
  function Backwards<T>(s: seq<T>): seq<T> {
    if s == [] then [] else Backwards(s[1..]) + [s[0]]
  }

  lemma {:induction false} BackwardsAppend<T>(s: seq<T>, x: T)
    ensures Backwards(s + [x]) == [x] + Backwards(s)
  {
    if s == [] {
      assert [x][1..] == [];
    } else {
      assert (s + [x])[1..] == s[1..] + [x];
      BackwardsAppend(s[1..], x);
    }
  }
}
