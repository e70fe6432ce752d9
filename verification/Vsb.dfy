/**
 The string buffer that everything in the agent is printed into: growable or of fixed
 length, with one sticky error and always room for a terminating NUL.
 */
module Vsb {
  import opened Bytes

  // ---- Growth arithmetic ---------------------------------------------------------------

  const MIN_EXTEND_SIZE: nat := 16
  const MAX_EXTEND_SIZE: nat := 4096
  const MAX_EXTEND_INCR: nat := 4096

  function Pow2(k: nat): (r: nat)
    ensures r >= 1
  {
    if k == 0 then 1 else 2 * Pow2(k - 1)
  }

  /** x & ~(2^k - 1), bit by bit. */
  function ClearLow(x: nat, k: nat): nat {
    if k == 0 then x else 2 * ClearLow(x / 2, k - 1)
  }

  /** Clearing the low bits rounds down to a multiple. */
  lemma {:induction false} ClearLowRoundsDown(x: nat, k: nat) returns (q: nat)
    ensures ClearLow(x, k) == q * Pow2(k)
    ensures ClearLow(x, k) <= x < ClearLow(x, k) + Pow2(k)
  {
    if k == 0 {
      q := x;
    } else {
      q := ClearLowRoundsDown(x / 2, k - 1);
      assert 2 * (q * Pow2(k - 1)) == q * Pow2(k);
    }
  }

  /** The smallest size that VSB_extendsize may return for a request. */
  function GrowSize(size: nat): nat {
    if size < MAX_EXTEND_SIZE then Doubled(MIN_EXTEND_SIZE, size)
    else (size + MAX_EXTEND_INCR - 1) / MAX_EXTEND_INCR * MAX_EXTEND_INCR
  }

  function Doubled(start: nat, size: nat): nat
    requires start > 0
    decreases size - start
  {
    if start < size then Doubled(2 * start, size) else start
  }

  /** From 16 * 2^k on, 16 * 2^j is the first double that is enough. */
  ghost predicate LeastDouble(size: nat, j: nat, k: nat) {
    MIN_EXTEND_SIZE * Pow2(j) >= size && (j > k ==> MIN_EXTEND_SIZE * Pow2(j - 1) < size)
  }

  lemma {:induction false} DoubledIsLeast(k: nat, size: nat)
    ensures exists j ::
      j >= k && LeastDouble(size, j, k) && Doubled(MIN_EXTEND_SIZE * Pow2(k), size) == MIN_EXTEND_SIZE * Pow2(j)
    decreases size - MIN_EXTEND_SIZE * Pow2(k)
  {
    if MIN_EXTEND_SIZE * Pow2(k) < size {
      assert 2 * (MIN_EXTEND_SIZE * Pow2(k)) == MIN_EXTEND_SIZE * Pow2(k + 1);
      DoubledIsLeast(k + 1, size);
      var j :| j >= k + 1 && LeastDouble(size, j, k + 1) &&
        Doubled(MIN_EXTEND_SIZE * Pow2(k + 1), size) == MIN_EXTEND_SIZE * Pow2(j);
      assert LeastDouble(size, j, k);
    } else {
      assert LeastDouble(size, k, k);
    }
  }

  /** Below a page the least 16 * 2^k that is enough, above it the least number of pages. */
  lemma GrowSizeIsLeast(size: nat)
    ensures GrowSize(size) >= size
    ensures size < MAX_EXTEND_SIZE ==>
      exists j: nat :: LeastDouble(size, j, 0) && GrowSize(size) == MIN_EXTEND_SIZE * Pow2(j)
    ensures size >= MAX_EXTEND_SIZE ==> GrowSize(size) % MAX_EXTEND_INCR == 0 && GrowSize(size) < size + MAX_EXTEND_INCR
  {
    if size < MAX_EXTEND_SIZE {
      DoubledIsLeast(0, size);
    }
  }

  /** roundup2(size, 4096). */
  method RoundUp(size: nat) returns (r: nat)
    ensures r == (size + MAX_EXTEND_INCR - 1) / MAX_EXTEND_INCR * MAX_EXTEND_INCR
  {
    var x := size + (MAX_EXTEND_INCR - 1);
    r := ClearLow(x, 12);
    ghost var q := ClearLowRoundsDown(x, 12);
    PageIsPow2();
    Quotient(x, q);
  }

  lemma PageIsPow2()
    ensures Pow2(12) == MAX_EXTEND_INCR
  {
    assert Pow2(6) == 64;
  }

  lemma Quotient(x: nat, q: nat)
    requires q * MAX_EXTEND_INCR <= x < q * MAX_EXTEND_INCR + MAX_EXTEND_INCR
    ensures x / MAX_EXTEND_INCR == q
  {
  }

  /** VSB_extendsize(): doubling below a page, the roundup2 bit trick above. */
  method ExtendSize(size: nat) returns (newsize: nat)
    ensures newsize == GrowSize(size) && newsize >= size
  {
    GrowSizeIsLeast(size);
    if size < MAX_EXTEND_SIZE {
      newsize := MIN_EXTEND_SIZE;
      while newsize < size
        invariant newsize > 0 && Doubled(newsize, size) == GrowSize(size)
        decreases size - newsize
      {
        newsize := newsize * 2;
      }
    } else {
      newsize := RoundUp(size);
    }
  }

  // ---- Plain byte strings, the meaning of a buffer --------------------------------------------

  datatype Op =
    | Putc(c: byte)
    | Bcat(text: seq<byte>)
    | Cat(text: seq<byte>)        // a C string: up to its first NUL
    | Printf(text: seq<byte>)     // what the format and its arguments come to
    | Clear
    | Finish

  function Plain(s: seq<byte>, op: Op): seq<byte> {
    match op
    case Putc(c) => s + [c]
    case Bcat(t) => s + t
    case Cat(t) => s + CStr(t)
    case Printf(t) => s + t
    case Clear => []
    case Finish => s
  }

  function PlainAll(s: seq<byte>, ops: seq<Op>): seq<byte> {
    if ops == [] then s else Plain(PlainAll(s, ops[..|ops| - 1]), ops[|ops| - 1])
  }

  /** Whether a buffer is finished after a sequence of operations. */
  function FinishedBy(was: bool, ops: seq<Op>): bool {
    if ops == [] then was
    else
      match ops[|ops| - 1]
      case Finish => true
      case Clear => false
      case _ => FinishedBy(was, ops[..|ops| - 1])
  }

  /** What the assertions on the buffer's state demand: a finished buffer is cleared before it is used again. */
  predicate InOrder(was: bool, ops: seq<Op>) {
    forall i :: 0 <= i < |ops| && FinishedBy(was, ops[..i]) ==> ops[i].Clear?
  }

  // ---- The growth of a buffer filled byte by byte ------------------------------------------------

  /** Size and number of extensions after appending n bytes, one at a time, at length len. */
  function FillBytes(size: nat, len: nat, n: nat): (nat, nat)
    requires len < size
    decreases n
  {
    if n == 0 then (size, 0)
    else if len + 1 < size then FillBytes(size, len + 1, n - 1)
    else
      var bigger := GrowSize(size + 1);
      if len + 1 < bigger then
        var (s, e) := FillBytes(bigger, len + 1, n - 1);
        (s, e + 1)
      else (bigger, 1)
  }

  ghost predicate Filled(size: nat, len: nat, n: nat, newsize: nat, extended: int)
    requires len < size
  {
    FillBytes(size, len, n) == (newsize, extended)
  }

  /** The sizes a growing buffer goes through: 16, 32, ..., 4096, 8192, 12288, ... */
  function Step(k: nat): (r: nat)
    ensures r >= 16
  {
    if k <= 8 then MIN_EXTEND_SIZE * Pow2(k) else MAX_EXTEND_INCR * (k - 7)
  }

  lemma StepGrows(k: nat)
    ensures GrowSize(Step(k) + 1) == Step(k + 1) > Step(k)
  {
    if k < 8 {
      assert MIN_EXTEND_SIZE * Pow2(k + 1) == 2 * Step(k);
      DoubledReaches(0, k, Step(k) + 1);
      Pow2Bound(k);
    } else {
      assert Pow2(8) == 256 by { assert Pow2(4) == 16; }
      assert Step(k) == 4096 * (k - 7);
      assert (Step(k) + 1 + 4095) == 4096 * (k - 6);
    }
  }

  lemma {:induction false} Pow2Bound(k: nat)
    requires k < 8
    ensures MIN_EXTEND_SIZE * Pow2(k) + 1 < MAX_EXTEND_SIZE
  {
    assert Pow2(7) == 128 by { assert Pow2(4) == 16; }
    Pow2Monotone(k, 7);
  }

  lemma {:induction false} Pow2Monotone(a: nat, b: nat)
    requires a <= b
    ensures Pow2(a) <= Pow2(b)
  {
    if a < b { Pow2Monotone(a, b - 1); }
  }

  lemma {:induction false} DoubledReaches(i: nat, k: nat, size: nat)
    requires i <= k && size == MIN_EXTEND_SIZE * Pow2(k) + 1
    ensures Doubled(MIN_EXTEND_SIZE * Pow2(i), size) == MIN_EXTEND_SIZE * Pow2(k + 1)
    decreases k - i
  {
    Pow2Monotone(i, k);
    assert 2 * (MIN_EXTEND_SIZE * Pow2(i)) == MIN_EXTEND_SIZE * Pow2(i + 1);
    if i < k { DoubledReaches(i + 1, k, size); }
  }

  lemma {:induction false} FillFollowsSteps(k: nat, len: nat, n: nat)
    requires len < Step(k)
    ensures var (size, e) := FillBytes(Step(k), len, n);
      size == Step(k + e) && len + n < size && (e > 0 ==> Step(k + e - 1) <= len + n)
    decreases n
  {
    if n > 0 {
      if len + 1 < Step(k) {
        FillFollowsSteps(k, len + 1, n - 1);
      } else {
        StepGrows(k);
        FillFollowsSteps(k + 1, len + 1, n - 1);
      }
    }
  }

  /** Filling a new growable buffer with n bytes one at a time extends it at most
      8 + n / 4096 times, and leaves the least size of the series that is enough. */
  lemma FewExtensions(n: nat)
    ensures var (size, e) := FillBytes(GrowSize(0), 0, n);
      e <= 8 + n / 4096 && size == Step(e) && n < size && (e > 0 ==> Step(e - 1) <= n)
  {
    assert GrowSize(0) == 16 == Step(0);
    FillFollowsSteps(0, 0, n);
  }

  // ---- The buffer ---------------------------------------------------------------------------------

  class Vsb {
    var buf: array<byte>
    var len: nat
    var error: bool
    var finished: bool
    const auto: bool
    const plenty: bool            // malloc never fails
    ghost var starved: bool       // malloc has failed at least once
    ghost var extensions: nat

    ghost predicate Valid()
      reads this
    {
      len < buf.Length && (starved ==> !plenty)
    }

    ghost function Contents(): seq<byte>
      reads this, buf
      requires Valid()
    {
      buf[..len]
    }

    function FreeSpace(): nat
      reads this
      requires Valid()
    {
      buf.Length - (len + 1)
    }

    /** VSB_new(NULL, NULL, 0, VSB_AUTOEXTEND), allocation succeeding. */
    constructor Auto(plenty: bool)
      ensures Valid() && fresh(buf) && Contents() == [] && auto && !error && !finished && !starved
      ensures buf.Length == GrowSize(0) && extensions == 0 && this.plenty == plenty
    {
      var size := ExtendSize(0);
      assert GrowSize(0) == 16;
      buf := new byte[size](_ => 0);
      len, error, finished, auto, starved, extensions := 0, false, false, true, false, 0;
      this.plenty := plenty;
    }

    /** VSB_new(NULL, buf, length, VSB_FIXEDLEN): the caller's storage, of more than one byte. */
    constructor Fixed(storage: array<byte>)
      requires storage.Length > 1
      ensures Valid() && buf == storage && Contents() == [] && !auto && !error && !finished && !starved &&
        extensions == 0
    {
      buf := storage;
      len, error, finished, auto, starved, extensions := 0, false, false, false, false, 0;
      plenty := true;
    }

    /** The part of the state that appending never touches. */
    twostate predicate Kept()
      reads this
    {
      Stays() && finished == old(finished)
    }

    /** The same for every operation, VSB_clear() and VSB_finish() among them. */
    twostate predicate Stays()
      reads this
    {
      && Valid()
      && (buf == old(buf) || (auto && fresh(buf))) && buf.Length >= old(buf.Length)
      && (!auto ==> extensions == old(extensions) && starved == old(starved))
      && (old(starved) ==> starved)
    }

    /** VSB_extend(): a bigger buffer with the same bytes, or nothing at all. */
    method Extend(addlen: nat) returns (ok: bool)
      requires Valid() && addlen > 0
      modifies this`buf, this`starved, this`extensions
      ensures Kept() && Contents() == old(Contents()) && len == old(len)
      ensures ok ==>
        auto && fresh(buf) && buf.Length == GrowSize(old(buf.Length) + addlen) && buf.Length >= old(buf.Length) + addlen
      ensures ok ==> extensions == old(extensions) + 1 && starved == old(starved)
      ensures !ok ==> buf == old(buf) && extensions == old(extensions) && (auto ==> starved)
    {
      if !auto { return false; }
      var newsize := ExtendSize(buf.Length + addlen);
      var full: bool := *;
      if full && !plenty {
        starved := true;
        return false;
      }
      var newbuf := new byte[newsize](_ => 0);
      forall i | 0 <= i < buf.Length { newbuf[i] := buf[i]; }
      assert newbuf[..len] == buf[..len];
      buf := newbuf;
      extensions := extensions + 1;
      return true;
    }

    /** VSB_put_byte(): everything hangs on this one. */
    method PutByte(c: byte)
      requires Valid() && !finished
      modifies this`buf, this`len, this`error, this`starved, this`extensions, buf
      ensures Kept()
      ensures old(error) ==>
        error && Contents() == old(Contents()) && buf == old(buf) && extensions == old(extensions) &&
        starved == old(starved)
      ensures !old(error) && !error ==> Contents() == old(Contents()) + [c]
      ensures !old(error) && error ==>
        Contents() == old(Contents()) && old(len) + 1 == old(buf.Length) == buf.Length && (auto ==> starved)
      ensures !old(error) && !auto ==> (error <==> old(len) + 1 == old(buf.Length))
      ensures !old(error) && !error ==> starved == old(starved)
      ensures !old(error) && !error && old(len) + 1 < old(buf.Length) ==>
        buf == old(buf) && extensions == old(extensions)
      ensures !old(error) && !error && old(len) + 1 == old(buf.Length) ==>
        buf.Length == GrowSize(old(buf.Length) + 1) && extensions == old(extensions) + 1
    {
      if error { return; }
      if FreeSpace() <= 0 {
        var ok := Extend(1);
        if !ok { error := true; }
        if error { return; }
      }
      ghost var was := Contents();
      buf[len] := c;
      len := len + 1;
      assert buf[..len] == was + [c];
    }

    /** VSB_bcat(): byte by byte until the error. What was appended is a first part of the text,
        all of it unless malloc failed or the storage is fixed and too small. */
    method Bcat(text: seq<byte>) returns (ok: bool)
      requires Valid() && !finished
      modifies this`buf, this`len, this`error, this`starved, this`extensions, buf
      ensures Kept() && ok == !error
      ensures old(error) ==> error && Contents() == old(Contents())
      ensures !old(error) ==>
        old(len) <= len <= old(len) + |text| && Contents() == old(Contents()) + text[..len - old(len)]
      ensures !old(error) ==> (error <==> len < old(len) + |text|)
      ensures !old(error) && auto && error ==> starved
      ensures !old(error) && auto && !error ==>
        starved == old(starved) && Filled(old(buf.Length), old(len), |text|, buf.Length, extensions - old(extensions))
      ensures !old(error) && !auto ==> buf == old(buf) && len == old(len) + Min(|text|, old(FreeSpace()))
    {
      if error { return false; }
      var i := 0;
      while i < |text|
        invariant Kept() && !error && i <= |text|
        invariant len == old(len) + i && Contents() == old(Contents()) + text[..i]
        invariant starved == old(starved)
        invariant extensions >= old(extensions)
        invariant auto ==> FillBytes(old(buf.Length), old(len), |text|).0 == FillBytes(buf.Length, len, |text| - i).0
        invariant auto ==> FillBytes(old(buf.Length), old(len), |text|).1
                             == FillBytes(buf.Length, len, |text| - i).1 + extensions - old(extensions)
        invariant !auto ==> buf == old(buf)
      {
        if len + 1 == buf.Length { GrowSizeIsLeast(buf.Length + 1); }
        PutByte(text[i]);
        if error { return false; }
        i := i + 1;
      }
      return true;
    }

    /** VSB_cat(): a C string. */
    method Cat(text: seq<byte>) returns (ok: bool)
      requires Valid() && !finished && NUL in text
      modifies this`buf, this`len, this`error, this`starved, this`extensions, buf
      ensures Kept() && ok == !error
      ensures old(error) ==> error && Contents() == old(Contents())
      ensures !old(error) ==>
        old(len) <= len <= old(len) + |CStr(text)| && Contents() == old(Contents()) + CStr(text)[..len - old(len)]
      ensures !old(error) ==> (error <==> len < old(len) + |CStr(text)|)
      ensures !old(error) && auto && error ==> starved
      ensures !old(error) && auto && !error ==> starved == old(starved)
      ensures !old(error) && !auto ==> buf == old(buf) && len == old(len) + Min(|CStr(text)|, old(FreeSpace()))
    {
      if error { return false; }
      var i := 0;
      assert |CStr(text)| < |text|;
      while text[i] != NUL
        invariant Kept() && !error && i <= |CStr(text)| < |text|
        invariant len == old(len) + i && Contents() == old(Contents()) + CStr(text)[..i]
        invariant starved == old(starved)
        invariant !auto ==> buf == old(buf)
        decreases |text| - i
      {
        assert i < |CStr(text)| && text[i] == CStr(text)[i];
        PutByte(text[i]);
        if error { return false; }
        i := i + 1;
      }
      assert NUL !in CStr(text) && CStr(text) <= text;
      return true;
    }

    /** As much of `out` as fits stands behind `was`, and then a NUL. */
    ghost predicate Formatted(was: seq<byte>, out: seq<byte>)
      reads this, buf
      requires Valid()
    {
      var w := Min(|out|, FreeSpace());
      buf[..len + w] == was + out[..w] && buf[len + w] == NUL
    }

    /** vsnprintf() into the free space: as much as fits, then a NUL. */
    method Vsnprintf(out: seq<byte>)
      requires Valid()
      modifies buf
      ensures Formatted(old(Contents()), out)
    {
      var w := Min(|out|, FreeSpace());
      forall k | 0 <= k < w { buf[len + k] := out[k]; }
      buf[len + w] := NUL;
    }

    /** The condition of VSB_vprintf's loop: too long for the free space, and the space was found. */
    method MakeRoom(n: nat) returns (again: bool)
      requires Valid()
      modifies this`buf, this`starved, this`extensions
      ensures Kept() && len == old(len)
      ensures n <= old(FreeSpace()) ==> !again && buf == old(buf) && starved == old(starved)
      ensures again ==> auto && FreeSpace() >= n && Contents() == old(Contents())
      ensures !again ==> buf == old(buf) && (n <= FreeSpace() || !auto || starved)
    {
      again := false;
      if n > FreeSpace() {
        again := Extend(n - FreeSpace());
      }
    }

    /** The loop of VSB_vprintf(): format, and format again if room was needed and found. */
    method Format(out: seq<byte>) returns (ghost rounds: nat)
      requires Valid() && !finished
      modifies this`buf, this`starved, this`extensions, buf
      ensures Kept() && len == old(len) && rounds <= 2 && (!auto ==> buf == old(buf))
      ensures Formatted(old(Contents()), out) && (|out| <= FreeSpace() || !auto || starved)
    {
      Vsnprintf(out);
      var again := MakeRoom(|out|);
      rounds := 1;
      while again
        invariant Kept() && len == old(len) && rounds <= 2
        invariant !auto ==> buf == old(buf)
        invariant again ==> rounds == 1 && auto && FreeSpace() >= |out| && Contents() == old(Contents())
        invariant !again ==> Formatted(old(Contents()), out) && (|out| <= FreeSpace() || !auto || starved)
        decreases again
      {
        Vsnprintf(out);
        again := MakeRoom(|out|);
        rounds := rounds + 1;
      }
    }

    /** VSB_vprintf(), `out` being what the format and its arguments come to. It never formats more
        than twice. On fixed storage an output that fits exactly is reported as an error, although
        nothing is lost; on a growable buffer a failed malloc cuts the output and is not reported. */
    method Vprintf(out: seq<byte>) returns (ok: bool, ghost rounds: nat)
      requires Valid() && !finished
      modifies this`buf, this`len, this`error, this`starved, this`extensions, buf
      ensures Kept() && ok == !error && rounds <= 2
      ensures old(error) ==> error && Contents() == old(Contents())
      ensures !old(error) ==> len == old(len) + Min(|out|, buf.Length - (old(len) + 1))
      ensures !old(error) ==> Contents() == old(Contents()) + out[..len - old(len)]
      ensures !old(error) && auto ==> !error && (len < old(len) + |out| ==> starved)
      ensures !old(error) && !auto ==> buf == old(buf) && (error <==> |out| >= old(FreeSpace()))
    {
      rounds := 0;
      if error { return false, rounds; }
      rounds := Format(out);
      var n := |out|;
      if FreeSpace() < n {
        n := FreeSpace();
      }
      len := len + n;
      if !(len < buf.Length - 1) && !auto {
        error := true;
      }
      return !error, rounds;
    }

    /** VSB_clear(). */
    method Clear()
      requires Valid()
      modifies this`len, this`error, this`finished
      ensures Valid() && Contents() == [] && !error && !finished
    {
      finished, error, len := false, false, 0;
    }

    /** VSB_setpos(): backwards only. */
    method SetPos(pos: nat) returns (ok: bool)
      requires Valid() && !finished && pos < buf.Length
      modifies this`len
      ensures Valid() && ok == (pos <= old(len))
      ensures Contents() == if ok then old(Contents())[..pos] else old(Contents())
    {
      if pos > len { return false; }
      len := pos;
      return true;
    }

    /** VSB_trim(): the longest first part that does not end in white space. */
    method Trim() returns (ok: bool)
      requires Valid() && !finished
      modifies this`len
      ensures Valid() && ok == !error && len <= old(len) && Contents() == old(Contents())[..len]
      ensures ok ==> (len > 0 ==> !IsSpace(buf[len - 1])) && forall i :: len <= i < old(len) ==> IsSpace(buf[i])
      ensures !ok ==> len == old(len)
    {
      if error { return false; }
      while len > 0 && IsSpace(buf[len - 1])
        invariant len <= old(len) && forall i :: len <= i < old(len) ==> IsSpace(buf[i])
      {
        len := len - 1;
      }
      return true;
    }

    /** VSB_finish(): the terminating NUL always fits. */
    method Finish() returns (ok: bool)
      requires Valid() && !finished
      modifies this`finished, buf
      ensures Valid() && finished && ok == !error && Contents() == old(Contents()) && buf[len] == NUL
    {
      buf[len] := NUL;
      finished := true;
      return !error;
    }

    /** VSB_len(). */
    method Length() returns (n: int)
      requires Valid()
      ensures n == if error then -1 else |Contents()|
    {
      return if error then -1 else len;
    }

    /** A finished buffer ends in a NUL. */
    ghost predicate Closed()
      reads this, buf
    {
      finished ==> len < buf.Length && buf[len] == NUL
    }

    /** One operation of a sequence. */
    method Do(op: Op)
      requires Valid() && Closed() && (finished ==> op.Clear?) && (op.Cat? ==> NUL in op.text)
      modifies this`buf, this`len, this`error, this`finished, this`starved, this`extensions, buf
      ensures Stays() && Closed()
      ensures finished == (if op.Finish? then true else if op.Clear? then false else old(finished))
      ensures !old(error) && auto && !starved ==> !error && Contents() == Plain(old(Contents()), op)
    {
      var ok: bool;
      ghost var rounds: nat;
      match op
      case Putc(c) => PutByte(c);
      case Bcat(t) => ok := Bcat(t);
      case Cat(t) => ok := Cat(t);
      case Printf(t) => ok, rounds := Vprintf(t);
      case Clear => Clear();
      case Finish => ok := Finish();
    }

    /** Any sequence of operations on a growable buffer, finished and cleared any number of times, is that
        sequence on a plain byte string, as long as malloc does not fail; and whenever it is finished, a
        NUL stands behind its contents. */
    method DoAll(ops: seq<Op>)
      requires Valid() && Closed() && !error && auto && !starved && InOrder(finished, ops)
      requires forall i :: 0 <= i < |ops| && ops[i].Cat? ==> NUL in ops[i].text
      modifies this`buf, this`len, this`error, this`finished, this`starved, this`extensions, buf
      ensures Stays() && Closed() && finished == FinishedBy(old(finished), ops)
      ensures !starved ==> !error && Contents() == PlainAll(old(Contents()), ops)
    {
      for i := 0 to |ops|
        invariant Stays() && Closed() && finished == FinishedBy(old(finished), ops[..i])
        invariant !starved ==> !error && Contents() == PlainAll(old(Contents()), ops[..i])
      {
        assert ops[..i + 1][..i] == ops[..i];
        Do(ops[i]);
      }
      assert ops[..|ops|] == ops;
    }

    // -- several appends, one after the other, from the same start

    /** t has been added since the start, as far as it fits. */
    ghost predicate Added(s: Start, t: seq<byte>)
      reads this, buf
    {
      && Valid() && !finished
      && if s.stuck then error && Contents() == s.was
         else if auto then !starved ==> !error && Contents() == s.was + t
         else buf.Length == |s.was| + s.room + 1 && Cut(s, t, Contents(), error)
    }

    method AddByte(c: byte, ghost s: Start, ghost t: seq<byte>)
      requires Added(s, t)
      modifies this`buf, this`len, this`error, this`starved, this`extensions, buf
      ensures Kept() && Added(s, t + [c])
      ensures !s.stuck && !auto ==> (error <==> |t| + 1 > s.room)
    {
      ghost var was, stuck := Contents(), error;
      PutByte(c);
      if !s.stuck {
        if auto {
          assert s.was + t + [c] == s.was + (t + [c]);
        } else {
          CutMore(s, t, [c], was, stuck, Contents(), error);
        }
      }
    }

    method AddBytes(text: seq<byte>, ghost s: Start, ghost t: seq<byte>)
      requires Added(s, t)
      modifies this`buf, this`len, this`error, this`starved, this`extensions, buf
      ensures Kept() && Added(s, t + text)
      ensures !s.stuck && !auto && (old(error) ==> |t| > s.room) ==> (error <==> |t + text| > s.room)
    {
      ghost var was, stuck := Contents(), error;
      var ok := Bcat(text);
      if !s.stuck {
        if auto {
          assert s.was + t + text == s.was + (t + text);
        } else {
          CutMore(s, t, text, was, stuck, Contents(), error);
        }
      }
    }

    method AddString(text: seq<byte>, ghost s: Start, ghost t: seq<byte>)
      requires Added(s, t) && NUL in text
      modifies this`buf, this`len, this`error, this`starved, this`extensions, buf
      ensures Kept() && Added(s, t + CStr(text))
    {
      ghost var was, stuck := Contents(), error;
      var ok := Cat(text);
      if !s.stuck {
        if auto {
          assert s.was + t + CStr(text) == s.was + (t + CStr(text));
        } else {
          CutMore(s, t, CStr(text), was, stuck, Contents(), error);
        }
      }
    }

    method AddOutput(out: seq<byte>, ghost s: Start, ghost t: seq<byte>)
      requires Added(s, t)
      modifies this`buf, this`len, this`error, this`starved, this`extensions, buf
      ensures Kept() && Added(s, t + out)
    {
      ghost var was, stuck := Contents(), error;
      var ok, rounds := Vprintf(out);
      if !s.stuck {
        if auto {
          assert s.was + t + out == s.was + (t + out);
        } else {
          CutMore(s, t, out, was, stuck, Contents(), error);
        }
      }
    }
  }

  /** What a buffer held when a series of appends began, how much room it had, and whether it was in error. */
  datatype Start = Start(was: seq<byte>, room: nat, stuck: bool)

  /** What fixed storage holds once t is added: as much as fits. It is in error if that is not all of
      it, and may be if t fits exactly. */
  ghost predicate Cut(s: Start, t: seq<byte>, now: seq<byte>, error: bool) {
    now == s.was + t[..Min(|t|, s.room)] && (|t| > s.room ==> error) && (error ==> |t| >= s.room)
  }

  /** One append on fixed storage, with `fits` bytes of x written. */
  lemma CutMore(s: Start, t: seq<byte>, x: seq<byte>, was: seq<byte>, stuck: bool, now: seq<byte>, error: bool)
    requires Cut(s, t, was, stuck)
    requires if stuck then error && now == was else
      && |t| <= s.room && now == was + x[..Min(|x|, s.room - |t|)]
      && (|x| > s.room - |t| ==> error) && (error ==> |x| >= s.room - |t|)
    ensures Cut(s, t + x, now, error)
  {
    var w := Min(|t + x|, s.room);
    if |t| >= s.room {
      assert (t + x)[..w] == t[..w];
    } else {
      assert (t + x)[..w] == t + x[..w - |t|];
    }
  }

  /** The same three bytes into the same storage of four: printed, they leave an error behind;
      appended, they do not. Nothing is lost either way. */
  method ExactFit(text: seq<byte>) returns (printed: Vsb, appended: Vsb)
    requires |text| > 0
    ensures fresh(printed) && printed.Valid() && !printed.auto && printed.Contents() == text && printed.error
    ensures fresh(appended) && appended.Valid() && !appended.auto && appended.Contents() == text && !appended.error
    ensures printed.buf.Length == appended.buf.Length == |text| + 1
  {
    var here, there := new byte[|text| + 1](_ => NUL), new byte[|text| + 1](_ => NUL);
    printed := new Vsb.Fixed(here);
    appended := new Vsb.Fixed(there);
    assert text[..|text|] == text;
    var ok, rounds := printed.Vprintf(text);
    ok := appended.Bcat(text);
  }
}
