/**
 The calls that the agent's threads make to one plugin.

 Every client owns one end of a socketpair; the plugin's only thread owns the other ends.
 A client writes a ten-byte decimal header and the message, then waits; the plugin polls,
 and for every readable socket in index order reads header and message in whatever pieces
 the kernel hands out, runs the callback and writes the answer. The steps below are those
 of all threads, interleaved in any order.

 `hist` records calls, callback runs and returns. No step looks at it.
 */
module Ipc {
  import opened Bytes
  import Decimal

  const MAX_MESSAGE := 1000000000

  datatype Client =
    | Idle
    | Heading(msg: seq<byte>)                     // about to write the header
    | Sending(msg: seq<byte>, sent: nat)          // `sent` bytes of the message are written
    | Waiting(msg: seq<byte>)                     // about to read the answer

  datatype Server =
    | Polling
    | Scanning(i: nat, ready: seq<bool>)                                  // next: look at slot i
    | Reading(i: nat, ready: seq<bool>, need: nat, got: seq<byte>)        // ipc_cmd on slot i
    | Answering(i: nat, ready: seq<bool>)                                 // callback done

  datatype Event<R> =
    | Called(h: nat, msg: seq<byte>)
    | Ran(h: nat, data: seq<byte>, reply: R)
    | Returned(h: nat, reply: R)

  /** One slot of ipc->listeners: the client, the two directions of its socket. */
  datatype Slot<R> = Slot(client: Client, request: seq<byte>, answer: Option<R>, since: nat)

  datatype State<P, R> = State(
    slots: seq<Slot<R>>, server: Server, priv: P, reply: Option<R>, hist: seq<Event<R>>)

  datatype Action =
    | Call(h: nat, msg: seq<byte>)
    | WriteHeader(h: nat)
    | WriteSome(h: nat, n: nat)
    | WriteDone(h: nat)
    | ReadAnswer(h: nat)
    | Poll
    | Skip
    | ReadHeader
    | ReadSome(n: nat)
    | RunCallback
    | WriteAnswer

  type Callback<!P, !R> = (P, seq<byte>) -> (P, R)

  function Header(n: nat): seq<byte> { Decimal.Padded9(n) + [SPACE] }

  /** The header of a message of two bytes, and of a long one. */
  lemma KnownHeaders()
    ensures Header(2) == Ascii("000000002 ") && Header(12) == Ascii("000000012 ")
  {
    assert Decimal.Digits(2) == [50] && Decimal.Digits(12) == [49, 50];
  }

  // ---- Steps -------------------------------------------------------------------

  predicate ByClient(a: Action) {
    a.Call? || a.WriteHeader? || a.WriteSome? || a.WriteDone? || a.ReadAnswer?
  }

  /** The conditions under which a thread does not block; for ReadHeader they include the
      code's own assertions, which are shown never to fail. */
  predicate Enabled<P, R>(s: State<P, R>, a: Action) {
    match a
    case Call(h, msg) => h < |s.slots| && s.slots[h].client.Idle? && |msg| < MAX_MESSAGE
    case WriteHeader(h) => h < |s.slots| && s.slots[h].client.Heading?
    case WriteSome(h, n) =>
      h < |s.slots| && s.slots[h].client.Sending? && 0 < n <= |s.slots[h].client.msg| - s.slots[h].client.sent
    case WriteDone(h) =>
      h < |s.slots| && s.slots[h].client.Sending? && s.slots[h].client.sent == |s.slots[h].client.msg|
    case ReadAnswer(h) => h < |s.slots| && s.slots[h].client.Waiting? && s.slots[h].answer.Some?
    case Poll => s.server.Polling? && exists h :: 0 <= h < |s.slots| && s.slots[h].request != []
    case Skip =>
      s.server.Scanning? && (s.server.i >= |s.slots| || s.server.i >= |s.server.ready| || !s.server.ready[s.server.i])
    case ReadHeader =>
      s.server.Scanning? && s.server.i < |s.slots| && s.server.i < |s.server.ready| && s.server.ready[s.server.i]
      && HeaderReadable(s.slots[s.server.i].request)
    case ReadSome(n) =>
      s.server.Reading? && s.server.i < |s.slots|
      && 0 < n <= |s.slots[s.server.i].request| && n <= s.server.need - |s.server.got|
    case RunCallback => s.server.Reading? && s.server.i < |s.slots| && |s.server.got| == s.server.need
    case WriteAnswer => s.server.Answering? && s.server.i < |s.slots| && s.reply.Some?
  }

  /** ipc_cmd's assertions on the header: ten bytes at once, a space last, no negative length. */
  predicate HeaderReadable(r: seq<byte>) {
    |r| >= 10 && r[9] == SPACE && Decimal.Atoi(r[..10]) >= 0
  }

  function Put<P, R>(s: State<P, R>, h: nat, x: Slot<R>): State<P, R>
    requires h < |s.slots|
  {
    s.(slots := s.slots[h := x])
  }

  function Apply<P, R>(cb: Callback<P, R>, s: State<P, R>, a: Action): State<P, R>
    requires Enabled(s, a)
  {
    match a
    case Call(h, msg) =>
      Put(s, h, s.slots[h].(client := Heading(msg))).(hist := s.hist + [Called(h, msg)])
    case WriteHeader(h) =>
      var x := s.slots[h];
      Put(s, h, x.(client := Sending(x.client.msg, 0), request := x.request + Header(|x.client.msg|),
        since := |s.hist|))
    case WriteSome(h, n) =>
      var x := s.slots[h];
      var k := x.client.sent;
      Put(s, h, x.(client := Sending(x.client.msg, k + n), request := x.request + x.client.msg[k..k + n]))
    case WriteDone(h) =>
      Put(s, h, s.slots[h].(client := Waiting(s.slots[h].client.msg)))
    case ReadAnswer(h) =>
      var x := s.slots[h];
      Put(s, h, x.(client := Idle, answer := None)).(hist := s.hist + [Returned(h, x.answer.value)])
    case Poll =>
      s.(server := Scanning(0, seq(|s.slots|, h requires 0 <= h < |s.slots| => s.slots[h].request != [])))
    case Skip =>
      s.(server := if s.server.i >= |s.slots| then Polling else Scanning(s.server.i + 1, s.server.ready))
    case ReadHeader =>
      var i := s.server.i;
      var x := s.slots[i];
      Put(s, i, x.(request := x.request[10..])).(
        server := Reading(i, s.server.ready, Decimal.Atoi(x.request[..10]), []))
    case ReadSome(n) =>
      var i := s.server.i;
      var x := s.slots[i];
      Put(s, i, x.(request := x.request[n..])).(
        server := Reading(i, s.server.ready, s.server.need, s.server.got + x.request[..n]))
    case RunCallback =>
      var data := s.server.got + [NUL];
      var (p, r) := cb(s.priv, data);
      s.(server := Answering(s.server.i, s.server.ready), priv := p, reply := Some(r),
         hist := s.hist + [Ran(s.server.i, data, r)])
    case WriteAnswer =>
      var i := s.server.i;
      Put(s, i, s.slots[i].(answer := s.reply)).(server := Scanning(i + 1, s.server.ready), reply := None)
  }

  ghost predicate Init<P, R>(s: State<P, R>) {
    && s.server == Polling && s.reply == None && s.hist == []
    && forall h :: 0 <= h < |s.slots| ==> s.slots[h] == Slot(Idle, [], None, 0)
  }

  ghost predicate Next<P(!new), R(!new)>(cb: Callback<P, R>, s: State<P, R>, t: State<P, R>) {
    exists a :: Enabled(s, a) && t == Apply(cb, s, a)
  }

  ghost predicate IsRun<P(!new), R(!new)>(cb: Callback<P, R>, run: seq<State<P, R>>) {
    && |run| > 0 && Init(run[0])
    && forall i :: 0 <= i < |run| - 1 ==> Next(cb, run[i], run[i + 1])
  }

  // ---- What linearizable means ---------------------------------------------------

  /** Where one client's own calls stand, told from the history alone. */
  datatype Phase<R> = Quiet | Asked(msg: seq<byte>) | Answered(msg: seq<byte>, reply: R) | Wrong

  function Advance<R(==)>(p: Phase<R>, e: Event<R>): Phase<R> {
    match e
    case Called(_, msg) => if p.Quiet? then Asked(msg) else Wrong
    case Ran(_, data, r) => if p.Asked? && data == p.msg + [NUL] then Answered(p.msg, r) else Wrong
    case Returned(_, r) => if p.Answered? && r == p.reply then Quiet else Wrong
  }

  /** Called, Ran with exactly those bytes and a NUL, Returned with exactly that answer, again. */
  function PhaseOf<R(==)>(hist: seq<Event<R>>, h: nat): Phase<R> {
    if hist == [] then Quiet
    else
      var n := |hist| - 1;
      var p := PhaseOf(hist[..n], h);
      if hist[n].h == h then Advance(p, hist[n]) else p
  }

  /** The callback runs in the history, replayed one after the other from `priv`. */
  ghost predicate Serial<P(!new), R(!new)>(cb: Callback<P, R>, priv: P, hist: seq<Event<R>>, end: P) {
    if hist == [] then end == priv
    else
      var n := |hist| - 1;
      if hist[n].Ran? then
        exists mid :: Serial(cb, priv, hist[..n], mid) && cb(mid, hist[n].data) == (end, hist[n].reply)
      else Serial(cb, priv, hist[..n], end)
  }

  // ---- The invariant -------------------------------------------------------------

  predicate Serving(v: Server, h: nat) {
    (v.Reading? || v.Answering?) && v.i == h
  }

  function SentBytes(c: Client): seq<byte> {
    match c
    case Sending(msg, sent) => if sent <= |msg| then msg[..sent] else msg
    case Waiting(msg) => msg
    case _ => []
  }

  /** One slot: at most one frame, or an unread rest of one, and its history in step with it. */
  ghost predicate SlotOk<P(!new), R(!new)>(s: State<P, R>, h: nat)
    requires h < |s.slots|
  {
    var x := s.slots[h];
    var p := PhaseOf(s.hist, h);
    match x.client
    case Idle => x.request == [] && x.answer == None && !Serving(s.server, h) && p == Quiet
    case Heading(msg) =>
      x.request == [] && x.answer == None && !Serving(s.server, h) && p == Asked(msg) && |msg| < MAX_MESSAGE
    case Sending(msg, sent) => sent <= |msg| && CallOk(s, h, msg)
    case Waiting(msg) => CallOk(s, h, msg)
  }

  /** A call under way: unserved, answered, being read, or run but not answered yet. */
  ghost predicate CallOk<P(!new), R(!new)>(s: State<P, R>, h: nat, msg: seq<byte>)
    requires h < |s.slots|
  {
    var x := s.slots[h];
    var p := PhaseOf(s.hist, h);
    && |msg| < MAX_MESSAGE
    && if !Serving(s.server, h) && x.answer == None then
         p == Asked(msg) && x.request == Header(|msg|) + SentBytes(x.client)
       else if !Serving(s.server, h) then
         p == Answered(msg, x.answer.value) && x.request == [] && SentBytes(x.client) == msg
       else if s.server.Reading? then
         p == Asked(msg) && x.answer == None && s.server.need == |msg|
         && s.server.got + x.request == SentBytes(x.client)
       else
         s.reply.Some? && p == Answered(msg, s.reply.value) && x.answer == None
         && x.request == [] && SentBytes(x.client) == msg
  }

  ghost predicate ServerOk<P(!new), R(!new)>(s: State<P, R>) {
    !s.server.Polling? ==>
      && |s.server.ready| == |s.slots| && s.server.i <= |s.slots|
      && (!s.server.Scanning? ==> s.server.i < |s.slots|)
      && forall j :: (if s.server.Scanning? then s.server.i else s.server.i + 1) <= j < |s.slots| && s.server.ready[j]
           ==> s.slots[j].request != []
  }

  ghost predicate Inv<P(!new), R(!new)>(cb: Callback<P, R>, priv: P, s: State<P, R>) {
    && ServerOk(s)
    && Serial(cb, priv, s.hist, s.priv)
    && forall h :: 0 <= h < |s.slots| ==> SlotOk(s, h)
  }

  lemma InitInv<P(!new), R(!new)>(cb: Callback<P, R>, s: State<P, R>)
    requires Init(s)
    ensures Inv(cb, s.priv, s)
  {
  }

  lemma PhaseAppend<R>(hist: seq<Event<R>>, e: Event<R>, k: nat)
    ensures PhaseOf(hist + [e], k) == if e.h == k then Advance(PhaseOf(hist, k), e) else PhaseOf(hist, k)
  {
  }

  lemma SerialAppend<P(!new), R(!new)>(cb: Callback<P, R>, priv: P, hist: seq<Event<R>>, mid: P, e: Event<R>, end: P)
    requires Serial(cb, priv, hist, mid)
    requires if e.Ran? then cb(mid, e.data) == (end, e.reply) else end == mid
    ensures Serial(cb, priv, hist + [e], end)
  {
  }

  /** A step on slot h that adds at most an event of h is invisible to every other slot. */
  lemma OtherSlot<P(!new), R(!new)>(s: State<P, R>, t: State<P, R>, h: nat, k: nat)
    requires h < |s.slots| && k < |s.slots| && k != h && SlotOk(s, k)
    requires |t.slots| == |s.slots| && t.slots[k] == s.slots[k]
    requires t.hist == s.hist ||
      (|t.hist| > 0 && t.hist == s.hist + [t.hist[|t.hist| - 1]] && t.hist[|t.hist| - 1].h == h)
    requires Serving(t.server, k) == Serving(s.server, k)
    requires Serving(s.server, k) ==> t.server == s.server && t.reply == s.reply
    ensures SlotOk(t, k)
  {
    if t.hist != s.hist {
      PhaseAppend(s.hist, t.hist[|t.hist| - 1], k);
    }
  }

  /** The header a waiting server reads is the one the client wrote, and tells the length. */
  lemma HeaderArrives<P(!new), R(!new)>(s: State<P, R>, h: nat)
    requires h < |s.slots| && SlotOk(s, h) && s.slots[h].request != [] && !Serving(s.server, h)
    ensures s.slots[h].client.Sending? || s.slots[h].client.Waiting?
    ensures HeaderReadable(s.slots[h].request)
    ensures Decimal.Atoi(s.slots[h].request[..10]) == |s.slots[h].client.msg|
    ensures s.slots[h].request[10..] == SentBytes(s.slots[h].client)
  {
    var msg := s.slots[h].client.msg;
    Decimal.HeaderRoundTrip(|msg|);
    assert |Header(|msg|)| == 10;
    assert s.slots[h].request[..10] == Header(|msg|);
  }

  lemma HeaderWritten<P(!new), R(!new)>(cb: Callback<P, R>, s: State<P, R>, h: nat)
    requires Enabled(s, WriteHeader(h)) && SlotOk(s, h)
    ensures SlotOk(Apply(cb, s, WriteHeader(h)), h)
  {
    var t := Apply(cb, s, WriteHeader(h));
    assert t.slots[h].request == Header(|t.slots[h].client.msg|) + [];
  }

  lemma PieceWritten<P(!new), R(!new)>(cb: Callback<P, R>, s: State<P, R>, h: nat, n: nat)
    requires Enabled(s, WriteSome(h, n)) && SlotOk(s, h)
    ensures SlotOk(Apply(cb, s, WriteSome(h, n)), h)
  {
    var x, y := s.slots[h], Apply(cb, s, WriteSome(h, n)).slots[h];
    assert SentBytes(y.client) == SentBytes(x.client) + x.client.msg[x.client.sent..x.client.sent + n];
  }

  lemma OwnSlot<P(!new), R(!new)>(cb: Callback<P, R>, s: State<P, R>, a: Action, h: nat)
    requires Enabled(s, a) && h < |s.slots| && SlotOk(s, h)
    requires ByClient(a)
    requires a.h == h
    ensures SlotOk(Apply(cb, s, a), h)
  {
    var t := Apply(cb, s, a);
    match a
    case WriteHeader(_) => HeaderWritten(cb, s, h);
    case WriteSome(_, n) => PieceWritten(cb, s, h, n);
    case WriteDone(_) => assert SentBytes(t.slots[h].client) == SentBytes(s.slots[h].client);
    case _ => PhaseAppend(s.hist, t.hist[|t.hist| - 1], h);
  }

  /** Clients only add to requests, and only ever read answers. */
  lemma ClientsKeepServer<P(!new), R(!new)>(cb: Callback<P, R>, s: State<P, R>, a: Action)
    requires ServerOk(s) && Enabled(s, a)
    requires ByClient(a)
    ensures ServerOk(Apply(cb, s, a))
  {
  }

  lemma ClientsKeepSerial<P(!new), R(!new)>(cb: Callback<P, R>, priv: P, s: State<P, R>, a: Action)
    requires Serial(cb, priv, s.hist, s.priv) && Enabled(s, a)
    requires ByClient(a)
    ensures var t := Apply(cb, s, a); Serial(cb, priv, t.hist, t.priv)
  {
  }

  lemma ClientStep<P(!new), R(!new)>(cb: Callback<P, R>, priv: P, s: State<P, R>, a: Action)
    requires Inv(cb, priv, s) && Enabled(s, a)
    requires ByClient(a)
    ensures Inv(cb, priv, Apply(cb, s, a))
  {
    var t := Apply(cb, s, a);
    assert SlotOk(s, a.h);
    OwnSlot(cb, s, a, a.h);
    forall k | 0 <= k < |s.slots| && k != a.h ensures SlotOk(t, k) {
      assert SlotOk(s, k);
      OtherSlot(s, t, a.h, k);
    }
    ClientsKeepServer(cb, s, a);
    ClientsKeepSerial(cb, priv, s, a);
  }

  lemma HeaderRead<P(!new), R(!new)>(cb: Callback<P, R>, s: State<P, R>)
    requires Enabled(s, ReadHeader) && SlotOk(s, s.server.i) && s.slots[s.server.i].request != []
    ensures SlotOk(Apply(cb, s, ReadHeader), s.server.i)
  {
    HeaderArrives(s, s.server.i);
  }

  lemma PieceRead<P(!new), R(!new)>(cb: Callback<P, R>, s: State<P, R>, n: nat)
    requires Enabled(s, ReadSome(n)) && SlotOk(s, s.server.i)
    ensures SlotOk(Apply(cb, s, ReadSome(n)), s.server.i)
  {
    var i := s.server.i;
    var t := Apply(cb, s, ReadSome(n));
    assert s.server.got + s.slots[i].request == t.server.got + t.slots[i].request;
  }

  lemma CallbackRun<P(!new), R(!new)>(cb: Callback<P, R>, s: State<P, R>)
    requires Enabled(s, RunCallback) && SlotOk(s, s.server.i)
    ensures SlotOk(Apply(cb, s, RunCallback), s.server.i)
  {
    var i := s.server.i;
    var t := Apply(cb, s, RunCallback);
    var x := s.slots[i];
    PhaseAppend(s.hist, t.hist[|s.hist|], i);
    assert |s.server.got + x.request| == |SentBytes(x.client)|;
    assert s.server.got + x.request == s.server.got == x.client.msg;
  }

  lemma AnswerWritten<P(!new), R(!new)>(cb: Callback<P, R>, s: State<P, R>)
    requires Enabled(s, WriteAnswer) && SlotOk(s, s.server.i)
    ensures SlotOk(Apply(cb, s, WriteAnswer), s.server.i)
  {
  }

  lemma OwnServed<P(!new), R(!new)>(cb: Callback<P, R>, s: State<P, R>, a: Action)
    requires Enabled(s, a) && (a.ReadHeader? || a.ReadSome? || a.RunCallback? || a.WriteAnswer?)
    requires SlotOk(s, s.server.i)
    requires a.ReadHeader? ==> s.slots[s.server.i].request != []
    ensures SlotOk(Apply(cb, s, a), s.server.i)
  {
    match a
    case ReadHeader => HeaderRead(cb, s);
    case ReadSome(n) => PieceRead(cb, s, n);
    case RunCallback => CallbackRun(cb, s);
    case WriteAnswer => AnswerWritten(cb, s);
  }

  lemma ServerStep<P(!new), R(!new)>(cb: Callback<P, R>, priv: P, s: State<P, R>, a: Action)
    requires Inv(cb, priv, s) && Enabled(s, a)
    requires a.ReadHeader? || a.ReadSome? || a.RunCallback? || a.WriteAnswer?
    ensures Inv(cb, priv, Apply(cb, s, a))
  {
    var t := Apply(cb, s, a);
    var i := s.server.i;
    OwnServed(cb, s, a);
    forall k | 0 <= k < |s.slots| && k != i ensures SlotOk(t, k) {
      OtherSlot(s, t, i, k);
    }
    if t.hist != s.hist { SerialAppend(cb, priv, s.hist, s.priv, t.hist[|t.hist| - 1], t.priv); }
  }

  lemma LoopStep<P(!new), R(!new)>(cb: Callback<P, R>, priv: P, s: State<P, R>, a: Action)
    requires Inv(cb, priv, s) && Enabled(s, a) && (a.Poll? || a.Skip?)
    ensures Inv(cb, priv, Apply(cb, s, a))
  {
    var t := Apply(cb, s, a);
    forall k | 0 <= k < |s.slots| ensures SlotOk(t, k) {
      assert SlotOk(s, k);
    }
  }

  lemma StepKeepsInv<P(!new), R(!new)>(cb: Callback<P, R>, priv: P, s: State<P, R>, a: Action)
    requires Inv(cb, priv, s) && Enabled(s, a)
    ensures Inv(cb, priv, Apply(cb, s, a))
  {
    if a.Poll? || a.Skip? {
      LoopStep(cb, priv, s, a);
    } else if a.ReadHeader? || a.ReadSome? || a.RunCallback? || a.WriteAnswer? {
      ServerStep(cb, priv, s, a);
    } else {
      ClientStep(cb, priv, s, a);
    }
  }

  lemma {:induction false} RunInv<P(!new), R(!new)>(cb: Callback<P, R>, run: seq<State<P, R>>, i: nat)
    requires IsRun(cb, run) && i < |run|
    ensures Inv(cb, run[0].priv, run[i])
  {
    if i == 0 {
      InitInv(cb, run[0]);
    } else {
      RunInv(cb, run, i - 1);
      assert Next(cb, run[i - 1], run[i]);
      var a :| Enabled(run[i - 1], a) && run[i] == Apply(cb, run[i - 1], a);
      StepKeepsInv(cb, run[0].priv, run[i - 1], a);
    }
  }

  // ---- Linearizability -----------------------------------------------------------

  /** In every reachable state each client's calls read Called, Ran with its own bytes and a NUL,
      Returned with that run's answer; and the runs are one serial execution of the callback. */
  lemma Linearizable<P(!new), R(!new)>(cb: Callback<P, R>, run: seq<State<P, R>>, i: nat)
    requires IsRun(cb, run) && i < |run|
    ensures Serial(cb, run[0].priv, run[i].hist, run[i].priv)
    ensures forall h :: 0 <= h < |run[i].slots| ==> PhaseOf(run[i].hist, h) != Wrong
  {
    RunInv(cb, run, i);
    forall h | 0 <= h < |run[i].slots| ensures PhaseOf(run[i].hist, h) != Wrong {
      assert SlotOk(run[i], h);
    }
  }

  lemma {:induction false} WrongStays<R>(hist: seq<Event<R>>, h: nat, k: nat)
    requires k <= |hist| && PhaseOf(hist, h) != Wrong
    ensures PhaseOf(hist[..k], h) != Wrong
    decreases |hist|
  {
    if k == |hist| {
      assert hist[..k] == hist;
    } else {
      var n := |hist| - 1;
      WrongStays(hist[..n], h, k);
      assert hist[..n][..k] == hist[..k];
    }
  }

  /** The events of h strictly between c and k. */
  ghost predicate Silent<R>(hist: seq<Event<R>>, h: nat, c: nat, k: nat)
    requires k <= |hist|
  {
    forall j :: c < j < k ==> hist[j].h != h
  }

  lemma {:induction false} AskedSince<R>(hist: seq<Event<R>>, h: nat) returns (c: nat)
    requires PhaseOf(hist, h).Asked?
    ensures c < |hist| && hist[c] == Called(h, PhaseOf(hist, h).msg) && Silent(hist, h, c, |hist|)
  {
    var n := |hist| - 1;
    if hist[n].h == h {
      c := n;
    } else {
      c := AskedSince(hist[..n], h);
    }
  }

  lemma {:induction false} AnsweredSince<R>(hist: seq<Event<R>>, h: nat) returns (c: nat, e: nat)
    requires PhaseOf(hist, h).Answered?
    ensures var p := PhaseOf(hist, h);
      c < e < |hist| && hist[c] == Called(h, p.msg) && hist[e] == Ran(h, p.msg + [NUL], p.reply)
      && Silent(hist, h, c, e) && Silent(hist, h, e, |hist|)
  {
    var n := |hist| - 1;
    if hist[n].h == h {
      c := AskedSince(hist[..n], h);
      e := n;
    } else {
      c, e := AnsweredSince(hist[..n], h);
    }
  }

  /** Every return is the return of the same client's last call, whose message the callback was
      given, once, after the call and before the return, and of the answer it gave then. */
  lemma ReturnedMeansRan<P(!new), R(!new)>(cb: Callback<P, R>, run: seq<State<P, R>>, i: nat, k: nat)
    returns (c: nat, e: nat)
    requires IsRun(cb, run) && i < |run| && k < |run[i].hist| && run[i].hist[k].Returned?
    requires run[i].hist[k].h < |run[i].slots|
    ensures var hist := run[i].hist; var h := hist[k].h;
      c < e < k && hist[c].Called? && hist[c].h == h
      && hist[e] == Ran(h, hist[c].msg + [NUL], hist[k].reply)
      && Silent(hist, h, c, e) && Silent(hist, h, e, k)
  {
    var hist := run[i].hist;
    var h := hist[k].h;
    Linearizable(cb, run, i);
    WrongStays(hist, h, k + 1);
    assert hist[..k + 1][..k] == hist[..k];
    c, e := AnsweredSince(hist[..k], h);
  }

  // ---- Calls, and what becomes of their messages -----------------------------------------

  /** The run that these actions make. */
  ghost predicate RunBy<P(!new), R(!new)>(cb: Callback<P, R>, run: seq<State<P, R>>, acts: seq<Action>) {
    && |run| == |acts| + 1 && Init(run[0])
    && forall i :: 0 <= i < |acts| ==> StepBy(cb, run[i], acts[i], run[i + 1])
  }

  ghost predicate StepBy<P(!new), R(!new)>(cb: Callback<P, R>, s: State<P, R>, a: Action, t: State<P, R>) {
    Enabled(s, a) && t == Apply(cb, s, a)
  }

  /** Every run is made by some actions. */
  lemma {:induction false} RunHasActions<P(!new), R(!new)>(cb: Callback<P, R>, run: seq<State<P, R>>)
    returns (acts: seq<Action>)
    requires IsRun(cb, run)
    ensures RunBy(cb, run, acts)
    decreases |run|
  {
    acts := [];
    var n := |run| - 1;
    if n > 0 {
      var before := RunHasActions(cb, run[..n]);
      assert Next(cb, run[n - 1], run[n - 1 + 1]);
      var a :| Enabled(run[n - 1], a) && run[n] == Apply(cb, run[n - 1], a);
      acts := before + [a];
      forall i | 0 <= i < |acts| ensures StepBy(cb, run[i], acts[i], run[i + 1]) {
        if i < n - 1 { assert StepBy(cb, run[..n][i], before[i], run[..n][i + 1]); }
      }
    }
  }

  lemma RunByIsRun<P(!new), R(!new)>(cb: Callback<P, R>, run: seq<State<P, R>>, acts: seq<Action>)
    requires RunBy(cb, run, acts)
    ensures IsRun(cb, run)
  {
    forall i | 0 <= i < |run| - 1 ensures Next(cb, run[i], run[i + 1]) {
      assert StepBy(cb, run[i], acts[i], run[i + 1]);
    }
  }

  /** The calls that the clients have made, with their messages, and what the history says of them. */
  function CallsOf(acts: seq<Action>): seq<(nat, seq<byte>)> {
    if acts == [] then []
    else
      var n := |acts| - 1;
      CallsOf(acts[..n]) + if acts[n].Call? then [(acts[n].h, acts[n].msg)] else []
  }

  function CallsIn<R>(hist: seq<Event<R>>): seq<(nat, seq<byte>)> {
    if hist == [] then []
    else
      var n := |hist| - 1;
      CallsIn(hist[..n]) + if hist[n].Called? then [(hist[n].h, hist[n].msg)] else []
  }

  lemma CallsAppend<R>(hist: seq<Event<R>>, e: Event<R>)
    ensures CallsIn(hist + [e]) == CallsIn(hist) + if e.Called? then [(e.h, e.msg)] else []
  {
  }

  lemma CallsStep<P(!new), R(!new)>(cb: Callback<P, R>, s: State<P, R>, a: Action)
    requires Enabled(s, a)
    ensures CallsIn(Apply(cb, s, a).hist) == CallsIn(s.hist) + if a.Call? then [(a.h, a.msg)] else []
    ensures |Apply(cb, s, a).slots| == |s.slots|
  {
    var t := Apply(cb, s, a);
    if t.hist != s.hist { CallsAppend(s.hist, t.hist[|s.hist|]); }
  }

  /** The history has exactly the calls that were made, in their order and with their messages. */
  lemma {:induction false} CallsAreTheActions<P(!new), R(!new)>(cb: Callback<P, R>, run: seq<State<P, R>>,
                                                                acts: seq<Action>, i: nat)
    requires RunBy(cb, run, acts) && i <= |acts|
    ensures CallsIn(run[i].hist) == CallsOf(acts[..i]) && |run[i].slots| == |run[0].slots|
    decreases i
  {
    if i > 0 {
      CallsAreTheActions(cb, run, acts, i - 1);
      assert StepBy(cb, run[i - 1], acts[i - 1], run[i - 1 + 1]);
      CallsStep(cb, run[i - 1], acts[i - 1]);
      assert acts[..i][..i - 1] == acts[..i - 1];
    }
  }

  /** The plugin's thread runs the callback for h. */
  predicate RunsFor<P, R>(s: State<P, R>, a: Action, h: nat) { a.RunCallback? && s.server.Reading? && s.server.i == h }

  /** What a step makes of where h's call stands. */
  ghost predicate PhaseMoves<P(!new), R(!new)>(cb: Callback<P, R>, s: State<P, R>, a: Action, t: State<P, R>, h: nat)
    requires h < |s.slots|
  {
    var p, q := PhaseOf(s.hist, h), PhaseOf(t.hist, h);
    && (a.Call? && a.h == h ==> q == Asked(a.msg))
    && (p.Asked? && RunsFor(s, a, h) ==>
         var r := cb(s.priv, p.msg + [NUL]).1; q == Answered(p.msg, r) && t.hist == s.hist + [Ran(h, p.msg + [NUL], r)])
    && (p.Asked? && !RunsFor(s, a, h) ==> q == p)
    && (p.Answered? && a != ReadAnswer(h) ==> q == p && !RunsFor(s, a, h))
    && (a == ReadAnswer(h) ==>
         p.Answered? && s.slots[h].answer == Some(p.reply) && t.hist == s.hist + [Returned(h, p.reply)])
  }

  lemma ClientMoves<P(!new), R(!new)>(cb: Callback<P, R>, s: State<P, R>, a: Action, h: nat)
    requires Enabled(s, a) && h < |s.slots| && SlotOk(s, h) && ByClient(a)
    ensures PhaseMoves(cb, s, a, Apply(cb, s, a), h)
  {
    var t := Apply(cb, s, a);
    if t.hist != s.hist { PhaseAppend(s.hist, t.hist[|s.hist|], h); }
  }

  lemma ServerMoves<P(!new), R(!new)>(cb: Callback<P, R>, s: State<P, R>, a: Action, h: nat)
    requires Enabled(s, a) && h < |s.slots| && SlotOk(s, h) && !ByClient(a)
    ensures PhaseMoves(cb, s, a, Apply(cb, s, a), h)
  {
    var t := Apply(cb, s, a);
    if a.RunCallback? {
      PhaseAppend(s.hist, t.hist[|s.hist|], h);
      if s.server.i == h { AllRead(s, h); }
    }
  }

  lemma PhaseStep<P(!new), R(!new)>(cb: Callback<P, R>, run: seq<State<P, R>>, acts: seq<Action>, i: nat, h: nat)
    requires RunBy(cb, run, acts) && i < |acts| && h < |run[0].slots|
    ensures |run[i].slots| == |run[0].slots| && Enabled(run[i], acts[i]) && run[i + 1] == Apply(cb, run[i], acts[i])
    ensures PhaseMoves(cb, run[i], acts[i], run[i + 1], h)
  {
    RunByIsRun(cb, run, acts);
    RunInv(cb, run, i);
    CallsAreTheActions(cb, run, acts, i);
    assert StepBy(cb, run[i], acts[i], run[i + 1]);
    assert SlotOk(run[i], h);
    if ByClient(acts[i]) { ClientMoves(cb, run[i], acts[i], h); } else { ServerMoves(cb, run[i], acts[i], h); }
  }

  /** The plugin's thread does not run the callback for h in the steps from i to j. */
  ghost predicate NotRun<P, R>(run: seq<State<P, R>>, acts: seq<Action>, h: nat, i: nat, j: nat)
    requires j <= |acts| < |run|
  {
    forall k :: i <= k < j ==> !RunsFor(run[k], acts[k], h)
  }

  lemma {:induction false} AskedStays<P(!new), R(!new)>(cb: Callback<P, R>, run: seq<State<P, R>>, acts: seq<Action>,
                                                        i: nat, j: nat, h: nat, msg: seq<byte>)
    requires RunBy(cb, run, acts) && i < j <= |acts| && h < |run[0].slots| && acts[i] == Call(h, msg)
    requires NotRun(run, acts, h, i + 1, j)
    ensures PhaseOf(run[j].hist, h) == Asked(msg)
    decreases j
  {
    if i == j - 1 {
      PhaseStep(cb, run, acts, i, h);
    } else {
      AskedStays(cb, run, acts, i, j - 1, h, msg);
      AskedStill(cb, run, acts, j - 1, h, msg);
    }
  }

  lemma AskedStill<P(!new), R(!new)>(cb: Callback<P, R>, run: seq<State<P, R>>, acts: seq<Action>,
                                     j: nat, h: nat, msg: seq<byte>)
    requires RunBy(cb, run, acts) && j < |acts| && h < |run[0].slots|
    requires PhaseOf(run[j].hist, h) == Asked(msg) && !RunsFor(run[j], acts[j], h)
    ensures PhaseOf(run[j + 1].hist, h) == Asked(msg)
  {
    PhaseStep(cb, run, acts, j, h);
  }

  /** The first time the callback is run for a client after its call, it is given the very message of
      that call, and a NUL. */
  lemma RunIsOfTheCall<P(!new), R(!new)>(cb: Callback<P, R>, run: seq<State<P, R>>, acts: seq<Action>,
                                         i: nat, j: nat, h: nat, msg: seq<byte>)
    requires RunBy(cb, run, acts) && i < j < |acts| && h < |run[0].slots| && acts[i] == Call(h, msg)
    requires RunsFor(run[j], acts[j], h) && NotRun(run, acts, h, i + 1, j)
    ensures run[j + 1].hist == run[j].hist + [Ran(h, msg + [NUL], cb(run[j].priv, msg + [NUL]).1)]
    ensures PhaseOf(run[j + 1].hist, h) == Answered(msg, cb(run[j].priv, msg + [NUL]).1)
  {
    AskedStays(cb, run, acts, i, j, h, msg);
    PhaseStep(cb, run, acts, j, h);
  }

  lemma {:induction false} AnsweredStays<P(!new), R(!new)>(cb: Callback<P, R>, run: seq<State<P, R>>,
                                                           acts: seq<Action>, j: nat, k: nat, h: nat, p: Phase<R>)
    requires RunBy(cb, run, acts) && j <= k <= |acts| && h < |run[0].slots|
    requires PhaseOf(run[j].hist, h) == p && p.Answered? && forall m :: j <= m < k ==> acts[m] != ReadAnswer(h)
    ensures PhaseOf(run[k].hist, h) == p && NotRun(run, acts, h, j, k)
    decreases k
  {
    if j < k {
      AnsweredStays(cb, run, acts, j, k - 1, h, p);
      PhaseStep(cb, run, acts, k - 1, h);
    }
  }

  /** What a client reads after its call is what the callback answered to the very message of that call,
      and in between the callback was run for that client once. */
  lemma AnswerIsOfTheCall<P(!new), R(!new)>(cb: Callback<P, R>, run: seq<State<P, R>>, acts: seq<Action>,
                                            i: nat, k: nat, h: nat, msg: seq<byte>) returns (j: nat)
    requires RunBy(cb, run, acts) && i < k < |acts| && h < |run[0].slots|
    requires acts[i] == Call(h, msg) && acts[k] == ReadAnswer(h)
    requires forall m :: i < m < k ==> acts[m] != ReadAnswer(h)
    ensures i < j < k && RunsFor(run[j], acts[j], h)
    ensures NotRun(run, acts, h, i + 1, j) && NotRun(run, acts, h, j + 1, k)
    ensures var r := cb(run[j].priv, msg + [NUL]).1;
      && run[j + 1].hist == run[j].hist + [Ran(h, msg + [NUL], r)]
      && h < |run[k].slots| && run[k].slots[h].answer == Some(r)
      && run[k + 1].hist == run[k].hist + [Returned(h, r)]
  {
    PhaseStep(cb, run, acts, k, h);
    j := FirstRun(cb, run, acts, i, k, h, msg);
    RunIsOfTheCall(cb, run, acts, i, j, h, msg);
    AnsweredStays(cb, run, acts, j + 1, k, h, PhaseOf(run[j + 1].hist, h));
  }

  /** There is one, because the answer has come. */
  lemma FirstRun<P(!new), R(!new)>(cb: Callback<P, R>, run: seq<State<P, R>>, acts: seq<Action>,
                                   i: nat, k: nat, h: nat, msg: seq<byte>) returns (j: nat)
    requires RunBy(cb, run, acts) && i < k <= |acts| && h < |run[0].slots| && acts[i] == Call(h, msg)
    requires PhaseOf(run[k].hist, h).Answered?
    ensures i < j < k && RunsFor(run[j], acts[j], h) && NotRun(run, acts, h, i + 1, j)
  {
    j := i + 1;
    while j < k && !RunsFor(run[j], acts[j], h)
      invariant i < j <= k && NotRun(run, acts, h, i + 1, j)
    {
      j := j + 1;
    }
    if j == k { AskedStays(cb, run, acts, i, k, h, msg); }
  }

  /** A client that is not in the middle of a call can send any message of less than a thousand million bytes. */
  lemma AnyMessageCanBeSent<P, R>(s: State<P, R>, h: nat, msg: seq<byte>)
    requires h < |s.slots| && s.slots[h].client.Idle? && |msg| < 1000000000
    ensures Enabled(s, Call(h, msg))
  {
  }

  /** ipc_cmd's assertions hold: a slot that poll() reported has ten header bytes ready, the
      last a space, that atoi turns into the length of the one message whose bytes follow. */
  lemma AssertionsHold<P(!new), R(!new)>(cb: Callback<P, R>, run: seq<State<P, R>>, i: nat)
    requires IsRun(cb, run) && i < |run|
    requires run[i].server.Scanning? && run[i].server.i < |run[i].slots| && run[i].server.i < |run[i].server.ready|
    requires run[i].server.ready[run[i].server.i]
    ensures var x := run[i].slots[run[i].server.i];
      HeaderReadable(x.request)
      && (x.client.Sending? || x.client.Waiting?)
      && Decimal.Atoi(x.request[..10]) == |x.client.msg|
      && x.request[10..] == SentBytes(x.client)
  {
    RunInv(cb, run, i);
    assert SlotOk(run[i], run[i].server.i);
    HeaderArrives(run[i], run[i].server.i);
  }

  /** While a call is outstanding some thread can take a step. */
  lemma SomeoneCanMove<P(!new), R(!new)>(cb: Callback<P, R>, run: seq<State<P, R>>, i: nat, h: nat)
    returns (a: Action)
    requires IsRun(cb, run) && i < |run| && h < |run[i].slots| && !run[i].slots[h].client.Idle?
    ensures Enabled(run[i], a) && !a.Call?
  {
    RunInv(cb, run, i);
    a := Mover(cb, run[0].priv, run[i], h);
  }

  lemma Mover<P(!new), R(!new)>(cb: Callback<P, R>, priv: P, s: State<P, R>, h: nat) returns (a: Action)
    requires Inv(cb, priv, s) && h < |s.slots| && !s.slots[h].client.Idle?
    ensures Enabled(s, a) && !a.Call?
  {
    assert SlotOk(s, h);
    var v := s.server;
    if v.Scanning? {
      if v.i < |s.slots| && v.ready[v.i] {
        assert SlotOk(s, v.i);
        HeaderArrives(s, v.i);
        a := ReadHeader;
      } else {
        a := Skip;
      }
    } else if v.Answering? {
      assert SlotOk(s, v.i);
      a := WriteAnswer;
    } else if v.Reading? {
      assert SlotOk(s, v.i);
      a := ServerOrSender(s, v.i);
    } else if s.slots[h].client.Heading? {
      a := WriteHeader(h);
    } else if s.slots[h].answer.Some? {
      a := if s.slots[h].client.Waiting? then ReadAnswer(h) else WriteDone(h);
    } else {
      assert s.slots[h].request[0..] != [];
      a := Poll;
    }
  }

  /** ipc_cmd in its read loop: it has all bytes, or can read some, or its client can write some. */
  lemma ServerOrSender<P(!new), R(!new)>(s: State<P, R>, i: nat) returns (a: Action)
    requires i < |s.slots| && SlotOk(s, i) && s.server.Reading? && s.server.i == i
    ensures Enabled(s, a) && !a.Call?
  {
    var x := s.slots[i];
    assert |s.server.got + x.request| == |SentBytes(x.client)|;
    if |s.server.got| == s.server.need {
      a := RunCallback;
    } else if x.request != [] {
      a := ReadSome(1);
    } else {
      a := WriteSome(i, 1);
    }
  }

  // ---- Every call ends --------------------------------------------------------------

  function Rest(n: int, done: int): nat { if done < n then n - done else 0 }

  /** What is left of the server's pass over its listeners. */
  function LoopWork<P, R>(s: State<P, R>): nat {
    match s.server
    case Polling => 0
    case Scanning(i, _) => Rest(|s.slots| + 1, i)
    case Reading(i, _, _, _) => Rest(|s.slots|, i)
    case Answering(i, _) => Rest(|s.slots|, i)
  }

  /** poll() has reported slot h, and its turn is still to come. */
  predicate Reported(v: Server, h: nat) {
    !v.Polling? && h < |v.ready| && v.ready[h] && (if v.Scanning? then v.i <= h else v.i < h)
  }

  /** What client h has still to do for its call. */
  function SendWork(c: Client): nat {
    match c
    case Idle => 0
    case Heading(msg) => |msg| + 3
    case Sending(msg, sent) => Rest(|msg|, sent) + 2
    case Waiting(_) => 1
  }

  /** What the server has still to do for it, a pass of its own included if no poll() has reported it. */
  function ServeWork<P, R>(s: State<P, R>, h: nat): nat
    requires h < |s.slots|
  {
    var x := s.slots[h];
    if x.client.Idle? || x.answer.Some? then 0
    else if Serving(s.server, h) then
      if s.server.Reading? then Rest(s.server.need, |s.server.got|) + 2 else 1
    else |x.client.msg| + 3 + if Reported(s.server, h) then 0 else |s.slots| + 2
  }

  function SlotWork<P, R>(s: State<P, R>, h: nat): nat
    requires h < |s.slots|
  {
    SendWork(s.slots[h].client) + ServeWork(s, h)
  }

  function SlotsWork<P, R>(s: State<P, R>, k: nat): nat
    requires k <= |s.slots|
  {
    if k == 0 then 0 else SlotsWork(s, k - 1) + SlotWork(s, k - 1)
  }

  function Work<P, R>(s: State<P, R>): nat { LoopWork(s) + SlotsWork(s, |s.slots|) }

  /** Slot h has d less to do, and no other slot has more. */
  lemma {:induction false} LessWork<P, R>(s: State<P, R>, t: State<P, R>, h: nat, d: nat, k: nat)
    requires k <= |s.slots| == |t.slots| && h < |s.slots|
    requires SlotWork(t, h) + d <= SlotWork(s, h)
    requires forall j :: 0 <= j < |s.slots| && j != h ==> SlotWork(t, j) <= SlotWork(s, j)
    ensures SlotsWork(t, k) + (if h < k then d else 0) <= SlotsWork(s, k)
  {
    if k > 0 { LessWork(s, t, h, d, k - 1); }
  }

  lemma {:induction false} SameWork<P, R>(s: State<P, R>, t: State<P, R>, k: nat)
    requires k <= |s.slots| == |t.slots|
    requires forall j :: 0 <= j < |s.slots| ==> SlotWork(t, j) == SlotWork(s, j)
    ensures SlotsWork(t, k) == SlotsWork(s, k)
  {
    if k > 0 { SameWork(s, t, k - 1); }
  }

  lemma ClientWorks<P(!new), R(!new)>(cb: Callback<P, R>, s: State<P, R>, a: Action)
    requires Enabled(s, a) && ByClient(a) && !a.Call? && SlotOk(s, a.h)
    ensures Work(Apply(cb, s, a)) < Work(s)
  {
    var t := Apply(cb, s, a);
    assert SlotWork(t, a.h) < SlotWork(s, a.h);
    LessWork(s, t, a.h, 1, |s.slots|);
  }

  lemma HeaderWorks<P(!new), R(!new)>(cb: Callback<P, R>, s: State<P, R>)
    requires ServerOk(s) && Enabled(s, ReadHeader) && SlotOk(s, s.server.i)
    ensures Work(Apply(cb, s, ReadHeader)) < Work(s)
  {
    var i := s.server.i;
    var t := Apply(cb, s, ReadHeader);
    HeaderArrives(s, i);
    assert SlotWork(t, i) < SlotWork(s, i);
    LessWork(s, t, i, 1, |s.slots|);
  }

  lemma ServerWorks<P(!new), R(!new)>(cb: Callback<P, R>, s: State<P, R>, a: Action)
    requires ServerOk(s) && Enabled(s, a) && (a.ReadSome? || a.RunCallback? || a.WriteAnswer?)
    requires SlotOk(s, s.server.i)
    ensures Work(Apply(cb, s, a)) < Work(s)
  {
    var i := s.server.i;
    var t := Apply(cb, s, a);
    assert SlotWork(t, i) < SlotWork(s, i);
    LessWork(s, t, i, 1, |s.slots|);
  }

  lemma SkipWorks<P(!new), R(!new)>(cb: Callback<P, R>, s: State<P, R>)
    requires ServerOk(s) && Enabled(s, Skip)
    ensures Work(Apply(cb, s, Skip)) < Work(s)
  {
    SameWork(s, Apply(cb, s, Skip), |s.slots|);
  }

  /** A pass costs less than the request that was waiting for one. */
  lemma PollWorks<P(!new), R(!new)>(cb: Callback<P, R>, s: State<P, R>, h: nat)
    requires Enabled(s, Poll) && h < |s.slots| && s.slots[h].request != [] && SlotOk(s, h)
    ensures Work(Apply(cb, s, Poll)) < Work(s)
  {
    var t := Apply(cb, s, Poll);
    assert SlotWork(t, h) + |s.slots| + 2 == SlotWork(s, h);
    LessWork(s, t, h, |s.slots| + 2, |s.slots|);
  }

  lemma StepWorks<P(!new), R(!new)>(cb: Callback<P, R>, priv: P, s: State<P, R>, a: Action)
    requires Inv(cb, priv, s) && Enabled(s, a) && !a.Call?
    ensures Work(Apply(cb, s, a)) < Work(s)
  {
    if a.Poll? {
      var h :| 0 <= h < |s.slots| && s.slots[h].request != [];
      assert SlotOk(s, h);
      PollWorks(cb, s, h);
    } else if a.Skip? {
      SkipWorks(cb, s);
    } else if ByClient(a) {
      assert SlotOk(s, a.h);
      ClientWorks(cb, s, a);
    } else {
      assert SlotOk(s, s.server.i);
      if a.ReadHeader? { HeaderWorks(cb, s); } else { ServerWorks(cb, s, a); }
    }
  }

  /** A step that is not a new call. */
  ghost predicate OldWork<P(!new), R(!new)>(cb: Callback<P, R>, s: State<P, R>, t: State<P, R>) {
    exists a :: Enabled(s, a) && !a.Call? && t == Apply(cb, s, a)
  }

  /** A schedule, of any threads in any order, in which nobody makes a new call. */
  ghost predicate IsSchedule<P(!new), R(!new)>(cb: Callback<P, R>, run: seq<State<P, R>>) {
    |run| > 0 && forall i :: 0 <= i < |run| - 1 ==> OldWork(cb, run[i], run[i + 1])
  }

  lemma {:induction false} ScheduleWorks<P(!new), R(!new)>(cb: Callback<P, R>, priv: P, run: seq<State<P, R>>, i: nat)
    requires IsSchedule(cb, run) && Inv(cb, priv, run[0]) && i < |run|
    ensures Inv(cb, priv, run[i]) && i + Work(run[i]) <= Work(run[0])
  {
    if i > 0 {
      ScheduleWorks(cb, priv, run, i - 1);
      assert OldWork(cb, run[i - 1], run[i]);
      var a :| Enabled(run[i - 1], a) && !a.Call? && run[i] == Apply(cb, run[i - 1], a);
      StepKeepsInv(cb, priv, run[i - 1], a);
      StepWorks(cb, priv, run[i - 1], a);
    }
  }

  /** From any reachable state, a schedule without new calls has no more steps than there is work
      left, and one that cannot be continued has answered every call. */
  lemma EveryCallEnds<P(!new), R(!new)>(cb: Callback<P, R>, run: seq<State<P, R>>, i: nat, schedule: seq<State<P, R>>)
    requires IsRun(cb, run) && i < |run| && IsSchedule(cb, schedule) && schedule[0] == run[i]
    ensures |schedule| - 1 <= Work(run[i])
    ensures var last := schedule[|schedule| - 1];
      (exists a :: Enabled(last, a) && !a.Call?) || forall h :: 0 <= h < |last.slots| ==> last.slots[h].client.Idle?
  {
    var last := schedule[|schedule| - 1];
    RunInv(cb, run, i);
    ScheduleWorks(cb, run[0].priv, schedule, |schedule| - 1);
    if h :| 0 <= h < |last.slots| && !last.slots[h].client.Idle? {
      var a := Mover(cb, run[0].priv, last, h);
    }
  }

  // ---- Fairness --------------------------------------------------------------------

  /** How often the callback ran for g in `hist`. */
  function Runs<R>(hist: seq<Event<R>>, g: nat): nat {
    if hist == [] then 0
    else
      var n := |hist| - 1;
      Runs(hist[..n], g) + if hist[n].Ran? && hist[n].h == g then 1 else 0
  }

  /** The header is written and the callback has not run yet. */
  predicate Pending<P, R>(s: State<P, R>, h: nat)
    requires h < |s.slots|
  {
    var x := s.slots[h];
    (x.client.Sending? || x.client.Waiting?) && x.answer.None? && !(s.server.Answering? && s.server.i == h)
  }

  /** The pass under way will still come to h, because its poll() saw h. */
  predicate Included(v: Server, h: nat) {
    !v.Polling? && h < |v.ready| && v.ready[h] && (if v.Answering? then v.i < h else v.i <= h)
  }

  /** The pass under way has served g if it was going to. */
  predicate Passed(v: Server, g: nat) {
    v.Polling? || g < v.i || (v.Answering? && v.i == g)
  }

  /** Since h's header was written, g ran at most once in the pass that did not know of h, and
      at most once in the pass that does. */
  predicate FairTo<P, R>(s: State<P, R>, h: nat, g: nat)
    requires h < |s.slots|
  {
    Pending(s, h) ==>
      && s.slots[h].since <= |s.hist|
      && Runs(s.hist[s.slots[h].since..], g)
         <= (if Included(s.server, h) then 1 else 0) + (if Passed(s.server, g) then 1 else 0)
  }

  lemma RunsAppend<R>(hist: seq<Event<R>>, e: Event<R>, from: nat, g: nat)
    requires from <= |hist|
    ensures Runs((hist + [e])[from..], g) == Runs(hist[from..], g) + if e.Ran? && e.h == g then 1 else 0
  {
    assert (hist + [e])[from..] == hist[from..] + [e];
    assert (hist[from..] + [e])[..|hist[from..]|] == hist[from..];
  }

  lemma ClientKeepsFair<P(!new), R(!new)>(cb: Callback<P, R>, s: State<P, R>, a: Action, h: nat, g: nat)
    requires h < |s.slots| && SlotOk(s, h) && Enabled(s, a) && ByClient(a) && g != h && FairTo(s, h, g)
    ensures FairTo(Apply(cb, s, a), h, g)
  {
    var t := Apply(cb, s, a);
    if Pending(s, h) && t.hist != s.hist {
      RunsAppend(s.hist, t.hist[|s.hist|], s.slots[h].since, g);
    }
  }

  lemma CallbackKeepsFair<P(!new), R(!new)>(cb: Callback<P, R>, s: State<P, R>, h: nat, g: nat)
    requires h < |s.slots| && SlotOk(s, h) && Enabled(s, RunCallback) && g != h && FairTo(s, h, g)
    ensures FairTo(Apply(cb, s, RunCallback), h, g)
  {
    var t := Apply(cb, s, RunCallback);
    if Pending(s, h) {
      RunsAppend(s.hist, t.hist[|s.hist|], s.slots[h].since, g);
    }
  }

  lemma ServerKeepsFair<P(!new), R(!new)>(cb: Callback<P, R>, s: State<P, R>, a: Action, h: nat, g: nat)
    requires h < |s.slots| && ServerOk(s) && SlotOk(s, h) && Enabled(s, a) && !ByClient(a) && !a.RunCallback?
    requires g != h && FairTo(s, h, g)
    ensures FairTo(Apply(cb, s, a), h, g)
  {
  }

  lemma StepKeepsFair<P(!new), R(!new)>(cb: Callback<P, R>, priv: P, s: State<P, R>, a: Action, h: nat, g: nat)
    requires Inv(cb, priv, s) && Enabled(s, a) && h < |s.slots| && g != h && FairTo(s, h, g)
    ensures FairTo(Apply(cb, s, a), h, g)
  {
    assert SlotOk(s, h);
    if ByClient(a) {
      ClientKeepsFair(cb, s, a, h, g);
    } else if a.RunCallback? {
      CallbackKeepsFair(cb, s, h, g);
    } else {
      ServerKeepsFair(cb, s, a, h, g);
    }
  }

  predicate FairIf<P, R>(s: State<P, R>, h: nat, g: nat) { h < |s.slots| ==> FairTo(s, h, g) }

  lemma NextKeepsFair<P(!new), R(!new)>(cb: Callback<P, R>, priv: P, s: State<P, R>, t: State<P, R>, h: nat, g: nat)
    requires Inv(cb, priv, s) && Next(cb, s, t) && g != h && FairIf(s, h, g)
    ensures FairIf(t, h, g)
  {
    var a :| Enabled(s, a) && t == Apply(cb, s, a);
    if h < |t.slots| { StepKeepsFair(cb, priv, s, a, h, g); }
  }

  lemma {:induction false} RunFair<P(!new), R(!new)>(cb: Callback<P, R>, run: seq<State<P, R>>, i: nat, h: nat, g: nat)
    requires IsRun(cb, run) && i < |run| && g != h
    ensures FairIf(run[i], h, g)
    decreases i
  {
    if i == 0 {
      StartIsFair(cb, run, h, g);
    } else {
      RunFair(cb, run, i - 1, h, g);
      FairStep(cb, run, i, h, g);
    }
  }

  lemma StartIsFair<P(!new), R(!new)>(cb: Callback<P, R>, run: seq<State<P, R>>, h: nat, g: nat)
    requires IsRun(cb, run)
    ensures FairIf(run[0], h, g)
  {
    assert h < |run[0].slots| ==> run[0].slots[h].client == Idle;
  }

  lemma FairStep<P(!new), R(!new)>(cb: Callback<P, R>, run: seq<State<P, R>>, i: nat, h: nat, g: nat)
    requires IsRun(cb, run) && 0 < i < |run| && g != h && FairIf(run[i - 1], h, g)
    ensures FairIf(run[i], h, g)
  {
    RunNext(cb, run, i);
    NextKeepsFair(cb, run[0].priv, run[i - 1], run[i], h, g);
  }

  lemma RunNext<P(!new), R(!new)>(cb: Callback<P, R>, run: seq<State<P, R>>, i: nat)
    requires IsRun(cb, run) && 0 < i < |run|
    ensures Next(cb, run[i - 1], run[i]) && Inv(cb, run[0].priv, run[i - 1])
  {
    RunInv(cb, run, i - 1);
    assert run[i] == run[i - 1 + 1];
  }

  /** From the moment its request is readable until its callback runs, a client is overtaken at
      most twice by any other client, and at most once by one with a higher index. */
  lemma OvertakenAtMostTwice<P(!new), R(!new)>(cb: Callback<P, R>, run: seq<State<P, R>>, i: nat, h: nat, g: nat)
    requires IsRun(cb, run) && i < |run| && h < |run[i].slots| && g != h && Pending(run[i], h)
    ensures run[i].slots[h].since <= |run[i].hist|
    ensures Runs(run[i].hist[run[i].slots[h].since..], g) <= if g < h then 2 else 1
  {
    RunFair(cb, run, i, h, g);
  }

  // ---- The plugin's thread -----------------------------------------------------------

  const MAX_LISTENERS := 1024

  /** The callback runs of a history, in order. */
  function Execs<R>(hist: seq<Event<R>>): seq<Event<R>> {
    if hist == [] then []
    else
      var n := |hist| - 1;
      Execs(hist[..n]) + if hist[n].Ran? then [hist[n]] else []
  }

  lemma ExecsAppend<R>(hist: seq<Event<R>>, e: Event<R>)
    ensures Execs(hist + [e]) == Execs(hist) + if e.Ran? then [e] else []
  {
  }

  /** The slot's client is in the middle of a call, and has no answer yet. */
  predicate InCall<R>(x: Slot<R>) {
    x.answer.None? && (x.client.Sending? || x.client.Waiting?)
  }

  predicate Sends<P, R>(s: State<P, R>, h: nat, msg: seq<byte>) {
    h < |s.slots| && InCall(s.slots[h]) && s.slots[h].client.msg == msg
  }

  /** What other threads' steps leave of a slot: more to read, and the same unanswered call. */
  predicate SlotKept<R>(x: Slot<R>, y: Slot<R>) {
    x.request <= y.request && (InCall(x) ==> InCall(y) && y.client.msg == x.client.msg)
  }

  /** When the socket is empty in the middle of a message, its client is still writing it. */
  lemma SenderHasMore<P(!new), R(!new)>(s: State<P, R>, i: nat)
    requires i < |s.slots| && SlotOk(s, i) && s.server.Reading? && s.server.i == i
    requires |s.server.got| < s.server.need && s.slots[i].request == []
    ensures s.slots[i].client.Sending? && s.slots[i].client.sent < |s.slots[i].client.msg|
  {
  }

  lemma AllRead<P(!new), R(!new)>(s: State<P, R>, i: nat)
    requires i < |s.slots| && SlotOk(s, i) && s.server.Reading? && s.server.i == i
    requires |s.server.got| == s.server.need
    ensures InCall(s.slots[i]) && s.server.got == s.slots[i].client.msg
  {
  }

  /** What a client's step leaves to the server and to the other clients. */
  lemma ClientLeaves<P(!new), R(!new)>(cb: Callback<P, R>, s: State<P, R>, a: Action)
    requires Enabled(s, a) && ByClient(a) && SlotOk(s, a.h)
    ensures var t := Apply(cb, s, a);
      && |t.slots| == |s.slots| && t.server == s.server && t.priv == s.priv && t.reply == s.reply
      && Execs(t.hist) == Execs(s.hist)
      && forall h :: 0 <= h < |s.slots| ==> SlotKept(s.slots[h], t.slots[h])
  {
    if a.Call? {
      ExecsAppend(s.hist, Called(a.h, a.msg));
    } else if a.ReadAnswer? {
      ExecsAppend(s.hist, Returned(a.h, s.slots[a.h].answer.value));
    }
  }

  /**
   A plugin with its callback. The methods are the plugin thread's code; before each of its
   system calls the clients take any number of steps.
   */
  class Plugin<P(!new), R(!new)> {
    const cb: Callback<P, R>
    ghost const first: P
    var s: State<P, R>

    ghost predicate Valid()
      reads this
    {
      Inv(cb, first, s)
    }

    constructor (cb: Callback<P, R>, priv: P)
      ensures Valid() && Init(s) && s.slots == [] && s.priv == priv && this.cb == cb && first == priv
    {
      this.cb, this.first := cb, priv;
      this.s := State([], Polling, priv, None, []);
    }

    /** ipc_register(): a new socketpair, at the end of the listeners. */
    method Register() returns (h: nat)
      requires Valid() && Init(s) && |s.slots| < MAX_LISTENERS
      modifies this
      ensures Valid() && Init(s) && s.priv == old(s.priv)
      ensures h == |old(s.slots)| && s.slots == old(s.slots) + [Slot(Idle, [], None, 0)]
    {
      h := |s.slots|;
      s := s.(slots := s.slots + [Slot(Idle, [], None, 0)]);
    }

    method Do(a: Action)
      requires Valid() && Enabled(s, a)
      modifies this
      ensures Valid() && s == Apply(cb, old(s), a)
    {
      StepKeepsInv(cb, first, s, a);
      s := Apply(cb, s, a);
    }

    /** The clients went on; the plugin's own thread did not. */
    twostate predicate Interfered()
      reads this
    {
      && Valid() && |s.slots| == |old(s.slots)|
      && s.server == old(s.server) && s.priv == old(s.priv) && s.reply == old(s.reply)
      && Execs(s.hist) == Execs(old(s.hist))
      && forall h :: 0 <= h < |s.slots| ==> SlotKept(old(s.slots[h]), s.slots[h])
    }

    /** One step of some client. */
    method ClientDoes(a: Action)
      requires Valid() && Enabled(s, a) && ByClient(a)
      modifies this
      ensures Interfered() && s == Apply(cb, old(s), a)
    {
      assert SlotOk(s, a.h);
      ClientLeaves(cb, s, a);
      Do(a);
    }

    method Interfere()
      requires Valid()
      modifies this
      ensures Interfered()
    {
      var steps: nat := *;
      while steps > 0
        invariant Interfered()
      {
        var a: Action := *;
        if ByClient(a) && Enabled(s, a) {
          ClientDoes(a);
        }
        steps := steps - 1;
      }
    }

    /** Until there is something to read on the slot being served. */
    method Await()
      requires Valid() && s.server.Reading? && |s.server.got| < s.server.need
      requires s.server.i < |s.slots| && InCall(s.slots[s.server.i])
      modifies this
      ensures Interfered() && s.slots[s.server.i].request != []
    {
      Interfere();
      var i := s.server.i;
      if s.slots[i].request == [] {
        assert SlotOk(s, i);
        SenderHasMore(s, i);
        var more: int := *;
        if more <= 0 || more > |s.slots[i].client.msg| - s.slots[i].client.sent { more := 1; }
        ClientDoes(WriteSome(i, more));
      }
    }

    /** read(fd, data + i, length - i): blocks until the client has written, then takes any part. */
    method Read()
      requires Valid() && s.server.Reading? && |s.server.got| < s.server.need
      requires s.server.i < |s.slots| && InCall(s.slots[s.server.i])
      modifies this
      ensures Valid() && |s.slots| == |old(s.slots)|
      ensures s.server.Reading? && s.server == old(s.server).(got := s.server.got)
      ensures |old(s.server.got)| < |s.server.got| <= s.server.need
      ensures Sends(s, s.server.i, old(s.slots[s.server.i].client.msg))
      ensures s.priv == old(s.priv) && Execs(s.hist) == Execs(old(s.hist))
    {
      Await();
      var n: int := *;
      if n <= 0 || n > |s.slots[s.server.i].request| || n > s.server.need - |s.server.got| { n := 1; }
      Do(ReadSome(n));
    }

    /** ipc_cmd's read loop: afterwards `got` is the whole message. */
    method ReadAll()
      requires Valid() && s.server.Reading? && |s.server.got| <= s.server.need
      requires s.server.i < |s.slots| && InCall(s.slots[s.server.i])
      modifies this
      ensures Valid() && |s.slots| == |old(s.slots)|
      ensures s.server.Reading? && s.server == old(s.server).(got := s.server.got)
      ensures Sends(s, s.server.i, old(s.slots[s.server.i].client.msg))
      ensures s.server.got == old(s.slots[s.server.i].client.msg) && |s.server.got| == s.server.need
      ensures s.priv == old(s.priv) && Execs(s.hist) == Execs(old(s.hist))
    {
      while |s.server.got| < s.server.need
        invariant Valid() && |s.slots| == |old(s.slots)|
        invariant s.server.Reading? && s.server == old(s.server).(got := s.server.got)
        invariant |s.server.got| <= s.server.need
        invariant Sends(s, s.server.i, old(s.slots[s.server.i].client.msg))
        invariant s.priv == old(s.priv) && Execs(s.hist) == Execs(old(s.hist))
        decreases s.server.need - |s.server.got|
      {
        Read();
      }
      assert SlotOk(s, s.server.i);
      AllRead(s, s.server.i);
    }

    /** cb(priv, data, &ret). */
    method Callback()
      requires Valid() && s.server.Reading? && s.server.i < |s.slots| && |s.server.got| == s.server.need
      modifies this
      ensures Valid() && s.server == Answering(old(s.server.i), old(s.server.ready)) && s.slots == old(s.slots)
      ensures var data := old(s.server.got) + [NUL]; var (p, r) := cb(old(s.priv), data);
        && s.priv == p && s.reply == Some(r)
        && Execs(s.hist) == Execs(old(s.hist)) + [Ran(old(s.server.i), data, r)]
    {
      var data := s.server.got + [NUL];
      ExecsAppend(s.hist, Ran(s.server.i, data, cb(s.priv, data).1));
      Do(RunCallback);
    }

    /** read(fd, buffer, 10) and the assertions on what it brings. */
    method TakeHeader()
      requires Valid() && s.server.Scanning? && s.server.i < |s.slots| && s.server.ready[s.server.i]
      modifies this
      ensures Valid() && |s.slots| == |old(s.slots)| && old(InCall(s.slots[s.server.i]))
      ensures s.server == Reading(old(s.server.i), old(s.server.ready), |old(s.slots[s.server.i].client.msg)|, [])
      ensures Sends(s, s.server.i, old(s.slots[s.server.i].client.msg))
      ensures s.priv == old(s.priv) && Execs(s.hist) == Execs(old(s.hist))
    {
      assert SlotOk(s, s.server.i);
      HeaderArrives(s, s.server.i);
      Interfere();
      assert SlotOk(s, s.server.i);
      HeaderArrives(s, s.server.i);
      Do(ReadHeader);
    }

    /** VCLI_WriteResult(). */
    method Reply()
      requires Valid() && s.server.Answering? && s.server.i < |s.slots| && s.reply.Some?
      modifies this
      ensures Valid() && |s.slots| == |old(s.slots)|
      ensures s.server == Scanning(old(s.server.i) + 1, old(s.server.ready))
      ensures s.priv == old(s.priv) && Execs(s.hist) == Execs(old(s.hist))
      ensures s.slots[old(s.server.i)].answer == old(s.reply)
    {
      Interfere();
      Do(WriteAnswer);
    }

    /** ipc_cmd(): whatever the pieces, the callback is run once, on the client's message and a
        NUL, and its answer is left for that client. */
    method IpcCmd()
      requires Valid() && s.server.Scanning? && s.server.i < |s.slots| && s.server.ready[s.server.i]
      modifies this
      ensures old(InCall(s.slots[s.server.i]))
      ensures Valid() && |s.slots| == |old(s.slots)|
      ensures s.server == Scanning(old(s.server.i) + 1, old(s.server.ready))
      ensures var i := old(s.server.i); var data := old(s.slots[i].client.msg) + [NUL];
        var (p, r) := cb(old(s.priv), data);
        && s.priv == p && s.slots[i].answer == Some(r)
        && Execs(s.hist) == Execs(old(s.hist)) + [Ran(i, data, r)]
    {
      TakeHeader();
      ReadAll();
      Callback();
      Reply();
    }

    /** poll(fds, nlisteners, -1). It comes back when there is something to report, which the clients
        may see to only now; as long as they have not, it blocks (false). */
    method PollAll() returns (woke: bool)
      requires Valid() && s.server.Polling?
      modifies this
      ensures Valid() && Execs(s.hist) == Execs(old(s.hist)) && |s.slots| == |old(s.slots)|
      ensures forall h :: 0 <= h < |s.slots| ==> SlotKept(old(s.slots[h]), s.slots[h])
      ensures woke == (Readable(s.slots, |s.slots|) != [])
      ensures !woke ==> s.server.Polling?
      ensures woke ==> s.server.Scanning? && s.server.i == 0 && Tells(s.server.ready, s.slots)
    {
      Interfere();
      woke := Readable(s.slots, |s.slots|) != [];
      if woke {
        ReadableExists(s.slots, |s.slots|);
        Do(Poll);
      }
    }

    /** The loop's turn at slot i: ipc_cmd if poll() reported it. */
    method Turn()
      requires Valid() && s.server.Scanning? && s.server.i < |s.slots|
      modifies this
      ensures Valid() && |s.slots| == |old(s.slots)|
      ensures s.server == Scanning(old(s.server.i) + 1, old(s.server.ready))
      ensures Handles(Execs(s.hist)) == Handles(Execs(old(s.hist))) +
        if old(s.server.ready[s.server.i]) then [old(s.server.i)] else []
    {
      if s.server.ready[s.server.i] {
        IpcCmd();
      } else {
        Do(Skip);
      }
    }

    /** One pass of ipc_loop(): every slot that poll() saw readable is served once, in index
        order, and no other slot is. `polled` is what poll() saw: what was readable before, and more.
        As long as that is nothing, poll() blocks. */
    method Pass() returns (woke: bool, ghost polled: seq<Slot<R>>)
      requires Valid() && s.server.Polling?
      modifies this
      ensures Valid() && s.server.Polling? && |s.slots| == |old(s.slots)| == |polled|
      ensures forall h :: 0 <= h < |polled| ==> SlotKept(old(s.slots[h]), polled[h])
      ensures woke == (Readable(polled, |polled|) != [])
      ensures Handles(Execs(s.hist)) == Handles(Execs(old(s.hist))) + Readable(polled, |polled|)
    {
      woke := PollAll();
      polled := s.slots;
      if woke {
        Sweep(polled);
      }
    }

    /** The loop over the listeners. */
    method Sweep(ghost polled: seq<Slot<R>>)
      requires Valid() && s.server.Scanning? && s.server.i == 0
      requires polled == s.slots && Tells(s.server.ready, polled)
      modifies this
      ensures Valid() && s.server.Polling? && |s.slots| == |polled|
      ensures Handles(Execs(s.hist)) == Handles(Execs(old(s.hist))) + Readable(polled, |polled|)
    {
      ghost var ready := s.server.ready;
      var i := 0;
      while i < |s.slots|
        invariant Valid() && |s.slots| == |polled| && s.server == Scanning(i, ready)
        invariant i <= |polled|
        invariant Handles(Execs(s.hist)) == Handles(Execs(old(s.hist))) + Readable(polled, i)
      {
        Turn();
        i := i + 1;
      }
      Do(Skip);
    }
  }

  /** What poll() reports of the sockets. */
  ghost predicate Tells<R>(ready: seq<bool>, slots: seq<Slot<R>>) {
    |ready| == |slots| && forall h :: 0 <= h < |slots| ==> ready[h] == (slots[h].request != [])
  }

  /** The slots below k whose sockets hold something to read. */
  function Readable<R>(slots: seq<Slot<R>>, k: nat): (r: seq<nat>)
    requires k <= |slots|
  {
    if k == 0 then [] else Readable(slots, k - 1) + if slots[k - 1].request != [] then [k - 1] else []
  }

  lemma {:induction false} ReadableExists<R>(slots: seq<Slot<R>>, k: nat)
    requires k <= |slots| && Readable(slots, k) != []
    ensures exists h :: 0 <= h < k && slots[h].request != []
  {
    if slots[k - 1].request == [] { ReadableExists(slots, k - 1); }
  }

  function Handles<R>(events: seq<Event<R>>): seq<nat> {
    seq(|events|, i requires 0 <= i < |events| => events[i].h)
  }
}
