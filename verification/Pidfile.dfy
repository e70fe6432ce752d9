/**
 The pidfile lock as a protocol: any number of processes run pidfile_open,
 pidfile_write, pidfile_close and pidfile_remove on one path, one system call at a
 time, in any order, and may crash between any two of them.

 A process's `pc` names the system call it is about to make. `Go` is that call
 succeeding, `Fail` is it failing, `Create` is open() making the file. Inode numbers
 are reused: a new file may get any number that is neither named nor open.
 */
module Pidfile {
  import opened Bytes
  import opened Inodes
  import Decimal

  type ProcId = nat

  datatype Pc =
    | Idle                                           // no call in progress, no handle
    | Opening                                        // flopen: open()
    | Opened(ino: Ino)                               // flopen: flock()
    | Locked(ino: Ino)                               // flopen: stat()
    | Stated(ino: Ino, seen: Option<Ino>)            // flopen: fstat() and the comparison
    | Retrying(ino: Ino)                             // flopen: close() and loop
    | Failing(ino: Ino, busy: bool, held: bool)      // flopen: close() and return -1
    | Matched(ino: Ino)                              // flopen: ftruncate()
    | Truncated(ino: Ino)                            // pidfile_open: fstat()
    | Probing(tries: nat)                            // pidfile_read: open()
    | Probed(ino: Ino, tries: nat)                   // pidfile_read: read() and close()
    | Owner(ino: Ino, wrote: bool)                   // a handle is held
    | Rewriting(ino: Ino)                            // pidfile_write: pwrite()
    | Removing(ino: Ino, keep: bool)                 // _pidfile_remove: unlink()
    | Removed(ino: Ino, keep: bool)                  // _pidfile_remove: close()
    | Broken                                         // a handle whose pf_fd is -1

  /** The fields from `start` on only record what happened; no step depends on them. */
  datatype Proc = Proc(
    pid: nat,
    pc: Pc,
    probe: Probe,
    start: nat,      // unlinks so far when flopen was entered
    faults: nat,     // stat() calls that failed for no reason of the protocol's
    atOpen: nat,     // Causes when the current open() returned
    retries: nat,    // times round flopen's loop
    acquired: nat,   // successful stat/fstat comparisons
    removed: nat,    // own unlinks
    refusedBy: Option<ProcId>)   // who had the lock when flock() was refused in the current pidfile_open

  /** What pidfile_open tells its caller about the other process: nothing, because of a failed call; that
      the file is gone; a pid; that the file holds something else; that it stays empty. */
  datatype Probe = Unknown | Missing | Running(pid: int) | Garbage | Empty

  datatype State = State(
    path: Option<Ino>,
    content: map<Ino, seq<byte>>,
    lock: map<Ino, ProcId>,
    procs: map<ProcId, Proc>,
    unlinks: seq<ProcId>)

  datatype Action =
    | Call | Go | Create(ino: Ino) | Fail
    | Write | Release | Remove | Balk | Daemonize(pid: nat) | Crash(pid: nat)

  // ---- What a process holds --------------------------------------------------

  function Fd(pc: Pc): Option<Ino> {
    if pc.Idle? || pc.Opening? || pc.Probing? || pc.Broken? then None else Some(pc.ino)
  }

  function LockOf(pc: Pc): Option<Ino> {
    if pc.Opened? || pc.Probed? || (pc.Failing? && !pc.held) then None else Fd(pc)
  }

  /** From the stat() that saw its own inode until its own unlink or close. */
  predicate Critical(pc: Pc) {
    (pc.Stated? && pc.seen == Some(pc.ino)) || Acquired(pc)
  }

  /** Past the comparison, and neither unlinked nor closed yet. */
  predicate Acquired(pc: Pc) {
    pc.Matched? || pc.Truncated? || pc.Owner? || pc.Rewriting? || pc.Removing?
  }

  /** From the ftruncate() in flopen on, until the descriptor is closed. */
  predicate PastTruncation(pc: Pc) {
    pc.Truncated? || pc.Owner? || pc.Rewriting? || pc.Removing? || pc.Removed?
  }

  predicate InFlopen(pc: Pc) {
    pc.Opening? || pc.Opened? || pc.Locked? || pc.Stated? || pc.Retrying?
  }

  predicate Live(s: State, ino: Ino) {
    s.path == Some(ino) || exists q :: q in s.procs && Fd(s.procs[q].pc) == Some(ino)
  }

  /** Everything that can send flopen round its loop again. */
  function Causes(s: State, x: Proc): int { |s.unlinks| - x.start + x.faults }

  // ---- The steps ---------------------------------------------------------------

  predicate Enabled(s: State, p: ProcId, a: Action) {
    p in s.procs &&
    var pc := s.procs[p].pc;
    match a
    case Call => pc.Idle?
    case Crash(_) => true
    case Create(ino) => pc.Opening? && s.path.None? && !Live(s, ino)
    case Go =>
      match pc {
        case Idle => false
        case Opening => s.path.Some?
        case Opened(i) => i !in s.lock
        case Probing(_) => s.path.Some?
        case Probed(i, _) => i in s.content
        case Owner(_, _) => false
        case Broken => false
        case _ => true
      }
    case Fail =>
      match pc {
        case Opening => true
        case Opened(_) => true
        case Locked(_) => true
        case Stated(_, seen) => seen.Some?
        case Matched(_) => true
        case Truncated(_) => true
        case Probing(_) => true
        case Probed(_, _) => true
        case Owner(_, _) => true
        case Rewriting(_) => true
        case Removing(_, _) => true
        case _ => false
      }
    case Write => pc.Owner?
    case Release => pc.Owner?
    case Remove => pc.Owner?
    case Balk => pc.Rewriting?
    case Daemonize(_) => pc.Owner? && !pc.wrote
  }

  /** What a system call does to the kernel's state. */
  datatype Effect =
    | Nothing
    | Creates(ino: Ino)
    | Locks(ino: Ino)
    | Closes
    | Unlinks
    | Writes(ino: Ino, text: seq<byte>)

  function EffectOf(x: Proc, a: Action): Effect {
    match a
    case Create(ino) => Creates(ino)
    case Crash(_) => Closes
    case Release => Closes
    case Write => if x.pc.Owner? then Writes(x.pc.ino, []) else Nothing
    case Go =>
      (match x.pc
       case Opened(i) => Locks(i)
       case Retrying(_) => Closes
       case Failing(_, _, _) => Closes
       case Removed(_, _) => Closes
       case Matched(i) => Writes(i, [])
       case Rewriting(i) => Writes(i, Decimal.Digits(x.pid))
       case Removing(_, _) => Unlinks
       case _ => Nothing)
    case _ => Nothing
  }

  /** close() drops the lock that the descriptor carries. */
  function KernelAfter(s: State, p: ProcId, e: Effect): State
    requires p in s.procs
  {
    match e
    case Nothing => s
    case Creates(i) => s.(path := Some(i), content := s.content[i := []])
    case Locks(i) => s.(lock := s.lock[i := p])
    case Closes =>
      var held := LockOf(s.procs[p].pc);
      if held.Some? then s.(lock := s.lock - {held.value}) else s
    case Unlinks => s.(path := None, unlinks := s.unlinks + [p])
    case Writes(i, text) => s.(content := s.content[i := text])
  }

  function ProbeOf(text: seq<byte>): Probe {
    var buf := if |text| <= 15 then text else text[..15];
    if buf == [] then Empty
    else
      var (v, end) := Decimal.Strtol(CStr(buf));
      if end == |buf| then Running(v) else Garbage
  }

  function Causes0(s: State, x: Proc): nat {
    if Causes(s, x) < 0 then 0 else Causes(s, x)
  }

  /** Where p stands after its system call succeeded. */
  function Succeed(s: State, x: Proc): Proc {
    match x.pc
    case Opening => if s.path.Some? then x.(pc := Opened(s.path.value), atOpen := Causes0(s, x)) else x
    case Opened(i) => x.(pc := Locked(i))
    case Locked(i) => x.(pc := Stated(i, s.path))
    case Stated(i, seen) =>
      if seen == Some(i) then x.(pc := Matched(i), acquired := x.acquired + 1) else x.(pc := Retrying(i))
    case Retrying(i) => x.(pc := Opening, retries := x.retries + 1)
    case Failing(i, busy, _) => x.(pc := if busy then Probing(0) else Idle)
    case Matched(i) => x.(pc := Truncated(i))
    case Truncated(i) => x.(pc := Owner(i, false))
    case Probing(t) => if s.path.Some? then x.(pc := Probed(s.path.value, t)) else x
    case Probed(i, t) =>
      if i in s.content then
        var r := ProbeOf(s.content[i]);
        x.(pc := if r.Empty? && t < 3 then Probing(t + 1) else Idle, probe := r)
      else x
    case Rewriting(i) => x.(pc := Owner(i, true))
    case Removing(i, keep) => x.(pc := Removed(i, keep), removed := x.removed + 1)
    case Removed(i, keep) => x.(pc := if keep then Broken else Idle)
    case _ => x
  }

  /** ... and after it failed. */
  function Fall(s: State, x: Proc): Proc {
    match x.pc
    case Opened(i) => x.(pc := Failing(i, i in s.lock, false), refusedBy := Holder(s, i))
    case Locked(i) => x.(pc := Stated(i, None), faults := x.faults + 1)
    case Stated(i, _) => x.(pc := Failing(i, false, true))
    case Matched(i) => x.(pc := Failing(i, false, true))
    case Truncated(i) => x.(pc := Removing(i, false))
    case Owner(i, _) => x.(pc := Removing(i, true))
    case Rewriting(i) => x.(pc := Removing(i, true))
    case Removing(i, keep) => x.(pc := Removed(i, keep))
    case Probing(_) => x.(pc := Idle, probe := if s.path.None? then Missing else Unknown)
    case _ => x.(pc := Idle, probe := Unknown)
  }

  function Holder(s: State, i: Ino): Option<ProcId> { if i in s.lock then Some(s.lock[i]) else None }

  function ProcAfter(s: State, x: Proc, a: Action): Proc {
    match a
    case Call => x.(pc := Opening, probe := Unknown, start := |s.unlinks|, faults := 0, retries := 0,
                    refusedBy := None)
    case Crash(pid) => x.(pid := pid, pc := Idle)
    case Create(ino) => x.(pc := Opened(ino), atOpen := Causes0(s, x))
    case Go => Succeed(s, x)
    case Fail => Fall(s, x)
    case Write => if x.pc.Owner? then x.(pc := Rewriting(x.pc.ino)) else x
    case Release => x.(pc := Idle)
    case Remove => if x.pc.Owner? then x.(pc := Removing(x.pc.ino, false)) else x
    case Balk => if x.pc.Rewriting? then x.(pc := Owner(x.pc.ino, false)) else x
    case Daemonize(pid) => x.(pid := pid)
  }

  function Apply(s: State, p: ProcId, a: Action): State
    requires p in s.procs
  {
    var x := s.procs[p];
    KernelAfter(s, p, EffectOf(x, a)).(procs := s.procs[p := ProcAfter(s, x, a)])
  }

  // ---- Runs --------------------------------------------------------------------

  /** Any file may be there already, with any bytes; nobody has called anything yet. */
  ghost predicate Init(s: State) {
    && s.lock == map[] && s.unlinks == []
    && (s.path.Some? ==> s.path.value in s.content)
    && forall p :: p in s.procs ==>
         s.procs[p].pc == Idle && s.procs[p].acquired == 0 && s.procs[p].removed == 0 && s.procs[p].refusedBy == None
  }

  ghost predicate StepBy(s: State, p: ProcId, a: Action, s': State) {
    Enabled(s, p, a) && s' == Apply(s, p, a)
  }

  ghost predicate Next(s: State, s': State) {
    exists p, a :: StepBy(s, p, a, s')
  }

  ghost predicate IsRun(run: seq<State>) {
    && |run| > 0 && Init(run[0])
    && forall i :: 0 <= i < |run| - 1 ==> Next(run[i], run[i + 1])
  }

  // ---- The invariant -------------------------------------------------------------

  ghost predicate FdOk(s: State, x: Proc) {
    Fd(x.pc).Some? ==> Fd(x.pc).value in s.content
  }

  ghost predicate LockOk(s: State, p: ProcId, x: Proc) {
    LockOf(x.pc).Some? ==> LockOf(x.pc).value in s.lock && s.lock[LockOf(x.pc).value] == p
  }

  ghost predicate PathOk(s: State, x: Proc) {
    Critical(x.pc) ==> s.path == Some(x.pc.ino)
  }

  ghost predicate TextOk(s: State, x: Proc)
    requires FdOk(s, x)
  {
    && (x.pc.Truncated? || x.pc.Rewriting? ==> s.content[x.pc.ino] == [])
    && (x.pc.Owner? ==> s.content[x.pc.ino] == if x.pc.wrote then Decimal.Digits(x.pid) else [])
    && (PastTruncation(x.pc) ==> s.content[x.pc.ino] in {[], Decimal.Digits(x.pid)})
  }

  ghost predicate RetryOk(s: State, p: ProcId, x: Proc) {
    InFlopen(x.pc) ==>
      && x.start <= |s.unlinks|
      && p !in s.unlinks[x.start..]
      && x.retries <= Causes(s, x)
      && (x.pc.Opened? || x.pc.Locked? || x.pc.Stated? || x.pc.Retrying? ==> x.retries <= x.atOpen <= Causes(s, x))
      && (x.pc.Opened? || x.pc.Locked? ==> s.path == Some(x.pc.ino) || x.atOpen < Causes(s, x))
      && (x.pc.Stated? ==> x.pc.seen == Some(x.pc.ino) || x.atOpen < Causes(s, x))
      && (x.pc.Retrying? ==> x.atOpen < Causes(s, x))
  }

  ghost predicate CountOk(x: Proc) {
    x.removed + (if Acquired(x.pc) then 1 else 0) <= x.acquired
  }

  ghost predicate ProcOk(s: State, p: ProcId)
    requires p in s.procs
  {
    var x := s.procs[p];
    FdOk(s, x) && LockOk(s, p, x) && PathOk(s, x) && TextOk(s, x) && RetryOk(s, p, x) && CountOk(x)
  }

  ghost predicate LocksOwned(s: State) {
    forall i :: i in s.lock ==> s.lock[i] in s.procs && LockOf(s.procs[s.lock[i]].pc) == Some(i)
  }

  ghost predicate Inv(s: State) {
    && (s.path.Some? ==> s.path.value in s.content)
    && LocksOwned(s)
    && forall p :: p in s.procs ==> ProcOk(s, p)
  }

  lemma InitInv(s: State)
    requires Init(s)
    ensures Inv(s)
  {
  }

  /** The effects that a step of p can have, given what p holds. */
  ghost predicate Allowed(s: State, p: ProcId, e: Effect)
    requires p in s.procs
  {
    var pc := s.procs[p].pc;
    match e
    case Creates(i) => pc.Opening? && s.path == None && !Live(s, i)
    case Locks(i) => pc == Opened(i) && i !in s.lock
    case Writes(i, _) => Acquired(pc) && i == pc.ino
    case Unlinks => pc.Removing?
    case _ => true
  }

  lemma StepAllowed(s: State, p: ProcId, a: Action)
    requires Enabled(s, p, a)
    ensures Allowed(s, p, EffectOf(s.procs[p], a))
  {
  }

  /** Two acquired files would be one file with two locks, so p's step leaves q's file alone. */
  lemma OtherFile(s: State, p: ProcId, e: Effect, y: Proc, q: ProcId)
    requires Inv(s) && p in s.procs && Allowed(s, p, e) && q in s.procs && q != p
    ensures var t := KernelAfter(s, p, e).(procs := s.procs[p := y]); var z := s.procs[q];
      && FdOk(t, z) && LockOk(t, q, z) && PathOk(t, z)
      && (LockOf(z.pc).Some? && z.pc.ino in s.content ==> t.content[z.pc.ino] == s.content[z.pc.ino])
  {
    assert ProcOk(s, p) && ProcOk(s, q);
  }

  lemma OtherStep(s: State, p: ProcId, e: Effect, y: Proc, q: ProcId)
    requires Inv(s) && p in s.procs && Allowed(s, p, e) && q in s.procs && q != p
    ensures ProcOk(KernelAfter(s, p, e).(procs := s.procs[p := y]), q)
  {
    assert ProcOk(s, q);
    OtherFile(s, p, e, y, q);
  }

  /** What a system call other than unlink() leaves of the books on retries. */
  lemma Ledger(s: State, p: ProcId, a: Action)
    requires Enabled(s, p, a) && !EffectOf(s.procs[p], a).Unlinks?
    requires a.Go? || a.Fail?
    ensures var t := Apply(s, p, a); var x, y := s.procs[p], t.procs[p];
      && p in t.procs && t.unlinks == s.unlinks
      && y.start == x.start && y.pid == x.pid && y.removed == x.removed
      && y.faults == x.faults + (if a.Fail? && x.pc.Locked? then 1 else 0)
      && (!x.pc.Opening? ==> y.atOpen == x.atOpen)
  {
  }

  /** What a step of q leaves to p. */
  lemma StepApart(s: State, p: ProcId, q: ProcId, a: Action)
    requires p in s.procs && q in s.procs && q != p
    ensures var t := Apply(s, q, a);
      && p in t.procs && t.procs[p] == s.procs[p]
      && |t.unlinks| == |s.unlinks| + if EffectOf(s.procs[q], a).Unlinks? then 1 else 0
  {
  }

  /** unlink(), which is counted if it succeeds. */
  lemma UnlinkStep(s: State, p: ProcId, ok: bool)
    requires p in s.procs && s.procs[p].pc.Removing?
    ensures var t := Apply(s, p, if ok then Go else Fail); var x := s.procs[p];
      && t.procs == s.procs[p := Unlinked(x, ok)]
      && (ok ==> t.path == None)
  {
  }

  /** A process past its unlink(). */
  function Unlinked(x: Proc, ok: bool): Proc
    requires x.pc.Removing?
  {
    x.(pc := Removed(x.pc.ino, x.pc.keep), removed := x.removed + if ok then 1 else 0)
  }

  /** p's descriptor and lock change only with the call that changes them. */
  lemma Holds(s: State, p: ProcId, a: Action)
    requires Enabled(s, p, a)
    ensures var x := s.procs[p]; var y := ProcAfter(s, x, a);
      && LockOf(y.pc) == (match EffectOf(x, a) case Locks(i) => Some(i) case Closes => None case _ => LockOf(x.pc))
      && (Fd(y.pc) == Fd(x.pc) || Fd(y.pc) == None || Fd(y.pc) == s.path || EffectOf(x, a) == Creates(y.pc.ino))
  {
  }

  lemma TableStep(s: State, p: ProcId, e: Effect, y: Proc)
    requires Inv(s) && p in s.procs && Allowed(s, p, e)
    requires LockOf(y.pc) == (match e case Locks(i) => Some(i) case Closes => None case _ => LockOf(s.procs[p].pc))
    ensures var t := KernelAfter(s, p, e).(procs := s.procs[p := y]);
      LocksOwned(t) && LockOk(t, p, y) && (t.path.Some? ==> t.path.value in t.content)
  {
  }

  lemma OwnFdGo(s: State, p: ProcId, a: Action)
    requires Inv(s) && Enabled(s, p, a) && a.Go?
    ensures var t := Apply(s, p, a); FdOk(t, t.procs[p]) && PathOk(t, t.procs[p])
  {
    assert ProcOk(s, p);
    Holds(s, p, a);
  }

  lemma OwnFdFail(s: State, p: ProcId, a: Action)
    requires Inv(s) && Enabled(s, p, a) && a.Fail?
    ensures var t := Apply(s, p, a); FdOk(t, t.procs[p]) && PathOk(t, t.procs[p])
  {
    assert ProcOk(s, p);
    Holds(s, p, a);
  }

  lemma OwnFdElse(s: State, p: ProcId, a: Action)
    requires Inv(s) && Enabled(s, p, a) && !a.Go? && !a.Fail?
    ensures var t := Apply(s, p, a); FdOk(t, t.procs[p]) && PathOk(t, t.procs[p])
  {
    assert ProcOk(s, p);
    Holds(s, p, a);
  }

  lemma OwnTextGo(s: State, p: ProcId, a: Action)
    requires Inv(s) && Enabled(s, p, a) && a.Go?
    requires FdOk(Apply(s, p, a), Apply(s, p, a).procs[p])
    ensures var t := Apply(s, p, a); TextOk(t, t.procs[p]) && CountOk(t.procs[p])
  {
    assert ProcOk(s, p);
  }

  lemma OwnTextFail(s: State, p: ProcId, a: Action)
    requires Inv(s) && Enabled(s, p, a) && a.Fail?
    requires FdOk(Apply(s, p, a), Apply(s, p, a).procs[p])
    ensures var t := Apply(s, p, a); TextOk(t, t.procs[p]) && CountOk(t.procs[p])
  {
    assert ProcOk(s, p);
  }

  lemma OwnTextElse(s: State, p: ProcId, a: Action)
    requires Inv(s) && Enabled(s, p, a) && !a.Go? && !a.Fail?
    requires FdOk(Apply(s, p, a), Apply(s, p, a).procs[p])
    ensures var t := Apply(s, p, a); TextOk(t, t.procs[p]) && CountOk(t.procs[p])
  {
    assert ProcOk(s, p);
  }

  lemma OwnRetryGo(s: State, p: ProcId, a: Action)
    requires Inv(s) && Enabled(s, p, a) && a.Go?
    ensures var t := Apply(s, p, a); RetryOk(t, p, t.procs[p])
  {
    assert ProcOk(s, p);
  }

  lemma OwnRetryFail(s: State, p: ProcId, a: Action)
    requires Inv(s) && Enabled(s, p, a) && a.Fail?
    ensures var t := Apply(s, p, a); RetryOk(t, p, t.procs[p])
  {
    assert ProcOk(s, p);
  }

  lemma OwnRetryElse(s: State, p: ProcId, a: Action)
    requires Inv(s) && Enabled(s, p, a) && !a.Go? && !a.Fail?
    ensures var t := Apply(s, p, a); RetryOk(t, p, t.procs[p])
  {
    assert ProcOk(s, p);
  }

  lemma OwnStep(s: State, p: ProcId, a: Action)
    requires Inv(s) && Enabled(s, p, a)
    ensures var t := Apply(s, p, a); var y := t.procs[p];
      FdOk(t, y) && PathOk(t, y) && TextOk(t, y) && RetryOk(t, p, y) && CountOk(y)
  {
    if a.Go? {
      OwnFdGo(s, p, a);
      OwnTextGo(s, p, a);
      OwnRetryGo(s, p, a);
    } else if a.Fail? {
      OwnFdFail(s, p, a);
      OwnTextFail(s, p, a);
      OwnRetryFail(s, p, a);
    } else {
      OwnFdElse(s, p, a);
      OwnTextElse(s, p, a);
      OwnRetryElse(s, p, a);
    }
  }

  lemma StepKeepsInv(s: State, p: ProcId, a: Action)
    requires Inv(s) && Enabled(s, p, a)
    ensures Inv(Apply(s, p, a))
  {
    var e, y := EffectOf(s.procs[p], a), ProcAfter(s, s.procs[p], a);
    StepAllowed(s, p, a);
    Holds(s, p, a);
    TableStep(s, p, e, y);
    OwnStep(s, p, a);
    forall q | q in s.procs && q != p ensures ProcOk(Apply(s, p, a), q) {
      OtherStep(s, p, e, y, q);
    }
  }

  // ---- Safety over every run ---------------------------------------------------

  lemma NextKeepsInv(s: State, t: State)
    requires Inv(s) && Next(s, t)
    ensures Inv(t)
  {
    var p, a :| StepBy(s, p, a, t);
    StepKeepsInv(s, p, a);
  }

  lemma {:induction false} RunInv(run: seq<State>, i: nat)
    requires IsRun(run) && i < |run|
    ensures Inv(run[i])
  {
    if i > 0 {
      RunInv(run, i - 1);
      NextKeepsInv(run[i - 1], run[i]);
    }
  }

  /** At most one process is between the comparison and its own unlink or close; the path
      names its file, it holds that file's lock, and no other process is about to unlink. */
  lemma MutualExclusion(run: seq<State>, i: nat, p: ProcId)
    requires IsRun(run) && i < |run| && p in run[i].procs && Critical(run[i].procs[p].pc)
    ensures var s := run[i]; var ino := s.procs[p].pc.ino;
      && s.path == Some(ino)
      && ino in s.lock && s.lock[ino] == p
      && forall q :: q in s.procs && Critical(s.procs[q].pc) ==> q == p
  {
    var s := run[i];
    RunInv(run, i);
    assert ProcOk(s, p);
    forall q | q in s.procs && Critical(s.procs[q].pc) ensures q == p {
      assert ProcOk(s, q);
    }
  }

  /** While q is in there, no step of another process changes the path, q's lock or q's bytes:
      in particular no other process's unlink, and none of its writes, can happen. */
  lemma OwnerUndisturbed(s: State, p: ProcId, a: Action, q: ProcId)
    requires Inv(s) && Enabled(s, p, a)
    requires q in s.procs && q != p && Critical(s.procs[q].pc)
    ensures var t := Apply(s, p, a); var ino := s.procs[q].pc.ino;
      && t.path == s.path == Some(ino)
      && t.content[ino] == s.content[ino]
      && ino in t.lock && t.lock[ino] == q
      && t.procs[q] == s.procs[q] && t.unlinks == s.unlinks
  {
    assert ProcOk(s, p) && ProcOk(s, q);
    StepAllowed(s, p, a);
    Holds(s, p, a);
  }

  /** Every unlink of every run removes the name of the unlinking process's own file. */
  lemma UnlinkRemovesOwnFile(run: seq<State>, i: nat, p: ProcId)
    requires IsRun(run) && i + 1 < |run|
    requires run[i + 1].unlinks == run[i].unlinks + [p]
    ensures p in run[i].procs && run[i].procs[p].pc.Removing?
    ensures run[i].path == Some(run[i].procs[p].pc.ino) && run[i + 1].path == None
  {
    RunInv(run, i);
    assert Next(run[i], run[i + 1]);
    var q, a :| StepBy(run[i], q, a, run[i + 1]);
    StepAllowed(run[i], q, a);
    assert |run[i + 1].unlinks| == |run[i].unlinks| + 1;
    assert EffectOf(run[i].procs[q], a).Unlinks?;
    assert run[i + 1].unlinks[|run[i].unlinks|] == q == p;
    assert ProcOk(run[i], q);
  }

  /** The bytes of a file that stays in use change only at the hand of the process that
      acquired it: neither a refused process nor a retrying one ever alters them. */
  lemma OnlyTheOwnerWrites(run: seq<State>, i: nat, ino: Ino)
    requires IsRun(run) && i + 1 < |run| && Live(run[i], ino)
    ensures ino in run[i].content && ino in run[i + 1].content
    ensures run[i + 1].content[ino] != run[i].content[ino] ==>
      && run[i].path == Some(ino) && ino in run[i].lock
      && var p := run[i].lock[ino]; p in run[i].procs && Acquired(run[i].procs[p].pc) && run[i].procs[p].pc.ino == ino
  {
    var s, t := run[i], run[i + 1];
    RunInv(run, i);
    if s.path != Some(ino) {
      var q :| q in s.procs && Fd(s.procs[q].pc) == Some(ino);
      assert ProcOk(s, q);
    }
    assert Next(run[i], run[i + 1]);
    var p, a :| StepBy(s, p, a, t);
    StepAllowed(s, p, a);
    assert ProcOk(s, p);
  }

  /** From its first truncation until it closes the descriptor an owner's file is empty or holds that
      owner's pid in decimal. */
  lemma OwnerText(run: seq<State>, i: nat, p: ProcId)
    requires IsRun(run) && i < |run| && p in run[i].procs && PastTruncation(run[i].procs[p].pc)
    ensures var x := run[i].procs[p];
      && x.pc.ino in run[i].content
      && run[i].content[x.pc.ino] in {[], Decimal.Digits(x.pid)}
      && (x.pc.Truncated? || x.pc.Rewriting? ==> run[i].content[x.pc.ino] == [])
      && (x.pc.Owner? ==> run[i].content[x.pc.ino] == if x.pc.wrote then Decimal.Digits(x.pid) else [])
  {
    RunInv(run, i);
    assert ProcOk(run[i], p);
  }

  /** Process p wrote its pid into the file in step j. */
  ghost predicate WroteAt(run: seq<State>, j: nat, p: ProcId, ino: Ino, text: seq<byte>) {
    && j < |run| && p in run[j].procs && run[j].procs[p].pc == Rewriting(ino)
    && text == Decimal.Digits(run[j].procs[p].pid)
  }

  /** What a file can hold: nothing, what it held before the run, or the pid of a process that owned it. */
  ghost predicate FromSomeone(run: seq<State>, i: nat, ino: Ino)
    requires i < |run| && ino in run[i].content
  {
    var text := run[i].content[ino];
    || text == []
    || (ino in run[0].content && text == run[0].content[ino])
    || exists j: nat, p: ProcId :: j < i && WroteAt(run, j, p, ino, text)
  }

  lemma {:induction false} TextIsFromSomeone(run: seq<State>, i: nat, ino: Ino)
    requires IsRun(run) && i < |run| && ino in run[i].content
    ensures FromSomeone(run, i, ino)
  {
    if i > 0 {
      var s, t := run[i - 1], run[i];
      assert Next(run[i - 1], run[i - 1 + 1]);
      var p, a :| StepBy(s, p, a, t);
      if ino in s.content && t.content[ino] == s.content[ino] {
        TextIsFromSomeone(run, i - 1, ino);
      } else if t.content[ino] != [] {
        WriterIsRewriting(s, p, a, ino);
        assert WroteAt(run, i - 1, p, ino, t.content[ino]);
      }
    }
  }

  /** The only step that puts anything into a file. */
  lemma WriterIsRewriting(s: State, p: ProcId, a: Action, ino: Ino)
    requires Enabled(s, p, a) && ino in Apply(s, p, a).content && Apply(s, p, a).content[ino] != []
    requires !(ino in s.content && Apply(s, p, a).content[ino] == s.content[ino])
    ensures s.procs[p].pc == Rewriting(ino) && Apply(s, p, a).content[ino] == Decimal.Digits(s.procs[p].pid)
  {
  }

  /** flopen goes round at most once per unlink that other processes made during the call,
      plus once per stat() that failed for a reason of its own. */
  lemma RetriesBounded(run: seq<State>, i: nat, p: ProcId)
    requires IsRun(run) && i < |run| && p in run[i].procs && InFlopen(run[i].procs[p].pc)
    ensures var x := run[i].procs[p];
      && x.start <= |run[i].unlinks|
      && p !in run[i].unlinks[x.start..]
      && x.retries <= |run[i].unlinks[x.start..]| + x.faults
  {
    RunInv(run, i);
    assert ProcOk(run[i], p);
  }

  /** A process never unlinks more often than it acquired the file. */
  lemma OneUnlinkPerAcquisition(run: seq<State>, i: nat, p: ProcId)
    requires IsRun(run) && i < |run| && p in run[i].procs
    ensures var x := run[i].procs[p]; x.removed + (if Acquired(x.pc) then 1 else 0) <= x.acquired
  {
    RunInv(run, i);
    assert ProcOk(run[i], p);
  }

  /** pidfile_open goes looking for another owner only when another process does hold the lock. */
  lemma BusyMeansHeldElsewhere(run: seq<State>, i: nat, p: ProcId)
    requires IsRun(run) && i < |run| && p in run[i].procs && run[i].procs[p].pc.Opened?
    requires Apply(run[i], p, Fail).procs[p].pc.busy
    ensures var ino := run[i].procs[p].pc.ino;
      && ino in run[i].lock
      && var q := run[i].lock[ino]; q != p && q in run[i].procs && LockOf(run[i].procs[q].pc) == Some(ino)
  {
    RunInv(run, i);
    assert ProcOk(run[i], p);
  }

  /** In step j, p's flock() was refused because of q's lock, and p has not begun another call since. */
  ghost predicate RefusedAt(run: seq<State>, j: nat, i: nat, p: ProcId, q: ProcId) {
    && j < i < |run| && p in run[j].procs && q in run[j].procs && q != p
    && run[j].procs[p].pc.Opened?
    && run[j].procs[p].pc.ino in run[j].lock && run[j].lock[run[j].procs[p].pc.ino] == q
    && LockOf(run[j].procs[q].pc) == Some(run[j].procs[p].pc.ino)
    && forall k :: j < k <= i ==> p in run[k].procs && AfterRefusal(run[k].procs[p].pc)
  }

  predicate AfterRefusal(pc: Pc) { pc.Failing? || pc.Probing? || pc.Probed? || pc.Idle? }

  /** The step that refuses p is its flock(), while another process has the lock. */
  lemma RefusalStep(s: State, p: ProcId, a: Action)
    requires Inv(s) && Enabled(s, p, a) && Apply(s, p, a).procs[p].refusedBy.Some?
    ensures var x, y := s.procs[p], Apply(s, p, a).procs[p];
      if a == Fail && x.pc.Opened? then RefusesNow(s, p, y)
      else y.refusedBy == x.refusedBy && (AfterRefusal(x.pc) ==> AfterRefusal(y.pc))
  {
    assert ProcOk(s, p);
  }

  ghost predicate RefusesNow(s: State, p: ProcId, y: Proc)
    requires p in s.procs
  {
    && y.refusedBy.Some? && AfterRefusal(y.pc) && y.refusedBy.value != p && y.refusedBy.value in s.procs
    && s.procs[p].pc.Opened? && s.procs[p].pc.ino in s.lock && s.lock[s.procs[p].pc.ino] == y.refusedBy.value
    && LockOf(s.procs[y.refusedBy.value].pc) == Some(s.procs[p].pc.ino)
  }

  lemma NextRefusal(s: State, t: State, p: ProcId)
    requires Inv(s) && Next(s, t) && p in t.procs && t.procs[p].refusedBy.Some?
    ensures p in s.procs
    ensures var x, y := s.procs[p], t.procs[p];
      RefusesNow(s, p, y) || (y.refusedBy == x.refusedBy && (AfterRefusal(x.pc) ==> AfterRefusal(y.pc)))
  {
    var q, a :| StepBy(s, q, a, t);
    if q == p { RefusalStep(s, p, a); }
  }

  /** The record of a refusal is true: that process had the lock on the very file. */
  lemma {:induction false} RefusalIsRecorded(run: seq<State>, i: nat, p: ProcId) returns (j: nat)
    requires IsRun(run) && i < |run| && p in run[i].procs && run[i].procs[p].refusedBy.Some?
    ensures RefusedAt(run, j, i, p, run[i].procs[p].refusedBy.value)
    decreases i
  {
    assert i > 0;
    RunInv(run, i - 1);
    assert Next(run[i - 1], run[i - 1 + 1]);
    NextRefusal(run[i - 1], run[i], p);
    if RefusesNow(run[i - 1], p, run[i].procs[p]) {
      j := i - 1;
    } else {
      j := RefusalIsRecorded(run, i - 1, p);
      RefusedStill(run, j, i - 1, p, run[i].procs[p].refusedBy.value);
    }
  }

  lemma RefusedStill(run: seq<State>, j: nat, i: nat, p: ProcId, q: ProcId)
    requires i + 1 < |run| && RefusedAt(run, j, i, p, q) && p in run[i + 1].procs
    requires AfterRefusal(run[i].procs[p].pc) ==> AfterRefusal(run[i + 1].procs[p].pc)
    ensures RefusedAt(run, j, i + 1, p, q)
  {
    assert AfterRefusal(run[i].procs[p].pc);
  }

  /** pidfile_read() finds the file gone exactly if nothing has its name; any other failure tells nothing. */
  lemma MissingMeansGone(s: State, p: ProcId)
    requires p in s.procs && (s.procs[p].pc.Probing? || s.procs[p].pc.Probed?)
    ensures Enabled(s, p, Fail)
    ensures Apply(s, p, Fail).procs[p].probe == if s.procs[p].pc.Probing? && s.path == None then Missing else Unknown
  {
  }

  /** What the text of another's file comes to: its first 15 bytes have to be a number, and nothing else. */
  lemma ProbeIs(text: seq<byte>)
    ensures var buf := if |text| <= 15 then text else text[..15];
      && (ProbeOf(text) == Empty <==> text == [])
      && (ProbeOf(text).Running? <==> Decimal.IsNumber(buf))
      && (ProbeOf(text) == Garbage <==> text != [] && !Decimal.IsNumber(buf))
  {
    var buf := if |text| <= 15 then text else text[..15];
    if NUL in buf {
      if Decimal.IsNumber(buf) { Decimal.NumberHasNoNul(buf); }
    } else if buf != [] {
      CStrWithoutNul(buf);
      Decimal.StrtolConsumesIff(buf);
    }
  }

  /** "42" is a pid; "7x" is none. */
  lemma KnownProbes()
    ensures ProbeOf(Ascii("42")) == Running(42) && ProbeOf(Ascii("7x")) == Garbage && ProbeOf([]) == Empty
  {
    assert Ascii("42") == [52, 50] && Ascii("7x") == [55, 120];
    assert Decimal.Digits(42) == [52, 50];
    ProbeOfDigits(42);
    ProbeIs([55, 120]);
  }

  lemma ProbeOfDigits(n: nat)
    requires |Decimal.Digits(n)| <= 15
    ensures ProbeOf(Decimal.Digits(n)) == Running(n)
  {
    Decimal.StrtolOfDigits(n);
    CStrWithoutNul(Decimal.Digits(n));
  }

  /** What a refused process learns of the process q that holds the lock on the file it reads: q's pid,
      or that the file is empty, once q has truncated it; and until then whatever an earlier owner has
      left there. So the pid is q's own exactly if q has truncated the file and the file is not empty, or
      if what is left there happens to read as that number. */
  lemma ProbeFindsTheHolder(run: seq<State>, i: nat, p: ProcId, q: ProcId)
    requires IsRun(run) && i < |run| && p in run[i].procs && q in run[i].procs
    requires run[i].procs[p].pc.Probed? && LockOf(run[i].procs[q].pc) == Some(run[i].procs[p].pc.ino)
    requires |Decimal.Digits(run[i].procs[q].pid)| <= 15
    ensures run[i].procs[p].pc.ino in run[i].content
    ensures var text, x := run[i].content[run[i].procs[p].pc.ino], run[i].procs[q];
      var probe := Apply(run[i], p, Go).procs[p].probe;
      && (PastTruncation(x.pc) ==> probe == if text == [] then Empty else Running(x.pid))
      && (x.pc.Truncated? || x.pc.Rewriting? ==> probe == Empty)
      && (x.pc.Owner? ==> probe == if x.pc.wrote then Running(x.pid) else Empty)
      && (!PastTruncation(x.pc) ==> probe == ProbeOf(text) && FromSomeone(run, i, run[i].procs[p].pc.ino))
      && (probe == Running(x.pid) <==> if PastTruncation(x.pc) then text != [] else ProbeOf(text) == Running(x.pid))
  {
    var ino := run[i].procs[p].pc.ino;
    RunInv(run, i);
    assert ProcOk(run[i], p);
    TextIsFromSomeone(run, i, ino);
    ProbeOfDigits(run[i].procs[q].pid);
    if PastTruncation(run[i].procs[q].pc) {
      OwnerText(run, i, q);
    }
  }

  // ---- A stale pid -----------------------------------------------------------------

  function Newcomer(pid: nat): Proc { Proc(pid, Idle, Unknown, 0, 0, 0, 0, 0, 0, None) }

  /** A pidfile that a process 7 has left behind, and two processes that come for it. */
  function LeftBehind(): State {
    State(Some(5), map[5 := [55]], map[], map[0 := Newcomer(1), 1 := Newcomer(2)], [])
  }

  /** Both processes, the file, and the lock if process 1 has it. */
  predicate Scene(s: State, pc0: Pc, pc1: Pc, locked: bool) {
    && s.path == Some(5) && s.content == map[5 := [55]] && s.lock == (if locked then map[5 := 1] else map[])
    && s.procs.Keys == {0, 1} && s.procs[0].pc == pc0 && s.procs[1].pc == pc1 && s.procs[1].pid == 2
  }

  lemma Extend(run: seq<State>, p: ProcId, a: Action) returns (more: seq<State>)
    requires IsRun(run) && Enabled(run[|run| - 1], p, a)
    ensures IsRun(more) && more == run + [Apply(run[|run| - 1], p, a)]
  {
    var t := Apply(run[|run| - 1], p, a);
    more := run + [t];
    assert StepBy(run[|run| - 1], p, a, t);
    forall i | 0 <= i < |more| - 1 ensures Next(more[i], more[i + 1]) {
      if i < |run| - 1 { assert Next(run[i], run[i + 1]); }
    }
  }

  /** Process 1 has the lock and has found its file in place, but has not truncated it yet. */
  lemma FirstComes() returns (run: seq<State>)
    ensures IsRun(run) && run[0] == LeftBehind() && Scene(run[|run| - 1], Idle, Matched(5), true)
  {
    run := [LeftBehind()];
    run := Extend(run, 1, Call);
    assert Scene(run[|run| - 1], Idle, Opening, false);
    run := Extend(run, 1, Go);
    assert Scene(run[|run| - 1], Idle, Opened(5), false);
    run := Extend(run, 1, Go);
    assert Scene(run[|run| - 1], Idle, Locked(5), true);
    run := Extend(run, 1, Go);
    assert Scene(run[|run| - 1], Idle, Stated(5, Some(5)), true);
    run := Extend(run, 1, Go);
  }

  /** Process 0 does not get the lock. */
  lemma SecondIsRefused() returns (run: seq<State>)
    ensures IsRun(run) && run[0] == LeftBehind() && Scene(run[|run| - 1], Probing(0), Matched(5), true)
  {
    run := FirstComes();
    run := Extend(run, 0, Call);
    assert Scene(run[|run| - 1], Opening, Matched(5), true);
    run := Extend(run, 0, Go);
    assert Scene(run[|run| - 1], Opened(5), Matched(5), true);
    run := Extend(run, 0, Fail);
    assert Scene(run[|run| - 1], Failing(5, true, false), Matched(5), true);
    run := Extend(run, 0, Go);
  }

  /** A run in which process 0 is refused by process 1, whose pid is 2, and is told of process 7. */
  lemma StalePidIsReported() returns (run: seq<State>)
    ensures IsRun(run) && run[0] == LeftBehind()
    ensures var s := run[|run| - 1];
      Scene(s, Idle, Matched(5), true) && s.procs[0].probe == Running(7)
  {
    run := SecondIsRefused();
    run := Extend(run, 0, Go);
    assert Scene(run[|run| - 1], Probed(5, 0), Matched(5), true);
    assert Decimal.Digits(7) == [55];
    ProbeOfDigits(7);
    run := Extend(run, 0, Go);
  }

  // ---- The code ------------------------------------------------------------------

  /** What a handle is worth: the path names the locked file, which holds nothing or the pid. */
  ghost predicate OwnsIn(s: State, p: ProcId) {
    && p in s.procs && s.procs[p].pc.Owner?
    && var ino := s.procs[p].pc.ino;
       && s.path == Some(ino)
       && ino in s.lock && s.lock[ino] == p
       && ino in s.content
       && s.content[ino] == if s.procs[p].pc.wrote then Decimal.Digits(s.procs[p].pid) else []
  }

  lemma OwnerOwns(s: State, p: ProcId)
    requires Inv(s) && p in s.procs && s.procs[p].pc.Owner?
    ensures OwnsIn(s, p)
  {
    assert ProcOk(s, p);
  }

  datatype OpenResult = Handle | Refused(probe: Probe)

  /** What the calls of pidfile_write() return: fstat() in pidfile_verify(), ftruncate(), pwrite(), and if
      one of the latter failed, fstat() once more, and unlink(). */
  datatype Writing = Writing(fstat: bool, ftruncate: bool, pwrite: bool, verify: bool, unlink: bool)

  /** A process that has given up its file, if the handle verified once more. */
  function GivenUp(x: Proc, verify: bool, unlink: bool): Proc {
    if verify then x.(pc := Broken, removed := x.removed + if unlink then 1 else 0)
    else if x.pc.Rewriting? then x.(pc := Owner(x.pc.ino, false))
    else x
  }

  /** A process after pidfile_write(). */
  function Written(x: Proc, k: Writing): Proc {
    if !x.pc.Owner? || !k.fstat then x
    else if k.ftruncate && k.pwrite then x.(pc := Owner(x.pc.ino, true))
    else if k.verify then x.(pc := Broken, removed := x.removed + if k.unlink then 1 else 0)
    else if k.ftruncate then x.(pc := Owner(x.pc.ino, false))
    else x
  }

  /**
   The machine the code runs on. The code sees only what its system calls return; before
   every call the other processes take any number of steps. `patience` is how many unlinks
   they, and unexplained stat() failures, still have in them: any number, but a finite one.
   */
  class Machine {
    var s: State
    var patience: nat

    ghost predicate Valid()
      reads this
    {
      Inv(s)
    }

    constructor (s: State, patience: nat)
      requires Init(s)
      ensures Valid() && this.s == s && this.patience == patience
    {
      this.s, this.patience := s, patience;
    }

    method Do(p: ProcId, a: Action)
      requires Valid() && Enabled(s, p, a)
      modifies this`s
      ensures Valid() && s == Apply(old(s), p, a)
    {
      StepKeepsInv(s, p, a);
      s := Apply(s, p, a);
    }

    /** What the other processes cannot change. */
    twostate predicate Apart(me: ProcId)
      reads this
    {
      && Valid() && me in s.procs && me in old(s.procs) && s.procs[me] == old(s.procs[me])
      && patience + |s.unlinks| == old(patience + |s.unlinks|) && |s.unlinks| >= |old(s.unlinks)|
    }

    /** A step of q, if it can make that step, and if it still may unlink when that is what it is. */
    method OtherMoves(me: ProcId, q: ProcId, a: Action)
      requires Valid() && me in s.procs && q != me
      modifies this
      ensures Apart(me)
    {
      if Enabled(s, q, a) {
        StepApart(s, me, q, a);
        var unlinks := EffectOf(s.procs[q], a).Unlinks?;
        if unlinks && patience > 0 {
          patience := patience - 1;
          Do(q, a);
        } else if !unlinks {
          Do(q, a);
        }
      }
    }

    method Interfere(me: ProcId)
      requires Valid() && me in s.procs
      modifies this
      ensures Apart(me)
    {
      var steps: nat := *;
      while steps > 0
        invariant Apart(me)
      {
        var q: ProcId, a: Action := *, *;
        if q != me {
          OtherMoves(me, q, a);
        }
        steps := steps - 1;
      }
    }

    /** me, standing at x, made its call in the state `before` and it left `after`. A call that is not
        faulty succeeds whenever it can. */
    static ghost predicate CallReturned(before: State, me: ProcId, x: Proc, faulty: bool, ok: bool, after: State) {
      && Inv(before) && me in before.procs && before.procs[me] == x
      && StepBy(before, me, if ok then Go else Fail, after)
      && (!faulty ==> (ok <==> Enabled(before, me, Go)))
    }

    /** What every stretch of me's own code keeps: the run goes on, and whatever the others'
        unlinks and the stray stat() failures added to Causes came out of `patience`. */
    twostate predicate Went(me: ProcId)
      reads this
    {
      && Valid()
      && me in s.procs && me in old(s.procs)
      && patience + |s.unlinks| + s.procs[me].faults == old(patience + |s.unlinks| + s.procs[me].faults)
      && s.procs[me].start == old(s.procs[me].start)
      && s.procs[me].pid == old(s.procs[me].pid) && s.procs[me].removed == old(s.procs[me].removed)
      && |s.unlinks| >= |old(s.unlinks)| && s.procs[me].faults >= old(s.procs[me].faults)
    }

    /** The system call that me's pc names, after any interference. */
    method SystemCall(me: ProcId, faulty: bool) returns (ok: bool)
      requires Valid() && me in s.procs
      requires !s.procs[me].pc.Idle? && !s.procs[me].pc.Owner? && !s.procs[me].pc.Broken? && !s.procs[me].pc.Removing?
      modifies this
      ensures Went(me)
      ensures !old(s.procs[me].pc.Opening?) ==> s.procs[me].atOpen == old(s.procs[me].atOpen)
      ensures exists before :: CallReturned(before, me, old(s.procs[me]), faulty, ok, s)
    {
      Interfere(me);
      ghost var before := s;
      var fails: bool := *;
      ok := Enabled(s, me, Go) && !(faulty && fails);
      if !ok && (!Enabled(s, me, Fail) || (s.procs[me].pc.Locked? && patience == 0)) { ok := true; }
      var a := if ok then Go else Fail;
      if !ok && s.procs[me].pc.Locked? { patience := patience - 1; }
      Ledger(s, me, a);
      Do(me, a);
      assert CallReturned(before, me, old(s.procs[me]), faulty, ok, s);
    }

    /** open(path, O_WRONLY | O_CREAT | O_NONBLOCK): the file that is there, or a new one. */
    method Open(me: ProcId, faulty: bool) returns (ok: bool)
      requires Valid() && me in s.procs && s.procs[me].pc.Opening?
      modifies this
      ensures Went(me) && s.procs[me].refusedBy == old(s.procs[me].refusedBy)
      ensures ok ==> s.procs[me].pc.Opened? && s.procs[me].atOpen >= old(Causes0(s, s.procs[me]))
      ensures !ok ==> s.procs[me].pc == Idle && faulty
    {
      Interfere(me);
      var fails: bool := *;
      ok := !(faulty && fails);
      if !ok {
        Do(me, Fail);
      } else if s.path.Some? {
        Do(me, Go);
      } else {
        var ino := FreeInode();
        Do(me, Create(ino));
      }
    }

    /** Any inode number that is neither named nor open. */
    method FreeInode() returns (ino: Ino)
      ensures !Live(s, ino)
    {
      var used := (set q | q in s.procs && Fd(s.procs[q].pc).Some? :: Fd(s.procs[q].pc).value) +
        if s.path.Some? then {s.path.value} else {};
      ino := Fresh(used);
    }

    /** flock(fd, LOCK_EX | LOCK_NB): refused while another process holds the file's lock. */
    method Flock(me: ProcId, faulty: bool) returns (ok: bool)
      requires Valid() && me in s.procs && s.procs[me].pc.Opened?
      modifies this
      ensures Went(me) && s.procs[me].atOpen == old(s.procs[me].atOpen)
      ensures var i := old(s.procs[me].pc.ino); if ok then s.procs[me].pc == Locked(i) else
        s.procs[me].pc.Failing? && s.procs[me].pc.ino == i && !s.procs[me].pc.held
      ensures ok ==> s.procs[me].refusedBy == old(s.procs[me].refusedBy)
      ensures !ok ==> (s.procs[me].pc.busy <==> s.procs[me].refusedBy.Some?) && (faulty || s.procs[me].pc.busy)
    {
      ok := SystemCall(me, faulty);
    }

    /** stat(path): what the path names now, or nothing. */
    method Stat(me: ProcId, faulty: bool)
      requires Valid() && me in s.procs && s.procs[me].pc.Locked?
      modifies this
      ensures Went(me) && s.procs[me].atOpen == old(s.procs[me].atOpen)
      ensures s.procs[me].pc.Stated? && s.procs[me].refusedBy == old(s.procs[me].refusedBy)
    {
      var ok := SystemCall(me, faulty);
    }

    /** fstat(fd) and the comparison. When the path no longer names the open file, something
        happened since the open(). */
    method Fstat(me: ProcId, faulty: bool) returns (ok: bool)
      requires Valid() && me in s.procs && s.procs[me].pc.Stated?
      modifies this
      ensures Went(me) && s.procs[me].atOpen == old(s.procs[me].atOpen)
      ensures s.procs[me].refusedBy == old(s.procs[me].refusedBy)
      ensures ok ==>
        s.procs[me].pc.Matched? || (s.procs[me].pc.Retrying? && s.procs[me].atOpen < Causes(s, s.procs[me]))
      ensures !ok ==> s.procs[me].pc.Failing? && !s.procs[me].pc.busy && faulty
    {
      ok := SystemCall(me, faulty);
      assert ProcOk(s, me);
    }

    /** ftruncate(fd, 0). */
    method Truncate(me: ProcId, faulty: bool) returns (ok: bool)
      requires Valid() && me in s.procs && s.procs[me].pc.Matched?
      modifies this
      ensures Went(me) && s.procs[me].refusedBy == old(s.procs[me].refusedBy)
      ensures ok ==> s.procs[me].pc.Truncated?
      ensures !ok ==> s.procs[me].pc.Failing? && !s.procs[me].pc.busy && faulty
    {
      ok := SystemCall(me, faulty);
    }

    /** close(fd), whatever it returns. */
    method Close(me: ProcId)
      requires Valid() && me in s.procs &&
        (s.procs[me].pc.Retrying? || s.procs[me].pc.Failing? || s.procs[me].pc.Removed?)
      modifies this
      ensures Went(me) && s.procs[me].refusedBy == old(s.procs[me].refusedBy)
      ensures s.procs[me].pc == match old(s.procs[me].pc)
        case Retrying(_) => Opening
        case Failing(_, busy, _) => if busy then Probing(0) else Idle
        case Removed(_, keep) => if keep then Broken else Idle
        case pc => pc
      ensures old(s.procs[me].pc.Removed?) ==> s.procs[me] == old(s.procs[me]).(pc := s.procs[me].pc)
    {
      var ok := SystemCall(me, true);
    }

    /** Where flopen() leaves a process that does not go on: with the file, or refused by the process that
        had the lock, or, when calls may fail, with neither. */
    ghost predicate Settled(me: ProcId, faulty: bool, ok: bool, good: bool)
      reads this
    {
      me in s.procs &&
      var x := s.procs[me];
      if ok then good && x.refusedBy.None?
      else x.pc == (if x.refusedBy.Some? then Probing(0) else Idle) && (faulty || x.refusedBy.Some?)
    }

    /** flopen's loop after the open(): the lock, and whether it is the path's file that is locked.
        `again` only if something happened since the open(). */
    method Secure(me: ProcId, faulty: bool) returns (again: bool, ok: bool)
      requires Valid() && me in s.procs && s.procs[me].pc.Opened? && s.procs[me].refusedBy.None?
      modifies this
      ensures Went(me)
      ensures again ==> s.procs[me].pc.Opening? && old(s.procs[me].atOpen) < Causes(s, s.procs[me])
      ensures again ==> s.procs[me].refusedBy.None?
      ensures !again ==> Settled(me, faulty, ok, s.procs[me].pc.Matched?)
    {
      again := false;
      ok := Flock(me, faulty);
      if ok {
        Stat(me, faulty);
        ok := Fstat(me, faulty);
      }
      if !ok {
        Close(me);
      } else if s.procs[me].pc.Retrying? {
        again := true;
        Close(me);
      }
    }

    /** One round of flopen's loop. */
    method Round(me: ProcId, faulty: bool) returns (again: bool, ok: bool)
      requires Valid() && me in s.procs && s.procs[me].pc.Opening? && s.procs[me].refusedBy.None?
      modifies this
      ensures Went(me)
      ensures again ==> s.procs[me].pc.Opening? && patience < old(patience) && s.procs[me].refusedBy.None?
      ensures !again ==> Settled(me, faulty, ok, s.procs[me].pc.Truncated?)
    {
      again := false;
      assert ProcOk(s, me);
      ok := Open(me, faulty);
      if !ok { return; }
      again, ok := Secure(me, faulty);
      if !again && ok {
        ok := Truncate(me, faulty);
        if !ok {
          Close(me);
        }
      }
    }

    /** flopen() with O_CREAT, O_TRUNC and O_NONBLOCK. It comes back, however the other
        processes interfere, because each round uses up some of their patience; and unless calls may
        fail, it comes back without the file only if another process had the lock. */
    method Flopen(me: ProcId, faulty: bool) returns (ok: bool)
      requires Valid() && me in s.procs && s.procs[me].pc.Opening? && s.procs[me].refusedBy.None?
      modifies this
      ensures Went(me) && Settled(me, faulty, ok, s.procs[me].pc.Truncated?)
    {
      var again: bool;
      again, ok := Round(me, faulty);
      while again
        invariant Went(me)
        invariant again ==> s.procs[me].pc.Opening? && s.procs[me].refusedBy.None?
        invariant !again ==> Settled(me, faulty, ok, s.procs[me].pc.Truncated?)
        decreases again, patience
      {
        again, ok := Round(me, faulty);
      }
    }

    /** pidfile_read(), up to four times while the file is empty. */
    method PidfileRead(me: ProcId, faulty: bool) returns (r: Probe, ghost count: nat)
      requires Valid() && me in s.procs && s.procs[me].pc == Probing(0)
      modifies this
      ensures Valid() && me in s.procs && s.procs[me].pc.Idle? && r == s.procs[me].probe
      ensures s.procs[me].refusedBy == old(s.procs[me].refusedBy)
      ensures 1 <= count <= 4 && (r.Empty? ==> count == 4)
      ensures r.Unknown? ==> faulty
    {
      count := 0;
      while s.procs[me].pc.Probing?
        invariant Valid() && me in s.procs && count <= 4
        invariant s.procs[me].refusedBy == old(s.procs[me].refusedBy)
        invariant s.procs[me].pc == if s.procs[me].pc.Probing? then Probing(count) else Idle
        invariant s.procs[me].pc.Probing? ==> count < 4
        invariant s.procs[me].pc.Idle? ==> 1 <= count && (s.procs[me].probe.Empty? ==> count == 4)
        invariant s.procs[me].pc.Idle? && s.procs[me].probe.Unknown? ==> faulty
        decreases 4 - count
      {
        ReadOnce(me, faulty, count);
        count := count + 1;
      }
      r := s.procs[me].probe;
    }

    /** One try. */
    method ReadOnce(me: ProcId, faulty: bool, ghost count: nat)
      requires Valid() && me in s.procs && s.procs[me].pc == Probing(count) && count < 4
      modifies this
      ensures Valid() && me in s.procs && s.procs[me].refusedBy == old(s.procs[me].refusedBy)
      ensures s.procs[me].pc == Idle || (s.procs[me].pc == Probing(count + 1) && count < 3)
      ensures s.procs[me].pc == Idle && s.procs[me].probe.Empty? ==> count == 3
      ensures s.procs[me].pc == Idle && s.procs[me].probe.Unknown? ==> faulty
    {
      var ok := SystemCall(me, faulty);               // open()
      if ok {
        ReadText(me, faulty, count);
      }
    }

    /** read() and close(). */
    method ReadText(me: ProcId, faulty: bool, ghost count: nat)
      requires Valid() && me in s.procs && s.procs[me].pc.Probed? && s.procs[me].pc.tries == count < 4
      modifies this
      ensures Valid() && me in s.procs && s.procs[me].refusedBy == old(s.procs[me].refusedBy)
      ensures s.procs[me].pc == Idle || (s.procs[me].pc == Probing(count + 1) && count < 3)
      ensures s.procs[me].pc == Idle && s.procs[me].probe.Empty? ==> count == 3
      ensures s.procs[me].pc == Idle && s.procs[me].probe.Unknown? ==> faulty
    {
      var ok := SystemCall(me, faulty);
    }

    /** unlink(path). */
    method Unlink(me: ProcId, works: bool)
      requires Valid() && me in s.procs && s.procs[me].pc.Removing?
      modifies this
      ensures Valid() && me in s.procs
      ensures s.procs[me] == Unlinked(old(s.procs[me]), works)
      ensures works ==> s.path == None
    {
      Interfere(me);
      UnlinkStep(s, me, works);
      Do(me, if works then Go else Fail);
    }

    /** The end of _pidfile_remove(): unlink, then close whatever unlink said. Both have to work for
        success; a close() that fails has let go of the descriptor all the same. */
    method UnlinkAndClose(me: ProcId, unlink: bool, close: bool) returns (ok: bool)
      requires Valid() && me in s.procs && s.procs[me].pc.Removing?
      modifies this
      ensures Valid() && me in s.procs
      ensures s.procs[me] == old(s.procs[me]).(
        pc := if old(s.procs[me].pc.keep) then Broken else Idle,
        removed := old(s.procs[me].removed) + if unlink then 1 else 0)
      ensures ok == (unlink && close)
    {
      Unlink(me, unlink);
      Close(me);
      ok := unlink && close;
    }

    /** pidfile_open(): the handle of a locked, empty pidfile, or what is known of its owner. Unless calls
        may fail, it comes back without a handle exactly if another process had the lock. */
    method PidfileOpen(me: ProcId, faulty: bool) returns (r: OpenResult)
      requires Valid() && me in s.procs && s.procs[me].pc.Idle?
      modifies this
      ensures Valid() && me in s.procs
      ensures r.Handle? ==> Owns(me) && !s.procs[me].pc.wrote && s.procs[me].refusedBy.None?
      ensures r.Refused? ==> s.procs[me].pc.Idle? && r.probe == s.procs[me].probe
      ensures r.Refused? ==> faulty || (s.procs[me].refusedBy.Some? && !r.probe.Unknown?)
    {
      Do(me, Call);
      var ok := Flopen(me, faulty);
      if !ok {
        if s.procs[me].pc.Probing? {
          var probe, count := PidfileRead(me, faulty);
        }
        return Refused(s.procs[me].probe);
      }
      ok := Remember(me, faulty);
      return if ok then Handle else Refused(s.procs[me].probe);
    }

    /** fstat(fd): the handle remembers the file. */
    method Remember(me: ProcId, faulty: bool) returns (ok: bool)
      requires Valid() && me in s.procs && s.procs[me].pc.Truncated?
      modifies this
      ensures Valid() && me in s.procs && s.procs[me].refusedBy == old(s.procs[me].refusedBy)
      ensures if ok then Owns(me) && !s.procs[me].pc.wrote else s.procs[me].pc.Idle? && faulty
    {
      ok := SystemCall(me, faulty);
      if ok {
        OwnerOwns(s, me);
      } else {
        var unlink, close: bool := *, *;
        var gone := UnlinkAndClose(me, unlink, close);
      }
    }

    ghost predicate Owns(me: ProcId)
      reads this
    {
      OwnsIn(s, me)
    }

    /** pidfile_verify(): a broken handle never passes, and any other does if fstat() works. */
    method PidfileVerify(me: ProcId, fstat: bool) returns (ok: bool)
      requires Valid() && me in s.procs && (s.procs[me].pc.Owner? || s.procs[me].pc.Broken?)
      modifies this
      ensures Valid() && me in s.procs && s.procs[me] == old(s.procs[me])
      ensures ok <==> old(s.procs[me].pc.Owner?) && fstat
      ensures ok ==> Owns(me)
    {
      Interfere(me);
      ok := s.procs[me].pc.Owner? && fstat;
      if ok {
        OwnerOwns(s, me);
      }
    }

    /** pidfile_write(): the pid, replacing whatever the file held; it succeeds exactly if the handle is
        whole and every call works. A failure removes the file and breaks the handle, unless that fails
        too: then the handle stays, with its file as it was or empty. */
    method PidfileWrite(me: ProcId, k: Writing) returns (ok: bool)
      requires Valid() && me in s.procs && (s.procs[me].pc.Owner? || s.procs[me].pc.Broken?)
      modifies this
      ensures Valid() && me in s.procs
      ensures ok <==> old(s.procs[me].pc.Owner?) && k.fstat && k.ftruncate && k.pwrite
      ensures s.procs[me] == Written(old(s.procs[me]), k)
      ensures s.procs[me].pc.Owner? ==> Owns(me)
      ensures ok ==> s.procs[me].pc.Owner? && s.content[s.procs[me].pc.ino] == Decimal.Digits(s.procs[me].pid)
    {
      ok := PidfileVerify(me, k.fstat);
      if ok {
        ok := TruncateAgain(me, k.ftruncate);
        if ok {
          ok := WritePid(me, k.pwrite);
        }
        if !ok {
          GiveUp(me, k.verify, k.unlink);
        }
      }
      if s.procs[me].pc.Owner? {
        OwnerOwns(s, me);
      }
    }

    /** ftruncate(fd, 0). */
    method TruncateAgain(me: ProcId, works: bool) returns (ok: bool)
      requires Valid() && me in s.procs && s.procs[me].pc.Owner?
      modifies this
      ensures Valid() && me in s.procs && ok == works
      ensures s.procs[me] ==
        old(s.procs[me]).(pc := if ok then Rewriting(old(s.procs[me].pc.ino)) else old(s.procs[me].pc))
    {
      Interfere(me);
      ok := works;
      if ok {
        Do(me, Write);
      }
    }

    /** pwrite() of the pid, whole or not at all. */
    method WritePid(me: ProcId, works: bool) returns (ok: bool)
      requires Valid() && me in s.procs && s.procs[me].pc.Rewriting?
      modifies this
      ensures Valid() && me in s.procs && ok == works
      ensures s.procs[me] ==
        old(s.procs[me]).(pc := if ok then Owner(old(s.procs[me].pc.ino), true) else old(s.procs[me].pc))
      ensures ok ==> Owns(me)
    {
      Interfere(me);
      ok := works;
      if ok {
        Do(me, Go);
        OwnerOwns(s, me);
      }
    }

    /** _pidfile_remove(pfh, 0): the handle is verified once more before the file is removed. A broken
        handle is one whose descriptor is closed; its file is gone if unlink() worked. */
    method GiveUp(me: ProcId, verify: bool, unlink: bool)
      requires Valid() && me in s.procs && (s.procs[me].pc.Owner? || s.procs[me].pc.Rewriting?)
      modifies this
      ensures Valid() && me in s.procs && s.procs[me] == GivenUp(old(s.procs[me]), verify, unlink)
      ensures s.procs[me].pc.Owner? ==> Owns(me)
    {
      Interfere(me);
      if verify {
        Do(me, Fail);
        var close: bool := *;
        var gone := UnlinkAndClose(me, unlink, close);
      } else if s.procs[me].pc.Rewriting? {
        Do(me, Balk);
      }
      if s.procs[me].pc.Owner? {
        OwnerOwns(s, me);
      }
    }

    /** pidfile_remove(): true exactly if the handle is whole and every call works; then this very call
        took the process's own file away. The handle is freed unless it does not verify; the file is
        gone if unlink() worked. */
    method PidfileRemove(me: ProcId, fstat: bool, unlink: bool, close: bool) returns (ok: bool)
      requires Valid() && me in s.procs && (s.procs[me].pc.Owner? || s.procs[me].pc.Broken?)
      modifies this
      ensures Valid() && me in s.procs
      ensures ok <==> old(s.procs[me].pc.Owner?) && fstat && unlink && close
      ensures s.procs[me] == var x := old(s.procs[me]);
        if x.pc.Owner? && fstat then x.(pc := Idle, removed := x.removed + if unlink then 1 else 0) else x
    {
      ok := PidfileVerify(me, fstat);
      if !ok { return; }
      Do(me, Remove);
      ok := UnlinkAndClose(me, unlink, close);
    }

    /** close(fd) of a handle. */
    method CloseHandle(me: ProcId)
      requires Valid() && me in s.procs && s.procs[me].pc.Owner?
      modifies this
      ensures Valid() && me in s.procs && s.procs[me] == old(s.procs[me]).(pc := Idle)
      ensures s.path == Some(old(s.procs[me].pc.ino)) && s.path.value !in s.lock
    {
      Interfere(me);
      OwnerOwns(s, me);
      Do(me, Release);
    }

    /** pidfile_close(): lets go of the lock and leaves the file where it is. A close() that fails is
        reported, but the descriptor and the handle are gone all the same. */
    method PidfileClose(me: ProcId, fstat: bool, close: bool) returns (ok: bool)
      requires Valid() && me in s.procs && (s.procs[me].pc.Owner? || s.procs[me].pc.Broken?)
      modifies this
      ensures Valid() && me in s.procs
      ensures ok <==> old(s.procs[me].pc.Owner?) && fstat && close
      ensures if old(s.procs[me].pc.Owner?) && fstat
        then s.procs[me] == old(s.procs[me]).(pc := Idle) &&
          s.path == Some(old(s.procs[me].pc.ino)) && s.path.value !in s.lock
        else s.procs[me] == old(s.procs[me])
    {
      ok := PidfileVerify(me, fstat);
      if ok {
        CloseHandle(me);
        ok := close;
      }
    }
  }
}
