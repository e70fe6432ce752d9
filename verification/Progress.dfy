/**
 Who waits for whom: the agent's threads, its three plugins with a callback (logger, curl,
 vadmin), and the read-write lock on the push URL.

 What a thread still has to do is a script of calls and lock operations. A call names how many
 log messages the plugin's callback will send before it answers: the logger's callback sends
 none, and the callbacks of curl and vadmin call nobody but the logger. Each plugin serves one
 call at a time, in whatever order.
 */
module Progress {

  datatype Plugin = Logger | Curl | Vadmin

  datatype Instr =
    | Ask(plugin: Plugin, logs: nat)
    | ReadLock
    | WriteLock
    | Unlock

  datatype Stage =
    | Running
    | Queued                 // request written, not taken up yet
    | Served(logs: nat)      // in the callback, `logs` log calls to go
    | LogQueued(logs: nat)   // the callback's own call to the logger is queued,
    | LogServed(logs: nat)   // ... or being served

  datatype Lock = Free | Reader | Writer

  /** Unless the thread is Running, the script's head is the call it is in. */
  datatype Thread = Thread(script: seq<Instr>, stage: Stage, held: Lock)

  type State = seq<Thread>

  // ---- Scripts --------------------------------------------------------------------

  /** Locks are taken one at a time and given back before the script ends. */
  predicate WellFormed(script: seq<Instr>, held: Lock) {
    if script == [] then held.Free?
    else match script[0]
      case Ask(p, logs) => (p.Logger? ==> logs == 0) && WellFormed(script[1..], held)
      case ReadLock => held.Free? && WellFormed(script[1..], Reader)
      case WriteLock => held.Free? && WellFormed(script[1..], Writer)
      case Unlock => !held.Free? && WellFormed(script[1..], Free)
  }

  /** push_stats(): nothing is pushed without a URL; otherwise check_reopen may log, curl is
      asked under the read lock, and a failure is logged after it. */
  function PushStats(url: bool, reopenFails: bool, curlLogs: nat, curlFails: bool): seq<Instr> {
    [ReadLock]
    + (if url && reopenFails then [Ask(Logger, 0)] else [])
    + (if url && !reopenFails then [Ask(Curl, curlLogs)] else [])
    + [Unlock]
    + (if url && !reopenFails && curlFails then [Ask(Logger, 0)] else [])
  }

  /** vstat_push_url(): the new URL is logged under the write lock. */
  function PushUrl(): seq<Instr> { [WriteLock, Ask(Logger, 0), Unlock] }

  lemma HandlersWellFormed(url: bool, reopenFails: bool, curlLogs: nat, curlFails: bool)
    ensures WellFormed(PushStats(url, reopenFails, curlLogs, curlFails), Free)
    ensures WellFormed(PushUrl(), Free)
  {
    var log := [Ask(Logger, 0)];
    assert WellFormed(log, Free);
    var tail := [Unlock] + if url && !reopenFails && curlFails then log else [];
    assert WellFormed(tail, Reader) by { assert tail[1..] == [] || tail[1..] == log; }
    var body := if url then [if reopenFails then Ask(Logger, 0) else Ask(Curl, curlLogs)] + tail else tail;
    assert WellFormed(body, Reader) by { if url { assert body[1..] == tail; } }
    var s := PushStats(url, reopenFails, curlLogs, curlFails);
    assert s[1..] == body;
    assert PushUrl()[1..] == [Ask(Logger, 0), Unlock];
    assert PushUrl()[1..][1..] == [Unlock];
  }

  /** The lock that is held once the first k instructions of a script are done. */
  function HeldAfter(script: seq<Instr>, k: nat): Lock
    requires k <= |script|
  {
    if k == 0 then Free
    else match script[k - 1]
      case Ask(_, _) => HeldAfter(script, k - 1)
      case ReadLock => Reader
      case WriteLock => Writer
      case Unlock => Free
  }

  /** The new URL is logged, once and by a writer. */
  lemma PushUrlLocks(k: nat)
    requires k < |PushUrl()|
    ensures PushUrl()[k].Ask? <==> k == 1
    ensures k == 1 ==> PushUrl()[k] == Ask(Logger, 0) && HeldAfter(PushUrl(), k) == Writer
    ensures |PushUrl()| == 3
  {
    assert HeldAfter(PushUrl(), 1) == Writer;
  }

  /** curl is asked exactly if there is a URL and its log is open. */
  lemma PushStatsAsks(url: bool, reopenFails: bool, curlLogs: nat, curlFails: bool)
    ensures var s := PushStats(url, reopenFails, curlLogs, curlFails);
      && (url && !reopenFails <==> Ask(Curl, curlLogs) in s)
      && (url && (reopenFails || curlFails) <==> Ask(Logger, 0) in s)
  {
    var s := PushStats(url, reopenFails, curlLogs, curlFails);
    if url {
      assert s[1] == if reopenFails then Ask(Logger, 0) else Ask(Curl, curlLogs);
      if !reopenFails && curlFails { assert s[3] == Ask(Logger, 0); }
    }
  }

  /** ... and then by a reader; the agent logs that its log is not open as a reader, too, and that curl
      failed with the lock given back. */
  lemma PushStatsLocks(url: bool, reopenFails: bool, curlLogs: nat, curlFails: bool, k: nat)
    requires k < |PushStats(url, reopenFails, curlLogs, curlFails)|
    requires PushStats(url, reopenFails, curlLogs, curlFails)[k].Ask?
    ensures var s := PushStats(url, reopenFails, curlLogs, curlFails);
      && url
      && (if reopenFails then s[k] == Ask(Logger, 0) && HeldAfter(s, k) == Reader
          else if k == 1 then s[k] == Ask(Curl, curlLogs) && HeldAfter(s, k) == Reader
          else s[k] == Ask(Logger, 0) && curlFails && HeldAfter(s, k) == Free)
  {
    var s := PushStats(url, reopenFails, curlLogs, curlFails);
    assert s[0] == ReadLock && HeldAfter(s, 1) == Reader;
    if url {
      assert s[2] == Unlock && HeldAfter(s, 3) == Free;
    }
  }

  // ---- Steps ------------------------------------------------------------------------

  predicate InCall(th: Thread) { !th.stage.Running? }

  predicate Occupies(th: Thread, p: Plugin) {
    th.script != [] && th.script[0].Ask? &&
    match th.stage
    case Running => false
    case Queued => false
    case Served(_) => th.script[0].plugin == p
    case LogQueued(_) => th.script[0].plugin == p
    case LogServed(_) => th.script[0].plugin == p || p == Logger
  }

  predicate Idle(s: State, p: Plugin) {
    forall u :: 0 <= u < |s| ==> !Occupies(s[u], p)
  }

  /** Whether thread t, or the plugin working for it, is not blocked. */
  predicate CanMove(s: State, t: nat) {
    t < |s| && s[t].script != [] &&
    match s[t].stage
    case Running =>
      (match s[t].script[0]
       case Ask(_, _) => true
       case ReadLock => forall u :: 0 <= u < |s| ==> s[u].held != Writer
       case WriteLock => forall u :: 0 <= u < |s| ==> s[u].held == Free
       case Unlock => true)
    case Queued => s[t].script[0].Ask? && Idle(s, s[t].script[0].plugin)
    case Served(_) => true
    case LogQueued(_) => Idle(s, Logger)
    case LogServed(_) => true
  }

  function Moved(th: Thread): Thread
    requires th.script != []
  {
    match th.stage
    case Running =>
      (match th.script[0]
       case Ask(_, _) => th.(stage := Queued)
       case ReadLock => th.(script := th.script[1..], held := Reader)
       case WriteLock => th.(script := th.script[1..], held := Writer)
       case Unlock => th.(script := th.script[1..], held := Free))
    case Queued => th.(stage := Served(if th.script[0].Ask? then th.script[0].logs else 0))
    case Served(logs) =>
      if logs > 0 then th.(stage := LogQueued(logs - 1)) else th.(script := th.script[1..], stage := Running)
    case LogQueued(logs) => th.(stage := LogServed(logs))
    case LogServed(logs) => th.(stage := Served(logs))
  }

  function Move(s: State, t: nat): State
    requires CanMove(s, t)
  {
    s[t := Moved(s[t])]
  }

  /** A thread with nothing left to do starts something new. */
  predicate CanBegin(s: State, t: nat, script: seq<Instr>) {
    t < |s| && s[t].script == [] && WellFormed(script, Free)
  }

  function Begin(s: State, t: nat, script: seq<Instr>): State
    requires CanBegin(s, t, script)
  {
    s[t := s[t].(script := script)]
  }

  // ---- What every reachable state keeps ------------------------------------------------

  predicate ThreadOk(th: Thread) {
    && WellFormed(th.script, th.held)
    && (InCall(th) ==> th.script != [] && th.script[0].Ask?)
    && (th.stage.LogQueued? || th.stage.LogServed? || (th.stage.Served? && th.stage.logs > 0) ==>
          !th.script[0].plugin.Logger?)
  }

  predicate Apart(a: Thread, b: Thread) {
    && (forall p :: !(Occupies(a, p) && Occupies(b, p)))
    && (a.held == Writer ==> b.held == Free)
  }

  ghost predicate Inv(s: State) {
    && (forall t :: 0 <= t < |s| ==> ThreadOk(s[t]))
    && (forall t, u :: 0 <= t < |s| && 0 <= u < |s| && t != u ==> Apart(s[t], s[u]))
  }

  ghost predicate Init(s: State) {
    forall t :: 0 <= t < |s| ==> s[t] == Thread([], Running, Free)
  }

  lemma InitInv(s: State)
    requires Init(s)
    ensures Inv(s)
  {
  }

  /** A plugin serves one call at a time and a writer holds the lock alone, after every step. */
  lemma MoveKeepsInv(s: State, t: nat)
    requires Inv(s) && CanMove(s, t)
    ensures Inv(Move(s, t))
  {
    var s' := Move(s, t);
    assert ThreadOk(s[t]);
    forall u | 0 <= u < |s| && u != t ensures Apart(s'[t], s[u]) && Apart(s[u], s'[t]) {
      assert Apart(s[t], s[u]) && Apart(s[u], s[t]);
    }
  }

  lemma BeginKeepsInv(s: State, t: nat, script: seq<Instr>)
    requires Inv(s) && CanBegin(s, t, script)
    ensures Inv(Begin(s, t, script))
  {
    var s' := Begin(s, t, script);
    assert ThreadOk(s[t]);
    forall u | 0 <= u < |s| && u != t ensures Apart(s'[t], s[u]) && Apart(s[u], s'[t]) {
      assert Apart(s[t], s[u]) && Apart(s[u], s[t]);
    }
  }

  // ---- No deadlock ---------------------------------------------------------------------

  /** While any thread has something left to do, some thread or plugin can move. */
  lemma SomethingMoves(s: State, t: nat) returns (m: nat)
    requires Inv(s) && t < |s| && s[t].script != []
    ensures CanMove(s, m)
  {
    assert forall u :: 0 <= u < |s| ==> ThreadOk(s[u]);
    if u: nat :| u < |s| && (s[u].stage.Served? || s[u].stage.LogServed?) {
      m := u;
    } else if u: nat :| u < |s| && s[u].stage.LogQueued? {
      m := u;
    } else if u: nat :| u < |s| && s[u].stage.Queued? {
      m := u;
    } else if u: nat :| u < |s| && s[u].held != Free {
      assert s[u].script != [];
      m := u;
    } else {
      m := t;
    }
  }

  // ---- No livelock ---------------------------------------------------------------------

  function Cost(i: Instr): nat {
    if i.Ask? then 3 + 3 * i.logs else 1
  }

  function ScriptCost(script: seq<Instr>): nat {
    if script == [] then 0 else Cost(script[0]) + ScriptCost(script[1..])
  }

  function Work(th: Thread): nat {
    if th.script == [] then 0
    else match th.stage
      case Running => ScriptCost(th.script)
      case Queued => ScriptCost(th.script[1..]) + 2 + 3 * (if th.script[0].Ask? then th.script[0].logs else 0)
      case Served(logs) => ScriptCost(th.script[1..]) + 1 + 3 * logs
      case LogQueued(logs) => ScriptCost(th.script[1..]) + 3 + 3 * logs
      case LogServed(logs) => ScriptCost(th.script[1..]) + 2 + 3 * logs
  }

  function TotalWork(s: State): nat {
    if s == [] then 0 else Work(s[0]) + TotalWork(s[1..])
  }

  lemma {:induction false} TotalAfter(s: State, t: nat, th: Thread)
    requires t < |s|
    ensures TotalWork(s[t := th]) + Work(s[t]) == TotalWork(s) + Work(th)
  {
    if t == 0 {
      assert s[t := th][1..] == s[1..];
    } else {
      assert s[t := th][1..] == s[1..][t - 1 := th];
      TotalAfter(s[1..], t - 1, th);
    }
  }

  /** Every step of old work brings its end exactly one step nearer. */
  lemma MoveDoesWork(s: State, t: nat)
    requires Inv(s) && CanMove(s, t)
    ensures TotalWork(Move(s, t)) == TotalWork(s) - 1
  {
    assert ThreadOk(s[t]);
    TotalAfter(s, t, Moved(s[t]));
  }

  lemma {:induction false} NothingLeft(s: State)
    ensures TotalWork(s) == 0 ==> forall t :: 0 <= t < |s| && s[t].stage.Running? ==> s[t].script == []
  {
    if s != [] {
      NothingLeft(s[1..]);
      assert forall t :: 1 <= t < |s| ==> s[t] == s[1..][t - 1];
    }
  }

  /** A schedule of moves of old work, none of them new. */
  ghost predicate IsSchedule(run: seq<State>) {
    && |run| > 0 && Inv(run[0])
    && forall i :: 0 <= i < |run| - 1 ==> exists t :: CanMove(run[i], t) && run[i + 1] == Move(run[i], t)
  }

  lemma {:induction false} ScheduleInv(run: seq<State>, i: nat)
    requires IsSchedule(run) && i < |run|
    ensures Inv(run[i]) && |run[i]| == |run[0]| && TotalWork(run[i]) == TotalWork(run[0]) - i
  {
    if i > 0 {
      ScheduleInv(run, i - 1);
      var t :| CanMove(run[i - 1], t) && run[i - 1 + 1] == Move(run[i - 1], t);
      MoveKeepsInv(run[i - 1], t);
      MoveDoesWork(run[i - 1], t);
    }
  }

  /** However the moves are scheduled: there are never more than TotalWork of them, and when
      there are that many, every call has been answered and every lock granted and given back.
      Before that, some move is possible. */
  lemma EverythingIsAnswered(run: seq<State>)
    requires IsSchedule(run)
    ensures |run| - 1 <= TotalWork(run[0])
    ensures var s := run[|run| - 1];
      |run| - 1 == TotalWork(run[0]) <==> (forall t :: 0 <= t < |s| ==> s[t] == Thread([], Running, Free))
    ensures var s := run[|run| - 1];
      |run| - 1 < TotalWork(run[0]) <==> exists t :: CanMove(s, t)
  {
    var s := run[|run| - 1];
    ScheduleInv(run, |run| - 1);
    assert forall t :: 0 <= t < |s| ==> ThreadOk(s[t]);
    if TotalWork(s) == 0 {
      NothingLeft(s);
      if t: nat :| CanMove(s, t) {
        MoveDoesWork(s, t);
      }
      forall t | 0 <= t < |s| ensures s[t] == Thread([], Running, Free) {
        if s[t].script != [] {
          var m := SomethingMoves(s, t);
          MoveDoesWork(s, m);
        }
      }
    } else {
      var t := Unfinished(s);
      var m := SomethingMoves(s, t);
    }
  }

  lemma {:induction false} Unfinished(s: State) returns (t: nat)
    requires TotalWork(s) > 0
    ensures t < |s| && s[t].script != []
  {
    if Work(s[0]) > 0 {
      t := 0;
    } else {
      t := Unfinished(s[1..]);
      t := t + 1;
    }
  }

  // ---- Who holds the lock meanwhile ---------------------------------------------------------

  /** The thread has done the first k instructions of a script that it began without the lock. */
  predicate Does(th: Thread, script: seq<Instr>, k: nat) {
    k <= |script| && th.script == script[k..] && th.held == HeldAfter(script, k)
  }

  lemma BeginDoes(s: State, t: nat, script: seq<Instr>)
    requires Inv(s) && CanBegin(s, t, script)
    ensures Does(Begin(s, t, script)[t], script, 0)
  {
    assert ThreadOk(s[t]);
  }

  /** A step of its own takes it at most one instruction on; the others' steps leave it alone. */
  lemma MoveDoes(s: State, t: nat, u: nat, script: seq<Instr>, k: nat)
    requires Inv(s) && CanMove(s, u) && t < |s| && Does(s[t], script, k)
    ensures Does(Move(s, u)[t], script, k) || (t == u && Does(Move(s, u)[t], script, k + 1))
  {
    assert ThreadOk(s[t]);
    if t == u { assert script[k..][1..] == script[k + 1..]; }
  }

  /** Readers do not wait for readers, and nobody waits for a lock that is free. */
  lemma ReadersShare(s: State, t: nat)
    requires t < |s| && s[t].script != [] && s[t].stage.Running?
    requires s[t].script[0] == ReadLock && forall u :: 0 <= u < |s| ==> s[u].held in {Free, Reader}
    ensures CanMove(s, t)
  {
  }

  /** While vstat_push_url() logs the new URL, its thread holds the lock and nobody else does. */
  lemma PushUrlIsAlone(s: State, t: nat, u: nat, k: nat)
    requires Inv(s) && t < |s| && Does(s[t], PushUrl(), k) && InCall(s[t])
    requires u < |s| && u != t
    ensures s[t].script[0] == Ask(Logger, 0) && s[t].held == Writer && s[u].held == Free
  {
    assert ThreadOk(s[t]) && Apart(s[t], s[u]);
    PushUrlLocks(k);
  }

  /** While push_stats() asks curl, its thread reads the URL, and nobody changes it. */
  lemma PushStatsReads(s: State, t: nat, u: nat, url: bool, reopenFails: bool, curlLogs: nat, curlFails: bool, k: nat)
    requires Inv(s) && t < |s| && Does(s[t], PushStats(url, reopenFails, curlLogs, curlFails), k) && InCall(s[t])
    requires s[t].script[0].plugin == Curl
    requires u < |s| && u != t
    ensures url && !reopenFails && s[t].held == Reader && s[u].held != Writer
  {
    assert ThreadOk(s[t]) && Apart(s[u], s[t]);
    PushStatsLocks(url, reopenFails, curlLogs, curlFails, k);
  }
}
