/** The connection to Varnish's command line: connecting, the handshake, commands, and what a
    failure does. Descriptors are numbers that the kernel hands out and takes back. */
module Vadmin {

  const CLIS_OK := 200
  const CLIS_AUTH := 107

  /** What the agent does on its sockets, in order; `ok` says whether the call or the answer was good. */
  datatype Event =
    | Connect(fd: nat)
    | Banner(fd: nat, status: int)
    | Login(fd: nat, ok: bool)          // "auth ", the response and a newline, and the answer
    | Ping(fd: nat, ok: bool)
    | Shut(fd: nat)
    | Send(fd: nat, text: string, ok: bool)

  type Log = seq<Event>

  // ---- The protocol, as an automaton ---------------------------------------------------------

  /** Down: no connection. Up: a command may be sent. Amid: its newline is to follow. */
  datatype Phase =
    | Down
    | Greeted(fd: nat)
    | Challenged(fd: nat)
    | Rejected(fd: nat)
    | Trusted(fd: nat)
    | Up(fd: nat)
    | Amid(fd: nat)
    | Bad

  function Move(p: Phase, e: Event): Phase {
    match (p, e)
    case (Down, Connect(fd)) => Greeted(fd)
    case (Greeted(g), Banner(fd, status)) =>
      if fd != g then Bad
      else if status == CLIS_AUTH then Challenged(fd)
      else if status == CLIS_OK then Trusted(fd)
      else Rejected(fd)
    case (Challenged(g), Login(fd, ok)) => if fd != g then Bad else if ok then Trusted(fd) else Down
    case (Challenged(g), Shut(fd)) => if fd == g then Down else Bad
    case (Rejected(g), Shut(fd)) => if fd == g then Down else Bad
    case (Trusted(g), Ping(fd, ok)) => if fd != g then Bad else if ok then Up(fd) else Rejected(fd)
    case (Up(g), Send(fd, _, ok)) => if fd != g then Bad else if ok then Amid(fd) else Down
    case (Amid(g), Send(fd, text, ok)) => if fd != g || text != "\n" then Bad else if ok then Up(fd) else Down
    case _ => Bad
  }

  function PhaseOf(log: Log): Phase {
    if log == [] then Down else Move(PhaseOf(log[..|log| - 1]), log[|log| - 1])
  }

  lemma Append(log: Log, e: Event)
    ensures PhaseOf(log + [e]) == Move(PhaseOf(log), e)
  {
  }

  // ---- What an accepted run looks like ------------------------------------------------------------

  /** A complete handshake: with a challenge that was answered, or without one. */
  predicate Handshake(es: Log, fd: nat) {
    || es == [Connect(fd), Banner(fd, CLIS_OK), Ping(fd, true)]
    || es == [Connect(fd), Banner(fd, CLIS_AUTH), Login(fd, true), Ping(fd, true)]
  }

  predicate AllSent(es: Log, fd: nat) { forall i :: 0 <= i < |es| ==> es[i].Send? && es[i].fd == fd && es[i].ok }

  /** From k on: a complete handshake on fd, and then nothing but successful writes to it. */
  ghost predicate ShakenAt(log: Log, fd: nat, k: nat, n: nat) {
    k <= n <= |log| && Handshake(log[k..n], fd) && AllSent(log[n..], fd) && PhaseOf(log[..k]) == Down
  }

  ghost predicate Shaken(log: Log, fd: nat) { exists k: nat, n: nat :: ShakenAt(log, fd, k, n) }

  /** The beginnings of a handshake. */
  predicate Beginning(es: Log, p: Phase) {
    match p
    case Greeted(fd) => es == [Connect(fd)]
    case Challenged(fd) => es == [Connect(fd), Banner(fd, CLIS_AUTH)]
    case Trusted(fd) => es == [Connect(fd), Banner(fd, CLIS_OK)] ||
      es == [Connect(fd), Banner(fd, CLIS_AUTH), Login(fd, true)]
    case _ => false
  }

  ghost predicate BegunAt(log: Log, k: nat) {
    k <= |log| && Beginning(log[k..], PhaseOf(log)) && PhaseOf(log[..k]) == Down
  }

  ghost predicate Begun(log: Log) { exists k: nat :: BegunAt(log, k) }

  lemma {:induction false} PhaseTells(log: Log)
    ensures PhaseOf(log).Up? || PhaseOf(log).Amid? ==> Shaken(log, PhaseOf(log).fd)
    ensures PhaseOf(log).Greeted? || PhaseOf(log).Challenged? || PhaseOf(log).Trusted? ==> Begun(log)
  {
    if log != [] {
      var before, e := log[..|log| - 1], log[|log| - 1];
      assert log == before + [e];
      PhaseTells(before);
      TellsStep(before, e);
    }
  }

  lemma Carried(log: Log, e: Event, k: nat)
    requires BegunAt(log, k)
    ensures (log + [e])[k..] == log[k..] + [e] && (log + [e])[..k] == log[..k]
    ensures PhaseOf(log + [e]) == Move(PhaseOf(log), e)
  {
  }

  lemma FromGreeted(log: Log, e: Event)
    requires Begun(log) && PhaseOf(log).Greeted?
    ensures var p := PhaseOf(log + [e]); (p.Challenged? || p.Trusted?) ==> Begun(log + [e])
    ensures var p := PhaseOf(log + [e]); !p.Greeted? && !p.Up? && !p.Amid?
  {
    var k: nat :| BegunAt(log, k);
    Carried(log, e, k);
    if PhaseOf(log + [e]).Challenged? || PhaseOf(log + [e]).Trusted? { assert BegunAt(log + [e], k); }
  }

  lemma FromChallenged(log: Log, e: Event)
    requires Begun(log) && PhaseOf(log).Challenged?
    ensures var p := PhaseOf(log + [e]); p.Trusted? ==> Begun(log + [e])
    ensures var p := PhaseOf(log + [e]); !p.Greeted? && !p.Challenged? && !p.Up? && !p.Amid?
  {
    var k: nat :| BegunAt(log, k);
    Carried(log, e, k);
    if PhaseOf(log + [e]).Trusted? { assert BegunAt(log + [e], k); }
  }

  lemma Completes(es: Log, fd: nat)
    requires Beginning(es, Trusted(fd))
    ensures Handshake(es + [Ping(fd, true)], fd)
  {
  }

  lemma FromTrusted(log: Log, e: Event)
    requires Begun(log) && PhaseOf(log).Trusted?
    ensures var p := PhaseOf(log + [e]); p.Up? ==> Shaken(log + [e], p.fd)
    ensures var p := PhaseOf(log + [e]); !p.Greeted? && !p.Challenged? && !p.Trusted? && !p.Amid?
  {
    var k: nat :| BegunAt(log, k);
    Append(log, e);
    if PhaseOf(log + [e]).Up? {
      PongShakes(log, PhaseOf(log).fd, k);
    }
  }

  lemma PongShakes(log: Log, fd: nat, k: nat)
    requires BegunAt(log, k) && PhaseOf(log) == Trusted(fd)
    ensures ShakenAt(log + [Ping(fd, true)], fd, k, |log| + 1)
  {
    var now := log + [Ping(fd, true)];
    Carried(log, Ping(fd, true), k);
    Completes(log[k..], fd);
    assert now[k..|now|] == now[k..];
  }

  lemma FromDown(log: Log, e: Event)
    requires PhaseOf(log).Down?
    ensures var p := PhaseOf(log + [e]); p.Greeted? ==> Begun(log + [e])
    ensures var p := PhaseOf(log + [e]); p.Greeted? || p.Bad?
  {
    Append(log, e);
    assert (log + [e])[|log|..] == [e] && (log + [e])[..|log|] == log;
    if e.Connect? { assert BegunAt(log + [e], |log|); }
  }

  lemma FromUp(log: Log, e: Event)
    requires PhaseOf(log).Up? || PhaseOf(log).Amid?
    requires Shaken(log, PhaseOf(log).fd)
    ensures var p := PhaseOf(log + [e]); p.Up? || p.Amid? ==> Shaken(log + [e], p.fd)
    ensures var p := PhaseOf(log + [e]); p.Up? || p.Amid? || p.Down? || p.Bad?
  {
    Append(log, e);
    StillShaken(log, e, PhaseOf(log).fd);
  }

  lemma TellsStep(log: Log, e: Event)
    requires PhaseOf(log).Up? || PhaseOf(log).Amid? ==> Shaken(log, PhaseOf(log).fd)
    requires PhaseOf(log).Greeted? || PhaseOf(log).Challenged? || PhaseOf(log).Trusted? ==> Begun(log)
    ensures var p := PhaseOf(log + [e]); p.Up? || p.Amid? ==> Shaken(log + [e], p.fd)
    ensures var p := PhaseOf(log + [e]); p.Greeted? || p.Challenged? || p.Trusted? ==> Begun(log + [e])
  {
    match PhaseOf(log)
    case Down => FromDown(log, e);
    case Greeted(_) => FromGreeted(log, e);
    case Challenged(_) => FromChallenged(log, e);
    case Trusted(_) => FromTrusted(log, e);
    case Up(_) => FromUp(log, e);
    case Amid(_) => FromUp(log, e);
    case Rejected(_) => Append(log, e);
    case Bad => Append(log, e);
  }

  lemma StillShaken(log: Log, e: Event, fd: nat)
    requires Shaken(log, fd)
    ensures e.Send? && e.fd == fd && e.ok ==> Shaken(log + [e], fd)
  {
    var k: nat, n: nat :| ShakenAt(log, fd, k, n);
    var now := log + [e];
    assert now[k..n] == log[k..n] && now[n..] == log[n..] + [e] && now[..k] == log[..k];
    if e.Send? && e.fd == fd && e.ok {
      assert ShakenAt(now, fd, k, n);
    }
  }

  lemma {:induction false} GoodPrefix(log: Log, i: nat)
    requires i <= |log| && !PhaseOf(log).Bad?
    ensures !PhaseOf(log[..i]).Bad?
    decreases |log|
  {
    if i < |log| {
      GoodPrefix(log[..|log| - 1], i);
      assert log[..|log| - 1][..i] == log[..i];
    } else {
      assert log[..i] == log;
    }
  }

  lemma {:induction false} WriteIsShaken(before: Log, e: Event, log: Log, i: nat)
    requires i < |log| && before == log[..i] && e == log[i] && e.Send? && !PhaseOf(log).Bad?
    ensures PhaseOf(before).Up? || PhaseOf(before).Amid?
    ensures PhaseOf(before).fd == e.fd
  {
    GoodPrefix(log, i + 1);
    assert log[..i + 1] == before + [e];
    Append(before, e);
  }

  /** Whatever is written of commands, is written after a complete handshake on the same descriptor,
      with nothing but successful writes to it in between. */
  lemma WritesAreShaken(log: Log, i: nat)
    requires i < |log| && log[i].Send? && !PhaseOf(log).Bad?
    ensures Shaken(log[..i], log[i].fd)
  {
    WriteIsShaken(log[..i], log[i], log, i);
    PhaseTells(log[..i]);
  }

  // ---- Descriptors ------------------------------------------------------------------------------------

  /** The sockets that are open: cli_write() closes the one that it fails on. */
  function OpenAfter(fds: set<nat>, e: Event): set<nat> {
    match e
    case Connect(fd) => fds + {fd}
    case Shut(fd) => fds - {fd}
    case Send(fd, _, ok) => if ok then fds else fds - {fd}
    case _ => fds
  }

  function OpenFds(log: Log): set<nat> {
    if log == [] then {} else OpenAfter(OpenFds(log[..|log| - 1]), log[|log| - 1])
  }

  /** The kernel hands out numbers that are not in use. */
  ghost predicate Numbered(log: Log) {
    forall i :: 0 <= i < |log| && log[i].Connect? ==> log[i].fd !in OpenFds(log[..i])
  }

  function Refusals(log: Log): nat {
    if log == [] then 0 else
      Refusals(log[..|log| - 1]) + (if log[|log| - 1].Login? && !log[|log| - 1].ok then 1 else 0)
  }

  predicate HasSocket(p: Phase) { !p.Down? && !p.Bad? }

  predicate Counted(fds: set<nat>, refusals: nat, p: Phase) {
    && (HasSocket(p) ==> p.fd in fds)
    && |fds| == refusals + (if HasSocket(p) then 1 else 0)
  }

  lemma CountedStep(fds: set<nat>, refusals: nat, p: Phase, e: Event)
    requires Counted(fds, refusals, p) && !Move(p, e).Bad? && !p.Bad? && (e.Connect? ==> e.fd !in fds)
    ensures Counted(OpenAfter(fds, e), refusals + (if e.Login? && !e.ok then 1 else 0), Move(p, e))
  {
  }

  /** The socket in use is open, and the others that are open are those of refused logins: a
      refused login forgets its socket without closing it, and nothing else does. */
  lemma {:induction false} OnlyRefusalsLeak(log: Log)
    requires Numbered(log) && !PhaseOf(log).Bad?
    ensures Counted(OpenFds(log), Refusals(log), PhaseOf(log))
  {
    if log != [] {
      var before, e := log[..|log| - 1], log[|log| - 1];
      assert Numbered(before) by {
        assert forall i :: 0 <= i < |before| ==> before[i] == log[i] && before[..i] == log[..i];
      }
      OnlyRefusalsLeak(before);
      CountedStep(OpenFds(before), Refusals(before), PhaseOf(before), e);
    }
  }

  /** One refused login: no connection, and its socket is still open. */
  lemma RefusedLoginLeaks()
    ensures var log := [Connect(3), Banner(3, CLIS_AUTH), Login(3, false)];
      Numbered(log) && PhaseOf(log) == Down && OpenFds(log) == {3}
  {
    var one := [Connect(3)];
    var two := one + [Banner(3, CLIS_AUTH)];
    var log := two + [Login(3, false)];
    assert log[..2] == two && two[..1] == one && one[..0] == [];
    assert PhaseOf(one) == Greeted(3) && OpenFds(one) == {3};
    assert PhaseOf(two) == Challenged(3) && OpenFds(two) == {3};
    assert log == [Connect(3), Banner(3, CLIS_AUTH), Login(3, false)];
    assert PhaseOf(log) == Move(PhaseOf(two), Login(3, false));
    assert forall i :: 0 <= i < 3 && log[i].Connect? ==> i == 0;
    assert log[..0] == [];
  }

  // ---- The module ----------------------------------------------------------------------------------------

  /** What the caller gets: an empty answer for a blank command, "Varnishd disconnected", or
      Varnish's own answer. */
  datatype Reply = Empty | Disconnected | Answer(status: int)

  /** What Varnish and the kernel answer while the agent connects: the status of the greeting, what open()
      returns for the secret's file, the status of the login, and whether there is a good pong. */
  datatype Shaking = Shaking(greeting: int, secretFd: int, login: int, pong: bool)

  /** A connection comes up: an address, a socket, a greeting that asks for no login or for one that
      succeeds, and a pong. */
  predicate Connects(t_arg: bool, s_arg: bool, given: int, secret: int, k: Shaking) {
    t_arg && given >= 0 && k.pong && Welcome(s_arg, secret, k)
  }

  predicate Welcome(s_arg: bool, secret: int, k: Shaking) {
    k.greeting == 200 || (k.greeting == 107 && s_arg && (secret >= 0 || k.secretFd >= 0) && k.login == 200)
  }

  /** What has happened on fd when the greeting, and the login if there was one, are over. */
  function Welcomed(fd: nat, k: Shaking): Log {
    [Banner(fd, k.greeting)] + if k.greeting == 107 then [Login(fd, true)] else []
  }

  predicate IsSpace(c: char) { c == ' ' || '\t' <= c <= '\r' }

  predicate Blank(cmd: string) { forall i :: 0 <= i < |cmd| ==> IsSpace(cmd[i]) }

  /** Spaces, tabs and line ends make a blank command; one other character does not. */
  lemma KnownBlanks()
    ensures Blank(" \t\r\n") && Blank("") && !Blank(" ping")
  {
    assert " ping"[1] == 'p';
  }

  /** No part of a command is written from event n on. */
  predicate SilentFrom(log: Log, n: nat) { forall i :: n <= i < |log| ==> !log[i].Send? }

  /** The loop over the command's white space. */
  method IsBlank(cmd: string) returns (blank: bool)
    ensures blank == Blank(cmd)
  {
    var p := 0;
    while p < |cmd| && IsSpace(cmd[p])
      invariant p <= |cmd| && forall i :: 0 <= i < p ==> IsSpace(cmd[i])
    {
      p := p + 1;
    }
    blank := p == |cmd|;
  }

  class Admin {
    var sock: int
    var state: int
    var secret: int                // s_arg_fd
    ghost var log: Log

    /** state says whether the automaton is up, on sock. */
    ghost predicate Valid()
      reads this
    {
      && PhaseOf(log) == (if state == 0 then Down else Up(if sock < 0 then 0 else sock))
      && (state != 0 ==> sock >= 0) && Numbered(log)
    }

    constructor (s_arg_fd: int)
      ensures Valid() && state == 0 && log == []
    {
      sock, state, secret, log := -1, 0, s_arg_fd, [];
    }

    /** One more event, which the kernel may have numbered. */
    ghost method Note(e: Event)
      requires Numbered(log) && (e.Connect? ==> e.fd !in OpenFds(log))
      modifies this`log
      ensures log == old(log) + [e] && PhaseOf(log) == Move(old(PhaseOf(log)), e) && Numbered(log)
    {
      Append(log, e);
      ghost var was := log;
      log := log + [e];
      forall i | 0 <= i < |log| && log[i].Connect? ensures log[i].fd !in OpenFds(log[..i]) {
        assert log[..i] == was[..i];
        assert was[..|was|] == was;
      }
    }

    /** cli_write() of a part of a command. */
    method CliWrite(text: string, works: bool) returns (ok: bool)
      requires Numbered(log) && sock >= 0
      modifies this`log
      ensures ok == works
      ensures log == old(log) + [Send(sock, text, ok)] &&
        PhaseOf(log) == Move(old(PhaseOf(log)), Send(sock, text, ok)) && Numbered(log)
    {
      ok := works;
      Note(Send(sock, text, ok));
    }

    /** The greeting and, if Varnish asks for it, the login. */
    method Authenticate(s_arg: bool, k: Shaking) returns (trusted: bool)
      requires Numbered(log) && sock >= 0 && PhaseOf(log) == Greeted(sock)
      modifies this
      ensures Numbered(log) && state == old(state) && old(log) <= log
      ensures if trusted then sock == old(sock) && PhaseOf(log) == Trusted(sock) else PhaseOf(log) == Down
      ensures SilentFrom(log, |old(log)|)
      ensures trusted <==> Welcome(s_arg, old(secret), k)
      ensures trusted ==> log == old(log) + Welcomed(sock, k)
    {
      Note(Banner(sock, k.greeting));
      if k.greeting == CLIS_AUTH {
        trusted := LogIn(s_arg, k);
        return;
      }
      if k.greeting != CLIS_OK {
        Note(Shut(sock));
        sock := -1;
        return false;
      }
      trusted := true;
    }

    /** The answer to the challenge; a failed one forgets the socket without closing it. */
    method LogIn(s_arg: bool, k: Shaking) returns (trusted: bool)
      requires Numbered(log) && sock >= 0 && PhaseOf(log) == Challenged(sock)
      modifies this
      ensures Numbered(log) && state == old(state) && old(log) <= log
      ensures if trusted then sock == old(sock) && PhaseOf(log) == Trusted(sock) else PhaseOf(log) == Down && sock == -1
      ensures SilentFrom(log, |old(log)|)
      ensures trusted <==> s_arg && (old(secret) >= 0 || k.secretFd >= 0) && k.login == CLIS_OK
      ensures trusted ==> log == old(log) + [Login(sock, true)]
    {
      var readable := OpenSecret(s_arg, k.secretFd);
      if !readable {
        Note(Shut(sock));
        sock := -1;
        return false;
      }
      trusted := k.login == CLIS_OK;
      Note(Login(sock, trusted));
      if !trusted {
        sock, secret := -1, -1;
      }
    }

    /** The secret's file is opened once and rewound later. */
    method OpenSecret(s_arg: bool, fd: int) returns (readable: bool)
      modifies this`secret
      ensures readable <==> s_arg && (old(secret) >= 0 || fd >= 0)
    {
      if !s_arg {
        return false;
      }
      if secret < 0 {
        secret := fd;
      }
      readable := secret >= 0;
    }

    /** cli_sock(): t_arg and s_arg tell whether the agent knows an address and a secret; given is
        what VSS_open() returns, a number that is not in use or an error. The connection comes up
        exactly if all that it needs is there and every answer is good. */
    method CliSock(t_arg: bool, s_arg: bool, given: int, k: Shaking)
      requires Valid() && state == 0 && given !in OpenFds(log)
      modifies this
      ensures Valid() && old(log) <= log
      ensures SilentFrom(log, |old(log)|)
      ensures state == if Connects(t_arg, s_arg, given, old(secret), k) then 1 else 0
      ensures state == 1 ==>
        sock == given && log == old(log) + [Connect(given)] + Welcomed(given, k) + [Ping(given, true)]
    {
      if !t_arg {
        return;
      }
      sock := given;
      if sock < 0 {
        return;
      }
      Note(Connect(sock));
      ShakeHands(s_arg, k);
    }

    method ShakeHands(s_arg: bool, k: Shaking)
      requires Numbered(log) && sock >= 0 && state == 0 && PhaseOf(log) == Greeted(sock)
      modifies this
      ensures Valid() && old(log) <= log
      ensures SilentFrom(log, |old(log)|)
      ensures state == if Welcome(s_arg, old(secret), k) && k.pong then 1 else 0
      ensures state == 1 ==> sock == old(sock) && log == old(log) + Welcomed(sock, k) + [Ping(sock, true)]
    {
      var trusted := Authenticate(s_arg, k);
      if trusted {
        Pong(k.pong);
      }
    }

    /** The end of cli_sock(). */
    method Pong(pong: bool)
      requires Numbered(log) && sock >= 0 && state == 0 && PhaseOf(log) == Trusted(sock)
      modifies this
      ensures Valid() && old(log) <= log
      ensures SilentFrom(log, |old(log)|)
      ensures state == if pong then 1 else 0
      ensures pong ==> sock == old(sock) && log == old(log) + [Ping(sock, true)]
    {
      Note(Ping(sock, pong));
      if !pong {
        Note(Shut(sock));
        sock := -1;
        return;
      }
      state := 1;
    }

    /** vadmin_run(); first and second tell whether the two writes work, status is Varnish's answer. A
        command that is not blank is answered exactly if both writes work. */
    method Run(cmd: string, first: bool, second: bool, status: int) returns (r: Reply)
      requires Valid() && state != 0
      modifies this
      ensures Valid() && sock == old(sock)
      ensures r == if Blank(cmd) then Empty else if first && second then Answer(status) else Disconnected
      ensures r.Disconnected? <==> state == 0
      ensures r.Disconnected? || state == old(state)
      ensures log == old(log) +
        if Blank(cmd) then []
        else if first then [Send(sock, cmd, true), Send(sock, "\n", second)]
        else [Send(sock, cmd, false)]
    {
      var blank := IsBlank(cmd);
      if blank {
        return Empty;
      }
      var ok := SendCommand(cmd, first, second);
      r := if ok then Answer(status) else Disconnected;
    }

    /** The two writes. */
    method SendCommand(cmd: string, first: bool, second: bool) returns (ok: bool)
      requires Valid() && state != 0
      modifies this
      ensures Valid() && sock == old(sock) && ok == (first && second)
      ensures state == if ok then old(state) else 0
      ensures log == old(log) +
        if first then [Send(sock, cmd, true), Send(sock, "\n", second)] else [Send(sock, cmd, false)]
    {
      ok := CliWrite(cmd, first);
      if !ok {
        state := 0;
        return;
      }
      ok := CliWrite("\n", second);
      if !ok {
        state := 0;
      }
    }

    /** read_cmd(): connect first if need be. */
    method ReadCmd(cmd: string, t_arg: bool, s_arg: bool, given: int, k: Shaking,
                   first: bool, second: bool, status: int) returns (r: Reply)
      requires Valid() && given !in OpenFds(log)
      modifies this
      ensures Valid() && old(log) <= log
      ensures old(state) != 0 ==> sock == old(sock)
      ensures r ==
        if old(state) == 0 && !Connects(t_arg, s_arg, given, old(secret), k) then Disconnected
        else if Blank(cmd) then Empty
        else if first && second then Answer(status)
        else Disconnected
      ensures r.Answer? ==>
        state != 0 && |log| >= 2 && log[|log| - 2..] == [Send(sock, cmd, true), Send(sock, "\n", true)]
      ensures r.Disconnected? <==> state == 0
      ensures forall i :: |old(log)| <= i < |log| && log[i].Send? ==> !Blank(cmd) && log[i].text in {cmd, "\n"}
    {
      if state == 0 {
        CliSock(t_arg, s_arg, given, k);
      }
      if state == 0 {
        return Disconnected;
      }
      r := Run(cmd, first, second, status);
    }
  }
}
