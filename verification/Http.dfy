/** The HTTP side: registration and dispatch of handlers, the password check, and the state
    machine that libmicrohttpd drives with one call per piece of a request. */
module Http {
  import opened Bytes
  import Vsb
  import Base64

  // ---- Handlers and how they are chosen ----------------------------------------------------

  datatype Method = GET | POST | PUT | DELETE | OPTIONS

  function NameOf(m: Method): string {
    match m
    case GET => "GET"
    case POST => "POST"
    case PUT => "PUT"
    case DELETE => "DELETE"
    case OPTIONS => "OPTIONS"
  }

  /** parse_method(): M_UNKNOWN is None. Every method goes by its own name, and GET by HEAD as well. */
  function ParseMethod(name: string): (m: Option<Method>)
    ensures forall n :: m == Some(n) <==> name == NameOf(n) || (n == GET && name == "HEAD")
  {
    if name == "GET" then Some(GET)
    else if name == "POST" then Some(POST)
    else if name == "PUT" then Some(PUT)
    else if name == "DELETE" then Some(DELETE)
    else if name == "OPTIONS" then Some(OPTIONS)
    else if name == "HEAD" then Some(GET)
    else None
  }

  /** A registration: `handler` stands for the callback and its data. */
  datatype Listener = Listener(url: string, methods: set<Method>, handler: nat)

  /** p is u, or u cut in front of a '/'. */
  predicate SegmentPrefix(p: string, u: string) {
    p <= u && (|p| == |u| || u[|p|] == '/')
  }

  predicate Matches(l: Listener, url: string, m: Option<Method>) {
    m.Some? && m.value in l.methods && SegmentPrefix(l.url, url)
  }

  function SkipSlashes(s: string): (r: string)
    ensures r == "" || r[0] != '/'
    ensures |r| <= |s| && r == s[|s| - |r|..] && forall i :: 0 <= i < |s| - |r| ==> s[i] == '/'
  {
    if s == "" || s[0] != '/' then s else SkipSlashes(s[1..])
  }

  /** What is behind the registered URL and the slashes; NULL if that is nothing: from the first
      character behind `start` that is no slash on, the argument is the rest of the URL. */
  ghost predicate IsArgument(url: string, start: nat, a: Option<string>) {
    match a
    case None => forall i :: start <= i < |url| ==> url[i] == '/'
    case Some(v) =>
      exists k :: start <= k < |url| && url[k] != '/' && (forall i :: start <= i < k ==> url[i] == '/') && v == url[k..]
  }

  function Argument(l: Listener, url: string): (a: Option<string>)
    requires l.url <= url
    ensures IsArgument(url, |l.url|, a)
  {
    var rest := SkipSlashes(url[|l.url|..]);
    if rest == "" then None else Some(rest)
  }

  /** The first of the list that matches; the list has the last registration first. */
  function Chosen(ls: seq<Listener>, url: string, m: Option<Method>): (c: Option<Listener>)
    ensures c.Some? ==> c.value in ls && Matches(c.value, url, m)
    ensures c.None? ==> forall l :: l in ls ==> !Matches(l, url, m)
  {
    if ls == [] then None
    else if Matches(ls[0], url, m) then Some(ls[0])
    else Chosen(ls[1..], url, m)
  }

  method PastSlashes(url: string, start: nat) returns (arg: Option<string>)
    requires start <= |url|
    ensures arg == (var rest := SkipSlashes(url[start..]); if rest == "" then None else Some(rest))
  {
    var k := start;
    while k < |url| && url[k] == '/'
      invariant start <= k <= |url| && SkipSlashes(url[start..]) == SkipSlashes(url[k..])
    {
      assert url[k..][1..] == url[k + 1..];
      k := k + 1;
    }
    arg := if k == |url| then None else Some(url[k..]);
  }

  /** One turn of the loop of find_listener(), with the argument for the callback. */
  method Offer(l: Listener, url: string, m: Option<Method>) returns (ok: bool, arg: Option<string>)
    ensures ok == Matches(l, url, m)
    ensures ok ==> arg == Argument(l, url)
  {
    if l.url <= url && m.Some? && m.value in l.methods {
      var k := |l.url|;
      if k == |url| {
        return true, None;
      }
      if url[k] == '/' {
        arg := PastSlashes(url, k);
        return true, arg;
      }
    }
    ok, arg := false, None;
  }

  /** find_listener(): the latest registration that matches. */
  method FindListener(ls: seq<Listener>, url: string, m: Option<Method>)
    returns (c: Option<Listener>, arg: Option<string>)
    ensures c == Chosen(ls, url, m)
    ensures c.Some? ==> c.value.url <= url && arg == Argument(c.value, url) && IsArgument(url, |c.value.url|, arg)
  {
    var i := 0;
    while i < |ls|
      invariant i <= |ls| && Chosen(ls, url, m) == Chosen(ls[i..], url, m)
    {
      var ok, a := Offer(ls[i], url, m);
      if ok {
        return Some(ls[i]), a;
      }
      i := i + 1;
    }
    c, arg := None, None;
  }

  /** Of several that match, the one nearest to the front: the one registered last. */
  lemma {:induction false} ChosenIsLatest(ls: seq<Listener>, i: nat, url: string, m: Option<Method>)
    requires i < |ls| && Matches(ls[i], url, m) && forall j :: 0 <= j < i ==> !Matches(ls[j], url, m)
    ensures Chosen(ls, url, m) == Some(ls[i])
  {
    if i > 0 { ChosenIsLatest(ls[1..], i - 1, url, m); }
  }

  /** The list that http_register_path() prepends to. */
  class Registry {
    var listeners: seq<Listener>

    constructor ()
      ensures listeners == []
    {
      listeners := [];
    }

    method RegisterPath(l: Listener)
      modifies this
      ensures listeners == [l] + old(listeners)
    {
      listeners := [l] + listeners;
    }

    /** The modules' init functions, one registration after the other. */
    method RegisterAll(rs: seq<Listener>)
      modifies this
      ensures listeners == Backwards(rs) + old(listeners)
    {
      for i := 0 to |rs|
        invariant listeners == Backwards(rs[..i]) + old(listeners)
      {
        RegisterPath(rs[i]);
        assert rs[..i + 1] == rs[..i] + [rs[i]];
        BackwardsAppend(rs[..i], rs[i]);
      }
      assert rs[..|rs|] == rs;
    }
  }

  // ---- When the order of registration does not matter ------------------------------------------

  /** Some request would match both. */
  predicate Overlap(a: Listener, b: Listener) {
    a.methods * b.methods != {} && (SegmentPrefix(a.url, b.url) || SegmentPrefix(b.url, a.url))
  }

  ghost predicate Unambiguous(ls: seq<Listener>) {
    forall a, b :: a in ls && b in ls && a != b ==> !Overlap(a, b)
  }

  ghost predicate Rearranged(ls: seq<Listener>, ms: seq<Listener>) { multiset(ls) == multiset(ms) }

  ghost predicate OrderIrrelevant(ls: seq<Listener>) {
    forall ms, url, m :: Rearranged(ls, ms) ==> Chosen(ms, url, m) == Chosen(ls, url, m)
  }

  /** Segment prefixes of one URL are nested. */
  lemma PrefixesNest(p: string, q: string, u: string)
    requires SegmentPrefix(p, u) && SegmentPrefix(q, u)
    ensures SegmentPrefix(p, q) || SegmentPrefix(q, p)
  {
  }

  lemma SameChoice(ls: seq<Listener>, ms: seq<Listener>, url: string, m: Option<Method>)
    requires Unambiguous(ls) && Rearranged(ls, ms)
    ensures Chosen(ms, url, m) == Chosen(ls, url, m)
  {
    forall l ensures l in ls <==> l in ms {
      assert l in multiset(ls) <==> l in multiset(ms);
    }
    var a, b := Chosen(ls, url, m), Chosen(ms, url, m);
    if a.Some? && b.Some? && a != b {
      PrefixesNest(a.value.url, b.value.url, url);
      assert m.value in a.value.methods * b.value.methods;
      assert Overlap(a.value, b.value);
    }
  }

  /** The order in which find_listener() looks is a rearrangement of the order of registration. */
  lemma {:induction false} BackwardsIsRearranged(rs: seq<Listener>)
    ensures Rearranged(rs, Backwards(rs))
  {
    if rs != [] {
      BackwardsIsRearranged(rs[1..]);
      assert rs == [rs[0]] + rs[1..];
    }
  }

  /** l taken to the front. */
  lemma Front(ls: seq<Listener>, l: Listener) returns (ms: seq<Listener>)
    requires l in ls
    ensures Rearranged(ls, ms) && ms != [] && ms[0] == l
  {
    var i :| 0 <= i < |ls| && ls[i] == l;
    ms := [l] + ls[..i] + ls[i + 1..];
    assert ls == ls[..i] + [l] + ls[i + 1..];
  }

  /** Two different registrations that overlap: whichever is first serves the longer URL. */
  lemma OrderMatters(ls: seq<Listener>, a: Listener, b: Listener)
    requires a in ls && b in ls && a != b && Overlap(a, b)
    ensures !OrderIrrelevant(ls)
  {
    var url := if SegmentPrefix(a.url, b.url) then b.url else a.url;
    var m :| m in a.methods * b.methods;
    var first := Front(ls, a);
    var second := Front(ls, b);
    assert Matches(a, url, Some(m)) && Matches(b, url, Some(m));
    assert Chosen(first, url, Some(m)) == Some(a) && Chosen(second, url, Some(m)) == Some(b);
  }

  /** The choice never depends on the order of registration exactly when no two different
      registrations with a method in common have URLs of which one is a segment prefix of the other. */
  lemma OrderIrrelevantIff(ls: seq<Listener>)
    ensures OrderIrrelevant(ls) <==> Unambiguous(ls)
  {
    if Unambiguous(ls) {
      forall ms, url, m | Rearranged(ls, ms) ensures Chosen(ms, url, m) == Chosen(ls, url, m) {
        SameChoice(ls, ms, url, m);
      }
    } else {
      var a, b :| a in ls && b in ls && a != b && Overlap(a, b);
      OrderMatters(ls, a, b);
    }
  }

  /** The registrations of the agent's modules, in the order of plugin-list.h. */
  const AGENT: seq<Listener> := [
    Listener("/echo", {POST, PUT, GET}, 0),
    Listener("/status", {GET}, 1),
    Listener("/stop", {PUT, POST}, 2),
    Listener("/start", {PUT, POST}, 3),
    Listener("/panic", {GET, DELETE}, 4),
    Listener("/help/panic", {GET}, 5),
    Listener("/version", {GET}, 6),
    Listener("/package_string", {GET}, 7),
    Listener("/ping", {GET}, 8),
    Listener("/vcljson", {GET}, 9),
    Listener("/vcl", {GET}, 10),
    Listener("/vcl", {PUT, POST}, 11),
    Listener("/vcl", {DELETE}, 12),
    Listener("/vclactive", {GET}, 13),
    Listener("/vcldeploy", {PUT}, 14),
    Listener("/help/vcl", {GET}, 15),
    Listener("/html", {GET}, 16),
    Listener("/param", {PUT, GET}, 17),
    Listener("/paramjson", {GET}, 18),
    Listener("/help/param", {GET}, 19),
    Listener("/ban", {GET, POST}, 20),
    Listener("/help/ban", {GET}, 21),
    Listener("/stats", {GET}, 22),
    Listener("/push/test/stats", {PUT}, 23),
    Listener("/push/url/stats", {PUT}, 24),
    Listener("/log", {GET}, 25),
    Listener("/vac_register", {POST}, 26),
    Listener("/direct", {POST}, 27),
    Listener("/help/direct", {GET}, 28),
    Listener("/backend", {PUT}, 29),
    Listener("/backendjson", {GET}, 30),
    Listener("/help/backend", {GET}, 31)
  ]

  predicate Push(u: string) requires |u| > 2 { u[1] == 'p' && u[2] == 'u' }

  predicate Help(u: string) requires |u| > 2 { u[1] == 'h' && u[2] == 'e' }

  /** From k on, the slashes stand where the agent's URLs have them. */
  predicate Slashes(u: string, k: nat)
    requires |u| > 2
    decreases |u| - k
  {
    k >= |u| || ((u[k] == '/' ==>
      (k == 5 && (Push(u) || Help(u))) || ((k == 9 || k == 10) && Push(u))) && Slashes(u, k + 1))
  }

  lemma {:induction false} SlashesMean(u: string, j: nat, k: nat)
    requires |u| > 2 && j <= k < |u| && u[k] == '/' && Slashes(u, j)
    ensures (k == 5 && (Push(u) || Help(u))) || ((k == 9 || k == 10) && Push(u))
    decreases k - j
  {
    if j < k { SlashesMean(u, j + 1, k); }
  }

  /** Where the agent's URLs have their slashes, and how long they are. */
  predicate Shape(u: string) {
    && |u| > 2 && Slashes(u, 1)
    && (|u| == 5 ==> !Push(u) && !Help(u))
    && (|u| == 9 || |u| == 10 ==> !Push(u))
  }

  lemma ShapesApart(p: string, u: string)
    requires Shape(p) && Shape(u) && SegmentPrefix(p, u)
    ensures p == u
  {
    if |p| < |u| { SlashesMean(u, 1, |p|); }
  }

  // Comparing 32 URLs pairwise is too much for the verifier; comparing a number for each is not. The
  // number is computed from the length, the third and the last character, and the coefficients are
  // the smallest that keep the 30 different URLs apart: only the three registrations of /vcl, which
  // are for different methods, share one.

  /** A number that tells the agent's URLs apart. */
  function Key(u: string): int
    requires |u| > 2
  {
    3 * |u| + 5 * (u[2] as int) + u[|u| - 1] as int
  }

  /** The key of each registration, in the order of the table. */
  const KEYS: seq<int> := [
    621, 716, 707, 714, 602, 637, 639, 633, 643, 629, 615, 615, 615, 626, 646, 640,
    703, 612, 625, 647, 607, 642, 713, 748, 745, 670, 638, 662, 657, 609, 631, 644
  ]

  predicate Known(i: nat) requires i < 32 { Shape(AGENT[i].url) && Key(AGENT[i].url) == KEYS[i] }

  lemma Known0()
    ensures forall i :: 0 <= i < 8 ==> Known(i)
  {
    assert Shape("/echo");
    assert Shape("/status");
    assert Shape("/stop");
    assert Shape("/start");
    assert Shape("/panic");
    assert Shape("/help/panic");
    assert Shape("/version");
    assert Shape("/package_string");
  }

  lemma Known8()
    ensures forall i :: 8 <= i < 16 ==> Known(i)
  {
    assert Shape("/ping");
    assert Shape("/vcljson");
    assert Shape("/vcl");
    assert Shape("/vcl");
    assert Shape("/vcl");
    assert Shape("/vclactive");
    assert Shape("/vcldeploy");
    assert Shape("/help/vcl");
  }

  lemma Known16()
    ensures forall i :: 16 <= i < 24 ==> Known(i)
  {
    assert Shape("/html");
    assert Shape("/param");
    assert Shape("/paramjson");
    assert Shape("/help/param");
    assert Shape("/ban");
    assert Shape("/help/ban");
    assert Shape("/stats");
    assert Shape("/push/test/stats");
  }

  lemma Known24()
    ensures forall i :: 24 <= i < 32 ==> Known(i)
  {
    assert Shape("/push/url/stats");
    assert Shape("/log");
    assert Shape("/vac_register");
    assert Shape("/direct");
    assert Shape("/help/direct");
    assert Shape("/backend");
    assert Shape("/backendjson");
    assert Shape("/help/backend");
  }

  lemma AllKnown()
    ensures forall i :: 0 <= i < 32 ==> Known(i)
  {
    Known0(); Known8(); Known16(); Known24();
  }

  lemma KeysApart(i: nat, j: nat)
    requires i < j < 32 && KEYS[i] == KEYS[j]
    ensures 10 <= i && j <= 12
  {
  }

  lemma SameSlot(i: nat, j: nat)
    requires i < 32 && j < 32 && Overlap(AGENT[i], AGENT[j])
    ensures i == j
  {
    AllKnown();
    assert Known(i) && Known(j);
    if SegmentPrefix(AGENT[i].url, AGENT[j].url) {
      ShapesApart(AGENT[i].url, AGENT[j].url);
    } else {
      ShapesApart(AGENT[j].url, AGENT[i].url);
    }
    if i < j { KeysApart(i, j); }
    if j < i { KeysApart(j, i); }
  }

  lemma ApartByIndex(ls: seq<Listener>)
    requires forall i, j :: 0 <= i < |ls| && 0 <= j < |ls| && Overlap(ls[i], ls[j]) ==> i == j
    ensures Unambiguous(ls)
  {
  }

  lemma LatestFirstIsNoMatter(rs: seq<Listener>, url: string, m: Option<Method>)
    requires Unambiguous(rs)
    ensures Chosen(Backwards(rs), url, m) == Chosen(rs, url, m)
  {
    BackwardsIsRearranged(rs);
    SameChoice(rs, Backwards(rs), url, m);
  }

  /** The agent's own table: the order of its modules in plugin-list.h decides nothing. */
  lemma AgentOrderIrrelevant()
    ensures Unambiguous(AGENT) && OrderIrrelevant(AGENT)
  {
    forall i, j | 0 <= i < 32 && 0 <= j < 32 && Overlap(AGENT[i], AGENT[j]) ensures i == j {
      SameSlot(i, j);
    }
    ApartByIndex(AGENT);
    OrderIrrelevantIff(AGENT);
  }

  // ---- The password -------------------------------------------------------------------------

  const BASIC: seq<byte> := [66, 97, 115, 105, 99, SPACE]     // "Basic "

  const COLON: byte := 58

  /** errx(), or the end of a failed assertion, or the agent's credentials. */
  datatype Startup = Refused | Aborted | Ready(user: seq<byte>, password: seq<byte>, token: seq<byte>)

  /** The end of core_opt() in main.c: the configured line has to have a colon with something
      behind it; the token is the encoding of the whole line. */
  method Configure(line: seq<byte>, plenty: bool) returns (r: Startup)
    requires NUL !in line
    ensures r.Aborted? ==> !plenty
    ensures r.Refused? <==> line == [] || COLON !in line[..|line| - 1]
    ensures r.Ready? ==> line == r.user + [COLON] + r.password && COLON !in r.user && r.password != []
    ensures r.Ready? ==> CStr(r.token) == Base64.Encode(Base64.BASE64, line)
  {
    var k := 0;
    while k < |line| && line[k] != COLON
      invariant k <= |line| && COLON !in line[..k]
    {
      k := k + 1;
    }
    if k == |line| || k + 1 == |line| {
      return Refused;
    }
    assert line[..|line| - 1][k] == COLON;
    var token := Token(line, plenty);
    if token.None? {
      return Aborted;
    }
    r := Ready(line[..k], line[k + 1..], token.value);
  }

  lemma TokenView(line: seq<byte>, token: seq<byte>)
    requires token == Base64.Encode(Base64.BASE64, line) + [NUL]
    ensures CStr(token) == Base64.Encode(Base64.BASE64, line)
  {
    Base64.KnownAreProper();
    Base64.CView(Base64.BASE64, line);
  }

  method Token(line: seq<byte>, plenty: bool) returns (token: Option<seq<byte>>)
    requires NUL !in line
    ensures token.None? ==> !plenty
    ensures token.Some? ==> CStr(token.value) == Base64.Encode(Base64.BASE64, line)
  {
    CStrOfTerminated(line, []);
    assert line + [NUL] + [] == line + [NUL];
    var out := Base64.Base64Encode(Base64.BASE64, line + [NUL], plenty);
    if out.error {
      return None;
    }
    var t := out.buf[..out.len];
    assert t == out.Contents();
    TokenView(line, t);
    token := Some(t);
  }

  /** The header names the scheme, in this spelling, and the rest is the configured token. */
  predicate Accepts(token: seq<byte>, header: Option<seq<byte>>) {
    header.Some? && BASIC <= header.value && CStr(token) == header.value[|BASIC|..]
  }

  /** What a client that follows section 2 of RFC 7617 puts into the header. */
  function BasicHeader(cred: seq<byte>): seq<byte> { BASIC + Base64.Encode(Base64.BASE64, cred) }

  /** A well-formed header is accepted exactly when it carries the configured line. */
  lemma WellFormedIsAcceptedIff(line: seq<byte>, token: seq<byte>, cred: seq<byte>)
    requires CStr(token) == Base64.Encode(Base64.BASE64, line)
    ensures Accepts(token, Some(BasicHeader(cred))) <==> cred == line
  {
    Base64.KnownAreProper();
    assert BasicHeader(cred)[|BASIC|..] == Base64.Encode(Base64.BASE64, cred);
    if Base64.Encode(Base64.BASE64, cred) == Base64.Encode(Base64.BASE64, line) {
      Base64.EncodeInjective(Base64.BASE64, cred, line);
    }
  }

  /** Any header at all is accepted exactly when it is well-formed and decodes to the configured line. */
  lemma AcceptedIff(line: seq<byte>, token: seq<byte>, header: seq<byte>)
    requires CStr(token) == Base64.Encode(Base64.BASE64, line)
    ensures Accepts(token, Some(header)) <==>
      BASIC <= header && Base64.Decode(Base64.BASE64, header[|BASIC|..]) == Some(line)
      && exists cred :: header == BasicHeader(cred)
  {
    Base64.KnownAreProper();
    Base64.DecodeEncode(Base64.BASE64, line);
    if Accepts(token, Some(header)) {
      assert header == BasicHeader(line);
    }
    if cred :| header == BasicHeader(cred) {
      HeaderDecodes(cred);
    }
  }

  lemma HeaderDecodes(cred: seq<byte>)
    ensures var t := BasicHeader(cred)[|BASIC|..];
      t == Base64.Encode(Base64.BASE64, cred) && Base64.Decode(Base64.BASE64, t) == Some(cred)
  {
    Base64.KnownAreProper();
    Base64.DecodeEncode(Base64.BASE64, cred);
  }

  /** The scheme in small letters, with the right token, is refused. */
  lemma SmallSchemeIsRefused(token: seq<byte>)
    ensures !Accepts(token, Some([98, 97, 115, 105, 99, SPACE] + CStr(token)))
  {
    assert ([98, 97, 115, 105, 99, SPACE] + CStr(token))[0] == 98;
  }

  /** The header that a client sends for the user "varnish" and the password "agent". */
  lemma KnownHeader(token: seq<byte>)
    requires CStr(token) == Base64.Encode(Base64.BASE64, Ascii("varnish:agent"))
    ensures Accepts(token, Some(Ascii("Basic ") + (Ascii("dmFybmlzaDph") + Ascii("Z2VudA=="))))
  {
    Base64.KnownLine();
    SchemeName();
    OwnHeader(token);
  }

  lemma SchemeName()
    ensures BASIC == Ascii("Basic ")
  {
  }

  lemma OwnHeader(token: seq<byte>)
    ensures Accepts(token, Some(BASIC + CStr(token)))
  {
    assert (BASIC + CStr(token))[|BASIC|..] == CStr(token);
  }

  // ---- One request -----------------------------------------------------------------------------

  datatype Config = Config(token: seq<byte>, readOnly: bool)

  datatype Request = Request(url: string, name: string, header: Option<seq<byte>>)

  /** What one call of answer_to_connection() ends in; More means that no response is queued yet.
      A listener is given the body's bytes, the terminating NUL with them, and the length. */
  datatype Outcome =
    | More
    | ReadOnly405
    | Preflight200
    | Denied401
    | Served(listener: Listener, arg: Option<string>, data: Option<seq<byte>>, bodylen: nat)
    | HelpPage200
    | Failed500
    | Abort

  /** con_info, by value. */
  datatype Con = Unmade | Con(authed: bool, body: Option<seq<byte>>)

  function Grown(con: Con, upload: seq<byte>): Con
    requires con.Con?
  {
    Con(con.authed, if con.body.None? then None else Some(con.body.value + upload))
  }

  function Refused405(cfg: Config, req: Request): bool {
    cfg.readOnly && ParseMethod(req.name) != Some(GET) && ParseMethod(req.name) != Some(OPTIONS)
  }

  /** The last call of a request. */
  function Answer(cfg: Config, ls: seq<Listener>, con: Con, req: Request): Outcome
    requires con.Con?
  {
    var m := ParseMethod(req.name);
    if m == Some(OPTIONS) then Preflight200
    else if !con.authed && !Accepts(cfg.token, req.header) then Denied401
    else
      var c := Chosen(ls, req.url, m);
      if c.Some? then
        if con.body.None? then Served(c.value, Argument(c.value, req.url), None, 0)
        else Served(c.value, Argument(c.value, req.url), Some(con.body.value + [NUL]), |con.body.value|)
      else if m == Some(GET) && req.url == "/" then HelpPage200
      else Failed500
  }

  /** One call: the first makes con_info, the ones with data collect them, the one without answers. */
  function Call(cfg: Config, ls: seq<Listener>, con: Con, req: Request, upload: seq<byte>): (Con, Outcome) {
    if con.Unmade? then
      var ok := Accepts(cfg.token, req.header);
      (Con(ok, if ok then Some([]) else None), More)
    else if Refused405(cfg, req) then (con, ReadOnly405)
    else if upload != [] then (Grown(con, upload), More)
    else (con, Answer(cfg, ls, con, req))
  }

  /** What the calls of one request come to: libmicrohttpd makes no further call once a response is queued. */
  function Calls(cfg: Config, ls: seq<Listener>, con: Con, req: Request, uploads: seq<seq<byte>>): Outcome
    decreases |uploads|
  {
    if uploads == [] then More
    else
      var (c, o) := Call(cfg, ls, con, req, uploads[0]);
      if o == More then Calls(cfg, ls, c, req, uploads[1..]) else o
  }

  function Joined(chunks: seq<seq<byte>>): seq<byte> {
    if chunks == [] then [] else chunks[0] + Joined(chunks[1..])
  }

  /** Once con_info is made. */
  lemma {:induction false} ChunksAndFinal(cfg: Config, ls: seq<Listener>, con: Con, req: Request,
                                          chunks: seq<seq<byte>>)
    requires con.Con? && [] !in chunks
    decreases |chunks|
    ensures Calls(cfg, ls, con, req, chunks + [[]]) ==
      if Refused405(cfg, req) then ReadOnly405 else Answer(cfg, ls, Grown(con, Joined(chunks)), req)
  {
    var uploads := chunks + [[]];
    if chunks == [] {
      assert con.body.Some? ==> con.body.value + [] == con.body.value;
    } else if !Refused405(cfg, req) {
      assert uploads[0] == chunks[0] && uploads[1..] == chunks[1..] + [[]];
      ChunksAndFinal(cfg, ls, Grown(con, chunks[0]), req, chunks[1..]);
      GrownTwice(con, chunks[0], Joined(chunks[1..]));
      assert Calls(cfg, ls, con, req, uploads) == Calls(cfg, ls, Grown(con, chunks[0]), req, uploads[1..]);
    }
  }

  lemma GrownTwice(con: Con, a: seq<byte>, b: seq<byte>)
    requires con.Con?
    ensures Grown(Grown(con, a), b) == Grown(con, a + b)
  {
    if con.body.Some? {
      assert con.body.value + a + b == con.body.value + (a + b);
    }
  }

  predicate SomeListener(ls: seq<Listener>, req: Request) {
    exists l :: l in ls && Matches(l, req.url, ParseMethod(req.name))
  }

  /** Every request, however its body arrives, ends in exactly one of six ways, and these are the
      conditions; a listener runs only with the password, a method that it registered for and, in
      read-only mode, a GET or a HEAD, and it gets the whole body and a NUL. */
  lemma RequestOutcome(cfg: Config, ls: seq<Listener>, req: Request, first: seq<byte>, chunks: seq<seq<byte>>)
    requires [] !in chunks
    ensures var o := Calls(cfg, ls, Unmade, req, [first] + chunks + [[]]);
      var refused := cfg.readOnly && req.name !in {"GET", "HEAD", "OPTIONS"};
      var allowed := !refused && req.name != "OPTIONS" && Accepts(cfg.token, req.header);
      && (o == ReadOnly405 <==> refused)
      && (o == Preflight200 <==> req.name == "OPTIONS")
      && (o == Denied401 <==> !refused && req.name != "OPTIONS" && !Accepts(cfg.token, req.header))
      && (o.Served? <==> allowed && SomeListener(ls, req))
      && (o == HelpPage200 <==> allowed && !SomeListener(ls, req) && req.name in {"GET", "HEAD"} && req.url == "/")
      && (o == Failed500 <==> allowed && !SomeListener(ls, req) && !(req.name in {"GET", "HEAD"} && req.url == "/"))
    ensures var o := Calls(cfg, ls, Unmade, req, [first] + chunks + [[]]);
      o.Served? ==>
        && Chosen(ls, req.url, ParseMethod(req.name)) == Some(o.listener)
        && o.listener.url <= req.url && IsArgument(req.url, |o.listener.url|, o.arg)
        && o.data == Some(Joined(chunks) + [NUL]) && o.bodylen == |Joined(chunks)|
  {
    var uploads := [first] + chunks + [[]];
    assert uploads[1..] == chunks + [[]];
    var con := Call(cfg, ls, Unmade, req, first).0;
    ChunksAndFinal(cfg, ls, con, req, chunks);
    assert con.body.Some? ==> con.body.value + Joined(chunks) == Joined(chunks);
  }

  /** A method that no listener has for the URL: 500, where the documentation says 405. */
  lemma UnlistedMethodIs500(token: seq<byte>, header: seq<byte>, ls: seq<Listener>, url: string)
    requires Accepts(token, Some(header)) && forall l :: l in ls ==> POST !in l.methods
    ensures Calls(Config(token, false), ls, Unmade, Request(url, "POST", Some(header)), [[], []]) == Failed500
  {
    var req := Request(url, "POST", Some(header));
    var none: seq<seq<byte>> := [];
    var empty: seq<byte> := [];
    RequestOutcome(Config(token, false), ls, req, empty, none);
    assert [empty] + none + [empty] == [empty, empty];
    assert ParseMethod("POST") == Some(POST);
  }

  /** libmicrohttpd's part: call after call until there is a response. */
  method Serve(cfg: Config, ls: seq<Listener>, req: Request, uploads: seq<seq<byte>>, plenty: bool)
    returns (o: Outcome)
    ensures o == Calls(cfg, ls, Unmade, req, uploads) || (o == Abort && !plenty)
  {
    var con := new Connection(plenty);
    var i := 0;
    while i < |uploads|
      invariant i <= |uploads| && fresh(con) && con.Valid()
      invariant con.body != null ==> fresh(con.body) && fresh(con.body.buf)
      invariant Calls(cfg, ls, con.View(), req, uploads[i..]) == Calls(cfg, ls, Unmade, req, uploads)
    {
      o := con.AnswerToConnection(cfg, ls, req, uploads[i]);
      if o != More {
        return;
      }
      i := i + 1;
    }
    o := More;
  }

  /** con_info, the way the calls change it. */
  class Connection {
    var made: bool
    var authed: bool
    var body: Vsb.Vsb?
    const plenty: bool            // malloc never fails

    ghost predicate Valid()
      reads this, body
    {
      && (!made ==> body == null && !authed)
      && (body != null ==> Base64.Ready(body) && !body.starved && body.plenty == plenty)
    }

    ghost function View(): Con
      reads this, body, if body == null then {} else {body.buf}
      requires Valid()
    {
      if !made then Unmade else Con(authed, if body == null then None else Some(body.Contents()))
    }

    constructor (plenty: bool)
      ensures Valid() && View() == Unmade && this.plenty == plenty
    {
      made, authed, body := false, false, null;
      this.plenty := plenty;
    }

    /** check_auth(). */
    method CheckAuth(token: seq<byte>, header: Option<seq<byte>>) returns (denied: bool)
      modifies this`authed
      ensures authed == (old(authed) || Accepts(token, header)) && denied == !authed
    {
      if !authed {
        if header.None? || !(BASIC <= header.value) {
          return true;
        }
        var given := header.value[|BASIC|..];
        if CStr(token) == given {
          authed := true;
        }
      }
      denied := !authed;
    }

    method First(token: seq<byte>, header: Option<seq<byte>>)
      requires Valid() && !made
      modifies this
      ensures Valid() && (body != null ==> fresh(body) && fresh(body.buf))
      ensures View() == Con(Accepts(token, header), if Accepts(token, header) then Some([]) else None)
    {
      var denied := CheckAuth(token, header);
      if !denied {
        body := new Vsb.Vsb.Auto(plenty);
      }
      made := true;
    }

    /** VSB_bcat() of a piece of the body; false is the end of a failed assertion. */
    method Collect(upload: seq<byte>) returns (ok: bool)
      requires Valid() && made
      modifies if body == null then {} else {body, body.buf}
      ensures body == old(body) && made && authed == old(authed)
      ensures body != null ==> body.buf == old(body.buf) || fresh(body.buf)
      ensures ok ==> Valid() && View() == Grown(old(View()), upload)
      ensures !ok ==> !plenty
    {
      ok := true;
      if body != null {
        ok := body.Bcat(upload);
        assert upload[..|upload|] == upload;
      }
    }

    /** The body as the listener gets it. */
    method Close() returns (ok: bool, data: Option<seq<byte>>, bodylen: nat)
      requires Valid() && made
      modifies if body == null then {} else {body, body.buf}
      ensures body == old(body) && authed == old(authed) && (!ok ==> !plenty)
      ensures ok && body == null ==> data == None && bodylen == 0
      ensures ok && body != null ==> data == Some(old(body.Contents()) + [NUL]) && bodylen == |old(body.Contents())|
    {
      if body == null {
        return true, None, 0;
      }
      body.PutByte(NUL);
      ok := body.Finish();
      data, bodylen := None, 0;
      if ok {
        data := Some(body.buf[..body.len]);
        bodylen := body.len - 1;
      }
    }

    /** What is left once the body is closed. */
    method Respond(cfg: Config, ls: seq<Listener>, req: Request, data: Option<seq<byte>>, bodylen: nat, ghost con: Con)
      returns (o: Outcome)
      requires con.Con? && con.authed == authed
      requires con.body.None? ==> data == None && bodylen == 0
      requires con.body.Some? ==> data == Some(con.body.value + [NUL]) && bodylen == |con.body.value|
      modifies this`authed
      ensures o == Answer(cfg, ls, con, req)
    {
      var m := ParseMethod(req.name);
      if m == Some(OPTIONS) {
        return Preflight200;
      }
      var denied := CheckAuth(cfg.token, req.header);
      if denied {
        return Denied401;
      }
      var c, arg := FindListener(ls, req.url, m);
      if c.Some? {
        return Served(c.value, arg, data, bodylen);
      }
      if m == Some(GET) && req.url == "/" {
        return HelpPage200;
      }
      o := Failed500;
    }

    /** answer_to_connection(). */
    method AnswerToConnection(cfg: Config, ls: seq<Listener>, req: Request, upload: seq<byte>) returns (o: Outcome)
      requires Valid()
      modifies this, if body == null then {} else {body, body.buf}
      ensures o == Call(cfg, ls, old(View()), req, upload).1 || (o == Abort && !plenty)
      ensures o == More ==> Valid() && View() == Call(cfg, ls, old(View()), req, upload).0
      ensures o == More ==> (body == old(body) || (body != null && fresh(body)))
      ensures o == More && body != null ==> fresh(body.buf) || (old(body) != null && body.buf == old(body.buf))
    {
      if !made {
        First(cfg.token, req.header);
        return More;
      }
      if Refused405(cfg, req) {
        return ReadOnly405;
      }
      if upload != [] {
        var ok := Collect(upload);
        return if ok then More else Abort;
      }
      ghost var con := View();
      var ok, data, bodylen := Close();
      if !ok {
        return Abort;
      }
      o := Respond(cfg, ls, req, data, bodylen, con);
    }
  }
}
