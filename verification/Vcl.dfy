/**
 What the agent keeps on disk of the VCL it handles: `<id>.auto.vcl` for every upload and
 `boot.vcl` for the deployed one, in a directory with hard links.

 Every system call may fail and may be the process's last: `Crash` stands for an agent that
 is gone, with or without the effect of that call. Operations come one at a time, since the
 HTTP thread is the only one that makes them.
 */
module Vcl {
  import opened Bytes
  import opened Inodes

  type Body = seq<byte>

  datatype Errno = Ok | Enoent | Eexist | Eother | Crash

  // ---- Names ------------------------------------------------------------------------

  const BOOT := "boot.vcl"
  const BOOT_TMP := "boot.vcl.tmp"
  const ID_LEN := 256

  function Target(id: string): string { id + ".auto.vcl" }
  function Temp(id: string): string { ".tmp." + id + ".auto.vcl" }

  predicate IsAlnum(c: char) { 'a' <= c <= 'z' || 'A' <= c <= 'Z' || '0' <= c <= '9' }

  /** What vcl_store lets through: no empty id, and only letters, digits and underscores. */
  predicate Ident(id: string) {
    id != "" && forall i :: 0 <= i < |id| ==> IsAlnum(id[i]) || id[i] == '_'
  }

  /** The ident check stops at the first character that does not belong. */
  method ValidCIdent(ident: string) returns (ok: bool)
    ensures ok <==> forall i :: 0 <= i < |ident| ==> IsAlnum(ident[i]) || ident[i] == '_'
  {
    var i := 0;
    while i < |ident|
      invariant i <= |ident| && forall k :: 0 <= k < i ==> IsAlnum(ident[k]) || ident[k] == '_'
    {
      if !IsAlnum(ident[i]) && ident[i] != '_' { return false; }
      i := i + 1;
    }
    return true;
  }

  /** No two of the names the agent uses coincide. */
  lemma NamesDistinct(a: string, b: string)
    requires Ident(a) && Ident(b)
    ensures Target(a) == Target(b) ==> a == b
    ensures Temp(a) == Temp(b) ==> a == b
    ensures Target(a) != Temp(b)
    ensures Target(a) != BOOT && Target(a) != BOOT_TMP
    ensures Temp(a) != BOOT && Temp(a) != BOOT_TMP
  {
    assert Target(a)[..|Target(a)| - 9] == a && Target(b)[..|Target(b)| - 9] == b;
    assert Temp(a)[5..|Temp(a)| - 9] == a && Temp(b)[5..|Temp(b)| - 9] == b;
    assert Target(a)[0] == a[0] && Temp(b)[0] == '.' == Temp(a)[0];
    assert |Target(a)| >= 10;
    assert Target(a)[|Target(a)| - 1] == 'l' && BOOT_TMP[|BOOT_TMP| - 1] == 'p';
  }

  // ---- The file system -----------------------------------------------------------------

  datatype Fs = Fs(names: map<string, Ino>, data: map<Ino, Body>) {
    ghost predicate WellFormed() {
      forall n :: n in names ==> names[n] in data
    }

    ghost function Content(n: string): Option<Body>
      requires WellFormed()
    {
      if n in names then Some(data[names[n]]) else None
    }

    function Unlink(n: string): Fs { this.(names := names - {n}) }

    function Create(n: string, ino: Ino): Fs { Fs(names[n := ino], data[ino := []]) }

    function Write(ino: Ino, text: Body): Fs { this.(data := data[ino := text]) }

    function Link(from: string, to: string): Fs
      requires from in names
    {
      this.(names := names[to := names[from]])
    }

    /** rename(): two names of one file stay as they are. */
    function Rename(from: string, to: string): Fs
      requires from in names
    {
      if to in names && names[to] == names[from] then this
      else this.(names := (names - {from})[to := names[from]])
    }
  }

  /** Nothing changed except, possibly, what the names in `but` stand for. */
  ghost predicate SameExcept(a: Fs, b: Fs, but: set<string>)
    requires a.WellFormed() && b.WellFormed()
  {
    forall n :: n !in but ==> a.Content(n) == b.Content(n)
  }

  /** A file that is being written has no second name. */
  ghost predicate Alone(fs: Fs, n: string) {
    n in fs.names ==> forall m :: m in fs.names && m != n ==> fs.names[m] != fs.names[n]
  }

  /** What vcl_persist can have made of `a` when it stops. */
  ghost predicate Persisted(a: Fs, b: Fs, id: string, text: Body)
    requires a.WellFormed() && b.WellFormed()
  {
    && SameExcept(a, b, {Temp(id), Target(id)})
    && (b.Content(Target(id)) == a.Content(Target(id)) || b.Content(Target(id)) == Some(text))
    && forall n :: n in b.names ==>
         (n in a.names && b.names[n] == a.names[n]) ||
         (n in {Temp(id), Target(id)} && Unused(a, Temp(id), b.names[n]))
  }

  /** No name but `temp` stands for that inode. */
  ghost predicate Unused(fs: Fs, temp: string, ino: Ino) {
    forall m :: m in fs.names && m != temp ==> fs.names[m] != ino
  }

  /** ... and at the stage of its temporary file: no other name, and no other named file, has
      changed. The new file may well have got the inode number of the one just unlinked. */
  ghost predicate Drafting(a: Fs, b: Fs, temp: string) {
    && (forall n :: n != temp ==> (n in a.names <==> n in b.names) && (n in a.names ==> b.names[n] == a.names[n]))
    && (forall n :: n in a.names && n != temp && a.names[n] in a.data ==>
          a.names[n] in b.data && b.data[a.names[n]] == a.data[a.names[n]])
    && Alone(b, temp)
  }

  /** What vcl_persist_active can have made of `a` when it stops: boot.vcl and boot.vcl.tmp are
      what they were, or names of the deployed file, or gone. */
  ghost predicate Activated(a: Fs, b: Fs, id: string) {
    && b.data == a.data
    && (forall n :: n !in {BOOT, BOOT_TMP} ==>
      (n in b.names <==> n in a.names) && (n in b.names ==> b.names[n] == a.names[n]))
    && (forall n :: n in {BOOT, BOOT_TMP} && n in b.names ==>
          (n in a.names && b.names[n] == a.names[n]) ||
          (Target(id) in a.names && b.names[n] == a.names[Target(id)]))
  }

  /**
   The promise to whoever reads the directory: under the final names there are only complete
   texts that varnishd accepted, under `<id>.auto.vcl` one of that id's, under boot.vcl one of
   some id's or the file it was at first. `saved` tells the last accepted text of an id whose
   upload was answered 201.
   */
  ghost predicate Sound(fs: Fs, accepted: set<(string, Body)>, saved: map<string, Body>, given: Option<Body>) {
    && fs.WellFormed()
    && (forall id {:trigger Target(id)} :: Ident(id) && Target(id) in fs.names ==>
          (id, fs.data[fs.names[Target(id)]]) in accepted)
    && (BOOT in fs.names ==>
          fs.Content(BOOT) == given || exists id :: (id, fs.data[fs.names[BOOT]]) in accepted)
    && (forall id {:trigger Temp(id)} :: Ident(id) ==> Alone(fs, Temp(id)))
    && (forall id :: id in saved ==> Ident(id) && fs.Content(Target(id)) == Some(saved[id]))
  }

  lemma PersistedIsSound(a: Fs, b: Fs, accepted: set<(string, Body)>, saved: map<string, Body>, given: Option<Body>,
                         id: string, text: Body)
    requires Sound(a, accepted, saved, given) && b.WellFormed()
    requires Ident(id) && (id, text) in accepted && id !in saved
    requires Persisted(a, b, id, text) && Alone(b, Temp(id))
    ensures Sound(b, accepted, saved, given)
  {
    NamesDistinct(id, id);
    assert b.Content(BOOT) == a.Content(BOOT);
    forall x {:trigger Target(x)} | Ident(x) && Target(x) in b.names
      ensures (x, b.data[b.names[Target(x)]]) in accepted
    {
      NamesDistinct(x, id);
      if x != id { assert b.Content(Target(x)) == a.Content(Target(x)); }
    }
    forall x {:trigger Temp(x)} | Ident(x) ensures Alone(b, Temp(x)) {
      NamesDistinct(x, id);
      NamesDistinct(id, x);
      assert Alone(a, Temp(x));
    }
    forall x | x in saved ensures b.Content(Target(x)) == Some(saved[x]) {
      NamesDistinct(x, id);
      assert b.Content(Target(x)) == a.Content(Target(x));
    }
  }

  /** An upload accepted and, as far as it got, persisted. */
  lemma StoredIsSound(a: Fs, b: Fs, accepted: set<(string, Body)>, saved: map<string, Body>, given: Option<Body>,
                      id: string, text: Body, done: bool)
    requires Sound(a, accepted, saved, given) && b.WellFormed()
    requires Ident(id) && Persisted(a, b, id, text) && Alone(b, Temp(id))
    requires done ==> b.Content(Target(id)) == Some(text)
    ensures Sound(b, accepted + {(id, text)}, if done then saved[id := text] else saved - {id}, given)
  {
    assert Sound(a, accepted + {(id, text)}, saved - {id}, given);
    PersistedIsSound(a, b, accepted + {(id, text)}, saved - {id}, given, id, text);
  }

  lemma ActivatedIsSound(a: Fs, b: Fs, accepted: set<(string, Body)>, saved: map<string, Body>, given: Option<Body>,
                         id: string)
    requires Sound(a, accepted, saved, given) && b.WellFormed()
    requires Ident(id) && Activated(a, b, id)
    ensures Sound(b, accepted, saved, given)
  {
    forall x {:trigger Target(x)} | Ident(x) && Target(x) in b.names
      ensures (x, b.data[b.names[Target(x)]]) in accepted
    {
      NamesDistinct(x, id);
    }
    forall x {:trigger Temp(x)} | Ident(x) ensures Alone(b, Temp(x)) {
      NamesDistinct(x, id);
      NamesDistinct(id, x);
      assert Alone(a, Temp(x));
    }
    forall x | x in saved ensures b.Content(Target(x)) == Some(saved[x]) {
      NamesDistinct(x, id);
    }
  }

  /** boot.vcl is a link to a.auto.vcl already: link() and rename() leave boot.vcl.tmp behind. */
  lemma RedeployLeavesTemp()
    ensures var fs := Fs(map[Target("a") := 1, BOOT := 1], map[1 := [65]]);
      BOOT_TMP !in fs.names && fs.Link(Target("a"), BOOT_TMP).Rename(BOOT_TMP, BOOT).names[BOOT_TMP] == 1
  {
    NamesDistinct("a", "a");
  }

  // ---- The operations --------------------------------------------------------------------

  datatype Answer = Status(code: nat) | Gone

  /** What becomes of one system call: it works, it fails for a reason of its own, or the process is
      gone, with or without the call's effect. */
  datatype Verdict = Works | Fails | Dies(done: bool)

  /** The calls of vcl_persist(), write() standing for fsync() and close() as well. */
  datatype Storing = Storing(unlink: Verdict, open: Verdict, write: Verdict, rename: Verdict) {
    predicate AllWork() { unlink.Works? && open.Works? && write.Works? && rename.Works? }

    /** A failed write() aborts the agent. */
    predicate Deadly() { unlink.Dies? || open.Dies? || !write.Works? || rename.Dies? }

    /** The temporary file is written and gets its final name, whether or not the agent lives to see it. */
    predicate Places() { unlink.Works? && open.Works? && write.Works? && rename in {Works, Dies(true)} }
  }

  /** The calls of vcl_persist_active(); `regular` is stat() working and finding a regular file. */
  datatype Deploying = Deploying(regular: bool, unlink: Verdict, link: Verdict, rename: Verdict) {
    predicate AllWork() { regular && unlink.Works? && link.Works? && rename.Works? }

    predicate Deadly() { unlink.Dies? || link.Dies? || rename.Dies? }
  }

  /** `compiles` and `usable` are varnishd's answers to vcl.inline and vcl.use being 200, `status` is its
      answer to vcl.discard. */
  datatype Request =
    | Upload(arg: Option<string>, body: Body, compiles: bool, storing: Storing)
    | Deploy(id: string, usable: bool, deploying: Deploying)
    | Discard(id: string, status: nat)

  /** Where a run of requests begins. */
  datatype History = History(loaded: set<string>, names: set<string>, saved: map<string, Body>, boot: Option<Body>)

  class Agent {
    var fs: Fs
    var loaded: set<string>                        // what varnishd has compiled, by name
    ghost var accepted: set<(string, Body)>        // every upload that varnishd ever accepted
    ghost var saved: map<string, Body>             // last accepted upload, if answered 201
    ghost const given: Option<Body>                // boot.vcl as it was found

    ghost predicate Valid()
      reads this
    {
      Sound(fs, accepted, saved, given) && forall id :: id in loaded ==> Ident(id)
    }

    /** A directory left by earlier runs: complete files under final names, anything elsewhere. */
    constructor (fs: Fs, loaded: set<string>, ghost earlier: set<(string, Body)>)
      requires fs.WellFormed() && forall id :: id in loaded ==> Ident(id)
      requires forall id {:trigger Target(id)} :: Ident(id) && Target(id) in fs.names ==>
        (id, fs.data[fs.names[Target(id)]]) in earlier
      requires forall id {:trigger Temp(id)} :: Ident(id) ==> Alone(fs, Temp(id))
      ensures Valid() && this.fs == fs && this.loaded == loaded && accepted == earlier && saved == map[]
      ensures given == fs.Content(BOOT)
    {
      this.fs, this.loaded, this.accepted, this.saved := fs, loaded, earlier, map[];
      this.given := fs.Content(BOOT);
    }

    // -- system calls: each may fail, and each may be the last

    method Unlink(n: string, v: Verdict) returns (e: Errno)
      modifies this`fs
      ensures fs == old(fs) || fs == old(fs).Unlink(n)
      ensures v.Works? ==> e == if n in old(fs).names then Ok else Enoent
      ensures v.Fails? ==> e == Eother
      ensures v.Dies? ==> e == Crash
      ensures e == Ok ==> fs == old(fs).Unlink(n)
      ensures e == Enoent || e == Eother ==> fs == old(fs)
    {
      e := if v.Fails? then Eother else if n in fs.names then Ok else Enoent;
      if e == Ok && v != Dies(false) { fs := fs.Unlink(n); }
      if v.Dies? { e := Crash; }
    }

    /** open(n, O_CREAT | O_WRONLY | O_TRUNC | O_EXCL): any inode number not in use. */
    method OpenExclusive(n: string, v: Verdict) returns (e: Errno, ino: Ino)
      modifies this`fs
      ensures ino !in old(fs).names.Values
      ensures fs == old(fs) || (n !in old(fs).names && fs == old(fs).Create(n, ino))
      ensures v.Works? ==> e == if n in old(fs).names then Eexist else Ok
      ensures v.Fails? ==> e == if n in old(fs).names then Eexist else Eother
      ensures v.Dies? ==> e == Crash
      ensures e == Ok ==> fs == old(fs).Create(n, ino)
      ensures e == Eother || e == Eexist ==> fs == old(fs)
    {
      ino := Fresh(fs.names.Values);
      e := if n in fs.names then Eexist else if v.Fails? then Eother else Ok;
      if e == Ok && v != Dies(false) { fs := fs.Create(n, ino); }
      if v.Dies? { e := Crash; }
    }

    /** write(fd, text, len), fsync(fd), close(fd). A failure of any of them aborts the agent,
        and so does an empty text; what is on disk then is some first part of it. */
    method WriteAll(ino: Ino, text: Body, v: Verdict) returns (e: Errno)
      modifies this`fs
      ensures e == if v.Works? && text != [] then Ok else Crash
      ensures e == Ok ==> fs == old(fs).Write(ino, text)
      ensures fs == old(fs) || exists k :: 0 <= k <= |text| && fs == old(fs).Write(ino, text[..k])
    {
      var k: int := *;
      if v.Works? || k < 0 || k > |text| { k := |text|; }
      fs := fs.Write(ino, text[..k]);
      e := if v.Works? && text != [] then Ok else Crash;
      assert text[..|text|] == text;
    }

    method Rename(from: string, to: string, v: Verdict) returns (e: Errno)
      modifies this`fs
      ensures fs == old(fs) || (from in old(fs).names && fs == old(fs).Rename(from, to))
      ensures v.Works? ==> e == if from in old(fs).names then Ok else Enoent
      ensures v.Fails? ==> e == if from in old(fs).names then Eother else Enoent
      ensures v.Dies? ==> e == Crash
      ensures e == Ok || (from in old(fs).names && v == Dies(true)) ==> fs == old(fs).Rename(from, to)
      ensures e == Eother || e == Enoent || v == Dies(false) ==> fs == old(fs)
    {
      e := if from !in fs.names then Enoent else if v.Fails? then Eother else Ok;
      if e == Ok && v != Dies(false) { fs := fs.Rename(from, to); }
      if v.Dies? { e := Crash; }
    }

    method Link(from: string, to: string, v: Verdict) returns (e: Errno)
      modifies this`fs
      ensures fs == old(fs) || (from in old(fs).names && to !in old(fs).names && fs == old(fs).Link(from, to))
      ensures from in old(fs).names && to !in old(fs).names ==>
        e == match v case Works => Ok case Fails => Eother case Dies(_) => Crash
      ensures e == Ok ==> from in old(fs).names && to !in old(fs).names && fs == old(fs).Link(from, to)
      ensures e == Crash <==> v.Dies?
      ensures e == Eexist ==> to in old(fs).names
      ensures e == Eother || e == Enoent || e == Eexist ==> fs == old(fs)
    {
      e := if from !in fs.names then Enoent else if to in fs.names then Eexist else if v.Fails? then Eother else Ok;
      if e == Ok && v != Dies(false) { fs := fs.Link(from, to); }
      if v.Dies? { e := Crash; }
    }

    // -- vcl.c

    /** unlink() and open(): afterwards the temporary name is gone, or stands for a file of its own. */
    method Draft(id: string, unlink: Verdict, open: Verdict) returns (e: Errno, ino: Ino)
      requires fs.WellFormed() && Alone(fs, Temp(id))
      modifies this`fs
      ensures fs.WellFormed() && Drafting(old(fs), fs, Temp(id)) && e in {Ok, Eother, Crash}
      ensures e == Ok ==> Temp(id) in fs.names && fs.names[Temp(id)] == ino
      ensures e == Ok <==> unlink.Works? && open.Works?
      ensures e == Crash ==> unlink.Dies? || open.Dies?
    {
      e := Unlink(Temp(id), unlink);
      ino := 0;
      if e == Ok || e == Enoent {
        e, ino := OpenExclusive(Temp(id), open);
      }
    }

    /** vcl_persist(). Wherever it stops, only the temporary file and the target can have
        changed, the target only from what it was to the whole text, and never by writing to a
        file that another name reaches. open() never finds the temporary name taken. It succeeds
        exactly if there is a text and every call works. */
    method Persist(id: string, text: Body, k: Storing) returns (e: Errno)
      requires Ident(id) && fs.WellFormed() && Alone(fs, Temp(id))
      modifies this`fs
      ensures fs.WellFormed() && Alone(fs, Temp(id)) && Persisted(old(fs), fs, id, text)
      ensures e == Ok ==> fs.Content(Target(id)) == Some(text) && Temp(id) !in fs.names
      ensures e == Ok <==> text != [] && k.AllWork()
      ensures e == Crash ==> text == [] || k.Deadly()
      ensures e in {Ok, Eother, Crash}
      ensures Target(id) in fs.names <==> Target(id) in old(fs).names || (text != [] && k.Places())
    {
      NamesDistinct(id, id);
      var ino;
      e, ino := Draft(id, k.unlink, k.open);
      if e != Ok { return; }
      e := WriteAll(ino, text, k.write);
      if e != Ok { return; }
      e := Rename(Temp(id), Target(id), k.rename);
    }

    /** vcl_push() and vcl_store(). 201 means the text is on disk, complete, under its name;
        whatever the answer, every other name keeps its bytes. The answer is 201 exactly if the upload
        is taken, has a text, and every call works. */
    method Push(arg: Option<string>, body: Body, compiles: bool, k: Storing) returns (a: Answer)
      requires Valid()
      modifies this
      ensures Valid()
      ensures a == Status(201) <==> Taken(Cut(arg), body, compiles) && CStr(body) != [] && k.AllWork()
      ensures a == Gone ==> Taken(Cut(arg), body, compiles) && (CStr(body) == [] || k.Deadly())
      ensures !Taken(Cut(arg), body, compiles) ==>
        fs == old(fs) && accepted == old(accepted) && saved == old(saved) && loaded == old(loaded)
      ensures !Taken(Cut(arg), body, compiles) ==> a == if arg == Some("") then Status(400) else Status(500)
      ensures Taken(Cut(arg), body, compiles) ==>
        accepted == old(accepted) + {(Cut(arg), CStr(body))} && loaded == old(loaded) + {Cut(arg)}
      ensures Taken(Cut(arg), body, compiles) ==> Persisted(old(fs), fs, Cut(arg), CStr(body))
      ensures Taken(Cut(arg), body, compiles) ==> a in {Status(201), Status(500), Gone}
      ensures Taken(Cut(arg), body, compiles) ==>
        saved == if a == Status(201) then old(saved)[Cut(arg) := CStr(body)] else old(saved) - {Cut(arg)}
      ensures a == Status(201) ==> fs.Content(Target(Cut(arg))) == Some(CStr(body))
      ensures Taken(Cut(arg), body, compiles) ==>
        (Target(Cut(arg)) in fs.names <==> Target(Cut(arg)) in old(fs).names || (CStr(body) != [] && k.Places()))
    {
      var id := Cut(arg);
      if |id| == 0 { return Status(400); }
      if |body| == 0 { return Status(500); }
      var ok := ValidCIdent(id);
      if !ok || !compiles { return Status(500); }
      a := Store(id, body, k);
    }

    /** The rest of vcl_store(), varnishd having accepted the upload. */
    method Store(id: string, body: Body, k: Storing) returns (a: Answer)
      requires Valid() && Ident(id)
      modifies this
      ensures Valid()
      ensures a == Status(201) <==> CStr(body) != [] && k.AllWork()
      ensures a == Gone ==> CStr(body) == [] || k.Deadly()
      ensures Target(id) in fs.names <==> Target(id) in old(fs).names || (CStr(body) != [] && k.Places())
      ensures accepted == old(accepted) + {(id, CStr(body))} && loaded == old(loaded) + {id}
      ensures Persisted(old(fs), fs, id, CStr(body))
      ensures a in {Status(201), Status(500), Gone}
      ensures a == Status(201) ==> fs.Content(Target(id)) == Some(CStr(body)) && saved == old(saved)[id := CStr(body)]
      ensures a != Status(201) ==> saved == old(saved) - {id}
    {
      var text := CStr(body);
      ghost var before := fs;
      loaded := loaded + {id};
      var e := Persist(id, text, k);
      StoredIsSound(before, fs, accepted, saved, given, id, text, e == Ok);
      accepted := accepted + {(id, text)};
      saved := if e == Ok then saved[id := text] else saved - {id};
      if e == Crash { return Gone; }
      return if e == Ok then Status(201) else Status(500);
    }

    /** vcl_persist_active(). Wherever it stops, boot.vcl is what it was or the whole of the
        deployed file, nothing else but boot.vcl.tmp has changed, and link() has not found
        boot.vcl.tmp in its way, whatever an earlier deploy left behind. It succeeds exactly if the
        target is there, is a regular file, and every call works. */
    method PersistActive(id: string, k: Deploying) returns (e: Errno)
      requires fs.WellFormed() && Ident(id)
      modifies this`fs
      ensures fs.WellFormed() && Activated(old(fs), fs, id)
      ensures BOOT in old(fs.names) ==> BOOT in fs.names
      ensures e == Ok ==> Target(id) in fs.names && BOOT in fs.names && fs.names[BOOT] == fs.names[Target(id)]
      // Deploying again what boot.vcl already is makes rename() do nothing: only then a leftover stays.
      ensures e == Ok ==> (BOOT_TMP in fs.names <==>
        BOOT in old(fs.names) && old(fs.names[BOOT]) == fs.names[Target(id)])
      ensures e == Ok <==> Target(id) in old(fs).names && k.AllWork()
      ensures e == Crash ==> k.Deadly()
      ensures e in {Ok, Eother, Crash}
    {
      NamesDistinct(id, id);
      if Target(id) !in fs.names || !k.regular { return Eother; }
      e := Unlink(BOOT_TMP, k.unlink);
      if e != Ok && e != Enoent { return; }
      e := Link(Target(id), BOOT_TMP, k.link);
      if e != Ok { return; }
      e := Rename(BOOT_TMP, BOOT, k.rename);
    }

    /** vcl_deploy(). 200 means boot.vcl now holds what was last uploaded under that name, if that
        upload was answered 201; whatever the answer, boot.vcl does not disappear. The answer is 200
        exactly if varnishd uses the name, its file is there, and every call works. */
    method UseVcl(id: string, usable: bool, k: Deploying) returns (a: Answer)
      requires Valid()
      modifies this`fs
      ensures Valid()
      ensures a == Status(200) <==> usable && id in loaded && Target(id) in old(fs).names && k.AllWork()
      ensures a == Gone ==> k.Deadly()
      ensures SameExcept(old(fs), fs, {BOOT, BOOT_TMP})
      ensures fs.Content(BOOT) == old(fs.Content(BOOT)) || fs.Content(BOOT) == old(fs.Content(Target(id)))
      ensures old(fs.Content(BOOT)).Some? ==> fs.Content(BOOT).Some?
      ensures a in {Status(200), Status(500), Gone}
      ensures a == Status(200) ==> fs.Content(BOOT).Some? && fs.Content(BOOT) == fs.Content(Target(id))
      ensures a == Status(200) && id in saved ==> fs.Content(BOOT) == Some(saved[id])
    {
      if !usable || id !in loaded { return Status(500); }
      ghost var before := fs;
      NamesDistinct(id, id);
      var e := PersistActive(id, k);
      ActivatedIsSound(before, fs, accepted, saved, given, id);
      if e == Crash { return Gone; }
      if e != Ok { return Status(500); }
      return Status(200);
    }

    /** vcl_delete(): varnishd forgets the name if it says 200; the files stay. */
    method Forget(id: string, status: nat) returns (a: Answer)
      requires Valid()
      modifies this`loaded
      ensures Valid() && loaded == if status == 200 then old(loaded) - {id} else old(loaded)
      ensures a == if status in {400, 106} then Status(500) else Status(200)
    {
      if status == 200 {
        loaded := loaded - {id};
      }
      return if status == 400 || status == 106 then Status(500) else Status(200);
    }

    /** Any run of requests, each possibly cut short by a crash and followed by a restart: what the
        answers promise is on disk at its end, and the answers are the ones that the calls' verdicts
        allow, and no others. */
    method Serve(requests: seq<Request>) returns (answers: seq<Answer>)
      requires Valid()
      modifies this
      ensures Valid() && |answers| == |requests|
      ensures forall k :: 0 <= k < |requests| && requests[k].Upload? && answers[k] == Status(201) ==> Lands(requests[k])
      ensures forall k :: 0 <= k < |requests| && Stands(requests, answers, k, |requests|) ==>
        fs.Content(Target(Cut(requests[k].arg))) == Some(CStr(requests[k].body))
      ensures forall k, i :: 0 <= k < i < |requests| && Booted(requests, answers, k, i) ==>
        fs.Content(BOOT) == Some(CStr(requests[k].body))
      ensures (forall i :: 0 <= i < |requests| ==> !requests[i].Deploy?) ==> fs.Content(BOOT) == old(fs.Content(BOOT))
      ensures old(accepted) <= accepted
      ensures old(fs.Content(BOOT)).Some? ==> fs.Content(BOOT).Some?
      ensures RightAnswers(old(loaded), old(fs.names.Keys), requests, answers)
    {
      answers := HandleAll(requests);
      forall k | 0 <= k < |requests| && Stands(requests, answers, k, |requests|)
        ensures fs.Content(Target(Cut(requests[k].arg))) == Some(CStr(requests[k].body))
      {
        LastUploadIsSaved(old(saved), requests, answers, k);
      }
      forall k, i | 0 <= k < i < |requests| && Booted(requests, answers, k, i)
        ensures fs.Content(BOOT) == Some(CStr(requests[k].body))
      {
        LastDeployIsBooted(old(saved), requests, answers, k, i);
      }
    }

    method HandleAll(requests: seq<Request>) returns (answers: seq<Answer>)
      requires Valid()
      modifies this
      ensures Valid() && old(accepted) <= accepted
      ensures Promised(old(saved), old(fs.Content(BOOT)), requests, answers, saved, fs.Content(BOOT))
      ensures old(fs.Content(BOOT)).Some? ==> fs.Content(BOOT).Some?
      ensures RightAnswers(old(loaded), old(fs.names.Keys), requests, answers)
    {
      ghost var h := History(loaded, fs.names.Keys, saved, fs.Content(BOOT));
      answers := [];
      for i := 0 to |requests|
        invariant Valid() && old(accepted) <= accepted
        invariant Follows(h, requests[..i], answers)
        invariant old(fs.Content(BOOT)).Some? ==> fs.Content(BOOT).Some?
      {
        var a := HandleNext(requests[i], h, requests[..i], answers);
        assert requests[..i + 1] == requests[..i] + [requests[i]];
        answers := answers + [a];
      }
      assert requests[..|requests|] == requests;
    }

    /** The state and the answers are what the requests so far make of the beginning. */
    ghost predicate Follows(h: History, rs: seq<Request>, answers: seq<Answer>)
      reads this
      requires Valid()
    {
      && Promised(h.saved, h.boot, rs, answers, saved, fs.Content(BOOT))
      && Tracks(h.loaded, h.names, rs) && RightAnswers(h.loaded, h.names, rs, answers)
    }

    method HandleNext(r: Request, ghost h: History, ghost rs: seq<Request>, ghost answers: seq<Answer>)
      returns (a: Answer)
      requires Valid() && Follows(h, rs, answers)
      modifies this
      ensures Valid() && Follows(h, rs + [r], answers + [a]) && old(accepted) <= accepted
      ensures old(fs.Content(BOOT)).Some? ==> fs.Content(BOOT).Some?
    {
      ghost var was, boot := saved, fs.Content(BOOT);
      a := Handle(r, h.loaded, h.names, rs);
      PromisedMore(h.saved, h.boot, rs, answers, was, boot, r, a, saved, fs.Content(BOOT));
      AnsweredMore(h.loaded, h.names, rs, answers, r, a);
    }

    /** What is loaded, and which targets there are, as the requests so far tell. */
    ghost predicate Tracks(start: set<string>, names: set<string>, rs: seq<Request>)
      reads this
    {
      && loaded == LoadedBy(start, rs)
      && forall id :: Ident(id) ==> (Target(id) in fs.names <==> Placed(names, rs, id))
    }

    /** One request. */
    method Handle(r: Request, ghost start: set<string>, ghost names: set<string>, ghost rs: seq<Request>)
      returns (a: Answer)
      requires Valid() && Tracks(start, names, rs)
      modifies this
      ensures Tracks(start, names, rs + [r]) && RightAnswer(start, names, rs, r, a)
      ensures Valid() && saved == SavedStep(old(saved), r, a)
      ensures r.Upload? && a == Status(201) ==> Lands(r)
      ensures !r.Deploy? ==> fs.Content(BOOT) == old(fs.Content(BOOT))
      ensures r.Deploy? && a == Status(200) && r.id in saved ==> fs.Content(BOOT) == Some(saved[r.id])
      ensures old(accepted) <= accepted
      ensures old(fs.Content(BOOT)).Some? ==> fs.Content(BOOT).Some?
    {
      a := Status(200);
      match r {
        case Upload(_, _, _, _) => a := HandleUpload(r);
        case Deploy(_, _, _) => a := HandleDeploy(r);
        case Discard(id, status) => a := Forget(id, status);
      }
      TracksMore(start, names, rs, r);
    }

    method HandleUpload(r: Request) returns (a: Answer)
      requires Valid() && r.Upload?
      modifies this
      ensures Valid() && saved == SavedStep(old(saved), r, a)
      ensures a == Status(201) <==> Lands(r) && CStr(r.body) != [] && r.storing.AllWork()
      ensures a == Gone ==> Lands(r) && (CStr(r.body) == [] || r.storing.Deadly())
      ensures !Lands(r) ==> a == if r.arg == Some("") then Status(400) else Status(500)
      ensures loaded == if Lands(r) then old(loaded) + {Cut(r.arg)} else old(loaded)
      ensures forall id :: Ident(id) ==> (Target(id) in fs.names <==> Target(id) in old(fs.names) || Places(r, id))
      ensures fs.Content(BOOT) == old(fs.Content(BOOT)) && old(accepted) <= accepted
    {
      ghost var was := fs;
      if Ident(Cut(r.arg)) { NamesDistinct(Cut(r.arg), Cut(r.arg)); }
      a := Push(r.arg, r.body, r.compiles, r.storing);
      if Lands(r) { TargetsKept(was, fs, Cut(r.arg)); }
    }

    method HandleDeploy(r: Request) returns (a: Answer)
      requires Valid() && r.Deploy?
      modifies this`fs
      ensures Valid() && a in {Status(200), Status(500), Gone}
      ensures a == Status(200) <==>
        r.usable && r.id in loaded && Target(r.id) in old(fs.names) && r.deploying.AllWork()
      ensures a == Gone ==> r.deploying.Deadly()
      ensures forall id :: Ident(id) ==> (Target(id) in fs.names <==> Target(id) in old(fs.names))
      ensures a == Status(200) && r.id in saved ==> fs.Content(BOOT) == Some(saved[r.id])
      ensures old(fs.Content(BOOT)).Some? ==> fs.Content(BOOT).Some?
    {
      ghost var was := fs;
      a := UseVcl(r.id, r.usable, r.deploying);
      TargetsStay(was, fs);
    }
  }

  // ---- What the answers of a run promise ------------------------------------------------------

  /** An upload that gets as far as the disk. */
  predicate Lands(r: Request) { r.Upload? && Taken(Cut(r.arg), r.body, r.compiles) }

  /** An upload changes no other target. */
  lemma TargetsKept(a: Fs, b: Fs, id: string)
    requires a.WellFormed() && b.WellFormed() && Ident(id) && SameExcept(a, b, {Temp(id), Target(id)})
    ensures forall x :: Ident(x) && x != id ==> (Target(x) in a.names <==> Target(x) in b.names)
  {
    forall x | Ident(x) && x != id ensures Target(x) in a.names <==> Target(x) in b.names {
      NamesDistinct(x, id);
      assert a.Content(Target(x)) == b.Content(Target(x));
    }
  }

  /** A deploy changes none. */
  lemma TargetsStay(a: Fs, b: Fs)
    requires a.WellFormed() && b.WellFormed() && SameExcept(a, b, {BOOT, BOOT_TMP})
    ensures forall x :: Ident(x) ==> (Target(x) in a.names <==> Target(x) in b.names)
  {
    forall x | Ident(x) ensures Target(x) in a.names <==> Target(x) in b.names {
      NamesDistinct(x, x);
      assert a.Content(Target(x)) == b.Content(Target(x));
    }
  }

  /** What varnishd has loaded after a run of requests. */
  function LoadedBy(start: set<string>, rs: seq<Request>): set<string> {
    if rs == [] then start
    else
      var r, before := rs[|rs| - 1], LoadedBy(start, rs[..|rs| - 1]);
      if Lands(r) then before + {Cut(r.arg)}
      else if r.Discard? && r.status == 200 then before - {r.id}
      else before
  }

  /** An upload of that name that gets as far as its final name. */
  predicate Places(r: Request, id: string) {
    Lands(r) && Cut(r.arg) == id && CStr(r.body) != [] && r.storing.Places()
  }

  /** The name's file is on disk: it was there at first, or an upload has put it there. */
  ghost predicate Placed(names: set<string>, rs: seq<Request>, id: string) {
    Target(id) in names || exists k :: 0 <= k < |rs| && Places(rs[k], id)
  }

  /** The answer to a request, after a run of others, is good exactly if nothing stands against it. */
  ghost predicate RightAnswer(start: set<string>, names: set<string>, rs: seq<Request>, r: Request, a: Answer) {
    match r
    case Upload(arg, body, compiles, k) =>
      && (a == Status(201) <==> Lands(r) && CStr(body) != [] && k.AllWork())
      && (a == Gone ==> Lands(r) && (CStr(body) == [] || k.Deadly()))
      && (!Lands(r) ==> a == if arg == Some("") then Status(400) else Status(500))
    case Deploy(id, usable, k) =>
      && (a == Status(200) <==> usable && id in LoadedBy(start, rs) && Placed(names, rs, id) && k.AllWork())
      && (a == Gone ==> k.Deadly()) && a in {Status(200), Status(500), Gone}
    case Discard(_, status) => a == if status in {400, 106} then Status(500) else Status(200)
  }

  ghost predicate RightAnswers(start: set<string>, names: set<string>, rs: seq<Request>, answers: seq<Answer>) {
    |rs| == |answers| && forall i :: 0 <= i < |rs| ==> RightAnswer(start, names, rs[..i], rs[i], answers[i])
  }

  lemma AnsweredMore(start: set<string>, names: set<string>, rs: seq<Request>, answers: seq<Answer>,
                     r: Request, a: Answer)
    requires RightAnswers(start, names, rs, answers) && RightAnswer(start, names, rs, r, a)
    ensures RightAnswers(start, names, rs + [r], answers + [a])
  {
    var all := rs + [r];
    forall i | 0 <= i < |all| ensures RightAnswer(start, names, all[..i], all[i], (answers + [a])[i]) {
      assert all[..i] == rs[..i];
    }
    assert all[..|rs|] == rs;
  }

  lemma TracksMore(start: set<string>, names: set<string>, rs: seq<Request>, r: Request)
    ensures LoadedBy(start, rs + [r]) ==
      if Lands(r) then LoadedBy(start, rs) + {Cut(r.arg)}
      else if r.Discard? && r.status == 200 then LoadedBy(start, rs) - {r.id}
      else LoadedBy(start, rs)
    ensures forall id :: Placed(names, rs + [r], id) <==> Placed(names, rs, id) || Places(r, id)
  {
    var all := rs + [r];
    assert all[..|rs|] == rs;
    forall id ensures Placed(names, all, id) <==> Placed(names, rs, id) || Places(r, id) {
      if Places(r, id) { assert Places(all[|rs|], id); }
      if k :| 0 <= k < |rs| && Places(rs[k], id) { assert Places(all[k], id); }
    }
  }

  /** Where no call fails, a name that was uploaded and not discarded since can be deployed. */
  lemma {:induction false} UploadedIsDeployable(start: set<string>, names: set<string>, rs: seq<Request>, k: nat,
                                               id: string)
    requires k < |rs| && Lands(rs[k]) && Cut(rs[k].arg) == id && CStr(rs[k].body) != [] && rs[k].storing.AllWork()
    requires forall j :: k < j < |rs| && rs[j].Discard? && rs[j].id == id ==> rs[j].status != 200
    ensures id in LoadedBy(start, rs) && Placed(names, rs, id)
  {
    var n := |rs| - 1;
    assert Places(rs[k], id);
    if k < n {
      UploadedIsDeployable(start, names, rs[..n], k, id);
    }
  }

  /** One more request with its answer: the text that a 201 is about is saved under its name, and
      an upload that got as far as the disk without a 201 leaves nothing to rely on there. */
  function SavedStep(saved: map<string, Body>, r: Request, a: Answer): map<string, Body> {
    if Lands(r) then
      if a == Status(201) then saved[Cut(r.arg) := CStr(r.body)] else saved - {Cut(r.arg)}
    else saved
  }

  function SavedBy(start: map<string, Body>, rs: seq<Request>, answers: seq<Answer>): map<string, Body>
    requires |rs| == |answers|
  {
    var n := |rs| - 1;
    if rs == [] then start else SavedStep(SavedBy(start, rs[..n], answers[..n]), rs[n], answers[n])
  }

  /** The text that the last deploy has put into boot.vcl, if it was answered 200 and its text is known. */
  function BootStep(saved: map<string, Body>, boot: Option<Body>, r: Request, a: Answer): Option<Body> {
    if !r.Deploy? then boot
    else if a == Status(200) && r.id in saved then Some(saved[r.id])
    else None
  }

  function BootBy(start: map<string, Body>, rs: seq<Request>, answers: seq<Answer>): Option<Body>
    requires |rs| == |answers|
  {
    var n := |rs| - 1;
    if rs == [] then None
    else BootStep(SavedBy(start, rs[..n], answers[..n]), BootBy(start, rs[..n], answers[..n]), rs[n], answers[n])
  }

  lemma RunAppend(start: map<string, Body>, rs: seq<Request>, answers: seq<Answer>, r: Request, a: Answer)
    requires |rs| == |answers|
    ensures SavedBy(start, rs + [r], answers + [a]) == SavedStep(SavedBy(start, rs, answers), r, a)
    ensures BootBy(start, rs + [r], answers + [a])
      == BootStep(SavedBy(start, rs, answers), BootBy(start, rs, answers), r, a)
  {
    assert (rs + [r])[..|rs|] == rs && (answers + [a])[..|rs|] == answers;
    SavedLast(start, rs + [r], answers + [a], rs, answers);
    BootLast(start, rs + [r], answers + [a], rs, answers);
  }

  lemma SavedLast(start: map<string, Body>, all: seq<Request>, given: seq<Answer>,
                  rs: seq<Request>, answers: seq<Answer>)
    requires |all| == |given| > 0 && rs == all[..|all| - 1] && answers == given[..|all| - 1]
    ensures SavedBy(start, all, given) == SavedStep(SavedBy(start, rs, answers), all[|rs|], given[|rs|])
  {
  }

  lemma BootLast(start: map<string, Body>, all: seq<Request>, given: seq<Answer>,
                 rs: seq<Request>, answers: seq<Answer>)
    requires |all| == |given| > 0 && rs == all[..|all| - 1] && answers == given[..|all| - 1]
    ensures BootBy(start, all, given)
      == BootStep(SavedBy(start, rs, answers), BootBy(start, rs, answers), all[|rs|], given[|rs|])
  {
  }

  /** What a run of requests and their answers says of the saved texts and of boot.vcl's content. */
  ghost predicate Promised(start: map<string, Body>, first: Option<Body>, rs: seq<Request>, answers: seq<Answer>,
                           saved: map<string, Body>, boot: Option<Body>)
  {
    && |rs| == |answers| && saved == SavedBy(start, rs, answers)
    && (var last := BootBy(start, rs, answers); last.Some? ==> boot == last)
    && ((forall k :: 0 <= k < |rs| ==> !rs[k].Deploy?) ==> boot == first)
    && forall k :: 0 <= k < |rs| && rs[k].Upload? && answers[k] == Status(201) ==> Lands(rs[k])
  }

  lemma PromisedMore(start: map<string, Body>, first: Option<Body>, rs: seq<Request>, answers: seq<Answer>,
                     saved: map<string, Body>, boot: Option<Body>, r: Request, a: Answer,
                     saved': map<string, Body>, boot': Option<Body>)
    requires Promised(start, first, rs, answers, saved, boot) && saved' == SavedStep(saved, r, a)
    requires r.Upload? && a == Status(201) ==> Lands(r)
    requires !r.Deploy? ==> boot' == boot
    requires r.Deploy? && a == Status(200) && r.id in saved' ==> boot' == Some(saved'[r.id])
    ensures Promised(start, first, rs + [r], answers + [a], saved', boot')
  {
    RunAppend(start, rs, answers, r, a);
    var all := rs + [r];
    if forall k :: 0 <= k < |all| ==> !all[k].Deploy? {
      assert all[|rs|] == r && forall k :: 0 <= k < |rs| ==> all[k] == rs[k];
    }
  }

  /** Upload k was answered 201, and no later upload under its name got as far as the disk before n. */
  ghost predicate Stands(rs: seq<Request>, answers: seq<Answer>, k: nat, n: nat)
    requires |rs| == |answers| && k < n <= |rs|
  {
    && Lands(rs[k]) && answers[k] == Status(201)
    && forall j :: k < j < n && Lands(rs[j]) ==> Cut(rs[j].arg) != Cut(rs[k].arg)
  }

  /** Upload k was answered 201 and stood when deploy i of its name was answered 200; none came after i. */
  ghost predicate Booted(rs: seq<Request>, answers: seq<Answer>, k: nat, i: nat)
    requires |rs| == |answers| && k < i < |rs|
  {
    && Stands(rs, answers, k, i)
    && rs[i].Deploy? && rs[i].id == Cut(rs[k].arg) && answers[i] == Status(200)
    && forall j :: i < j < |rs| ==> !rs[j].Deploy?
  }

  /** The last upload of a name, if it was answered 201, is what is saved under that name. */
  lemma {:induction false} LastUploadIsSaved(start: map<string, Body>, rs: seq<Request>, answers: seq<Answer>, k: nat)
    requires |rs| == |answers| && k < |rs| && Stands(rs, answers, k, |rs|)
    ensures var saved := SavedBy(start, rs, answers);
      Cut(rs[k].arg) in saved && saved[Cut(rs[k].arg)] == CStr(rs[k].body)
  {
    var n := |rs| - 1;
    if k < n {
      LastUploadIsSaved(start, rs[..n], answers[..n], k);
    }
  }

  /** ... and boot.vcl holds its text, whatever has been uploaded since. */
  lemma {:induction false} LastDeployIsBooted(start: map<string, Body>, rs: seq<Request>, answers: seq<Answer>,
                                             k: nat, i: nat)
    requires |rs| == |answers| && k < i < |rs| && Booted(rs, answers, k, i)
    ensures BootBy(start, rs, answers) == Some(CStr(rs[k].body))
  {
    var n := |rs| - 1;
    if i < n {
      LastDeployIsBooted(start, rs[..n], answers[..n], k, i);
    } else {
      LastUploadIsSaved(start, rs[..n], answers[..n], k);
    }
  }

  /** What an upload needs to get as far as the disk. */
  predicate Taken(id: string, body: Body, compiles: bool) {
    Ident(id) && body != [] && compiles
  }

  /** snprintf(id, ID_LEN, "%s", arg); a missing argument is NULL, which glibc prints like this. */
  function Cut(arg: Option<string>): string {
    match arg
    case None => "(null)"
    case Some(name) => if |name| < ID_LEN then name else name[..ID_LEN - 1]
  }

  /** A name of up to 255 characters is kept whole, and of a longer one the first 255. */
  lemma CutIs(name: string)
    ensures Cut(Some(name)) == if |name| <= 255 then name else name[..255]
  {
  }

  /** The names on disk, spelt out, and the characters of an identifier. */
  lemma KnownNames()
    ensures Target("x") == "x.auto.vcl" && Temp("x") == ".tmp.x.auto.vcl"
    ensures BOOT == "boot.vcl" && BOOT_TMP == "boot.vcl.tmp"
    ensures forall c :: IsAlnum(c) <==> 48 <= c as int <= 57 || 65 <= c as int <= 90 || 97 <= c as int <= 122
  {
  }

  /** An upload without a name is refused. */
  lemma NoNameIsRefused(body: Body, compiles: bool)
    ensures !Taken(Cut(None), body, compiles)
  {
    assert Cut(None)[0] == '(';
  }
}
