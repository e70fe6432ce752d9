/** The samples that the statistics page keeps: two arrays, the newest sample first, one of them
    thinned out beyond a thousand, and both emptied when Varnish has been restarted. */
module StatWindow {
  import opened Bytes

  /** What `/stats` answers, as far as it matters here: None is `undefined`. */
  datatype Sample = Sample(timestamp: Option<string>, uptime: Option<int>)

  const KEPT := 1000

  /** The counters alone: only members that have a 'value' are taken over, and the time stamp has none. */
  function Counters(s: Sample): Sample { Sample(None, s.uptime) }

  /** Newest first. */
  function Newest(all: seq<Sample>): (r: seq<Sample>)
    ensures |r| == |all|
  {
    seq(|all|, i requires 0 <= i < |all| => all[|all| - 1 - i])
  }

  /** The window on the samples since the last reset: the newest thousand, and behind them the first. */
  function Window(all: seq<Sample>): (w: seq<Sample>)
    ensures |w| == if |all| <= KEPT then |all| else KEPT + 1
    ensures all != [] ==> w[0] == all[|all| - 1] && w[|w| - 1] == all[0]
  {
    if |all| <= KEPT then Newest(all) else Newest(all)[..KEPT] + [all[0]]
  }

  function NewestCounters(all: seq<Sample>): (r: seq<Sample>)
    ensures |r| == |all|
  {
    seq(|all|, i requires 0 <= i < |all| => Counters(all[|all| - 1 - i]))
  }

  /** No sign of a restart between the two. */
  predicate Continues(oldest: Sample, newest: Sample) {
    oldest.uptime.Some? && newest.uptime.Some? && oldest.uptime.value <= newest.uptime.value
  }

  /** vdata.splice(1000, vdata.length - 1001). */
  function Thinned(v: seq<Sample>): seq<Sample> {
    if |v| > KEPT then v[..KEPT] + v[KEPT + (|v| - 1001)..] else v
  }

  /** Thinning keeps the window up to date. */
  lemma WindowGrows(all: seq<Sample>, s: Sample)
    ensures Thinned([s] + Window(all)) == Window(all + [s])
  {
    var v, now := [s] + Window(all), all + [s];
    assert Newest(now) == [s] + Newest(all);
    if |all| > KEPT {
      assert v[..KEPT] == Newest(now)[..KEPT];
      assert v[KEPT + (|v| - 1001)..] == [all[0]];
    } else if |all| == KEPT {
      assert v[..KEPT] + v[KEPT..] == v;
      assert Newest(now) == Newest(now)[..KEPT] + [now[0]];
    }
  }

  /** The two arrays show the same sample at the same index: among the newest thousand always, and
      behind them as long as there are at most a thousand and one, or the samples happen to be equal. */
  lemma ArraysAgreeIff(all: seq<Sample>, i: nat)
    requires i < |Window(all)|
    ensures Counters(Window(all)[i]) == NewestCounters(all)[i] <==>
      i < KEPT || |all| == KEPT + 1 || Counters(all[0]) == Counters(all[|all| - 1 - KEPT])
  {
  }

  /** The samples since the last reset, after one more answer. */
  function After(all: seq<Sample>, s: Sample): seq<Sample> {
    if all != [] && s.timestamp == None then all
    else if all == [] || Continues(all[0], s) then all + [s]
    else [s]
  }

  function AfterAll(all: seq<Sample>, answers: seq<Sample>): seq<Sample> {
    if answers == [] then all else After(AfterAll(all, answers[..|answers| - 1]), answers[|answers| - 1])
  }

  /** After any run, the oldest uptime kept does not exceed the newest, nor that of any sample between. */
  lemma {:induction false} OldestIsSmallest(answers: seq<Sample>)
    ensures var all := AfterAll([], answers); |all| > 1 ==> forall i :: 1 <= i < |all| ==> Continues(all[0], all[i])
  {
    if answers != [] { OldestIsSmallest(answers[..|answers| - 1]); }
  }

  /** What is kept is the end of what has come in (without the answers that were dropped for having no
      time stamp), from the last restart on. */
  lemma {:induction false} KeptIsSuffix(answers: seq<Sample>)
    requires forall i :: 0 <= i < |answers| ==> answers[i].timestamp.Some?
    ensures Suffix(answers, AfterAll([], answers))
  {
    if answers != [] {
      var before, s := answers[..|answers| - 1], answers[|answers| - 1];
      KeptIsSuffix(before);
      assert answers == before + [s];
      SuffixStep(before, AfterAll([], before), s);
    }
  }

  /** all is the end of the answers, and what was in front of it has been cut off at a restart. */
  ghost predicate Suffix(answers: seq<Sample>, all: seq<Sample>) {
    var cut := |answers| - |all|;
    && 0 <= cut && answers[cut..] == all
    && (cut > 0 ==> all != [] && exists i :: 0 <= i < cut && !Continues(answers[i], all[0]))
  }

  lemma SuffixStep(before: seq<Sample>, was: seq<Sample>, s: Sample)
    requires Suffix(before, was) && s.timestamp.Some?
    ensures Suffix(before + [s], After(was, s))
  {
    var answers, cut := before + [s], |before| - |was|;
    if was == [] || Continues(was[0], s) {
      assert answers[cut..] == before[cut..] + [s];
      if cut > 0 {
        var i :| 0 <= i < cut && !Continues(before[i], was[0]);
        assert answers[i] == before[i];
      }
    } else {
      assert answers[|before|..] == [s];
      assert answers[cut] == before[cut] == before[cut..][0] == was[0];
    }
  }

  /** The same answer twice, time stamp and all, is kept twice. */
  lemma RepeatIsKept(s: Sample)
    requires s.timestamp.Some? && s.uptime.Some?
    ensures AfterAll([], [s, s]) == [s, s]
  {
    assert [s, s][..1] == [s] && [s][..0] == [];
    assert AfterAll([], []) == [];
    assert AfterAll([], [s]) == [s];
  }

  class Page {
    var vdata: seq<Sample>
    var vdatap: seq<Sample>
    ghost var all: seq<Sample>    // the samples since the last reset, in order

    ghost predicate Valid()
      reads this
    {
      && vdata == Window(all) && vdatap == NewestCounters(all)
      && (|all| > 1 ==> Continues(all[0], all[|all| - 1]))
    }

    constructor ()
      ensures Valid() && all == []
    {
      vdata, vdatap, all := [], [], [];
    }

    /** compressData(): thin out, and start again from the newest sample after a restart. */
    method CompressData(ghost before: seq<Sample>)
      requires |all| > 0 && before == all[..|all| - 1] && vdatap == NewestCounters(all)
      requires vdata == [all[|all| - 1]] + Window(before)
      modifies this
      ensures Valid()
      ensures var s := old(all[|all| - 1]);
        all == if before == [] || Continues(old(all[0]), s) then old(all) else [s]
    {
      ghost var s := all[|all| - 1];
      WindowGrows(before, s);
      assert all == before + [s];
      if |vdata| > KEPT {
        vdata := vdata[..KEPT] + vdata[KEPT + (|vdata| - 1001)..];
      }
      assert vdata == Window(all);
      if |vdata| - 1 < 1 {
        return;
      }
      var newest, oldest := vdata[0], vdata[|vdata| - 1];
      if newest.uptime == None || oldest.uptime == None || oldest.uptime.value > newest.uptime.value {
        Restart();
      }
    }

    /** splice(1, length - 1) of both. */
    method Restart()
      requires |all| > 0 && vdata == Window(all) && vdatap == NewestCounters(all)
      modifies this
      ensures Valid() && all == [old(all[|all| - 1])]
    {
      vdata := vdata[..1];
      vdatap := vdatap[..1];
      all := [all[|all| - 1]];
    }

    /** The data part of updateArray(). The time stamp that it compares with is the one it has not
        kept, so a sample is dropped exactly when it has no time stamp and is not the first. */
    method UpdateArray(tmp: Sample)
      requires Valid()
      modifies this
      ensures Valid()
      ensures all == After(old(all), tmp)
      ensures old(all) == [] || tmp.timestamp.Some? ==> vdata[0] == tmp && vdatap[0] == Sample(None, tmp.uptime)
    {
      if |vdatap| != 0 {
        assert vdatap[0] == Counters(all[|all| - 1]);
        if vdatap[0].timestamp == tmp.timestamp {
          return;
        }
      }
      ghost var before := all;
      vdata := [tmp] + vdata;
      vdatap := [Counters(tmp)] + vdatap;
      all := all + [tmp];
      assert vdatap == NewestCounters(all);
      CompressData(before);
    }

    /** Any number of ticks. */
    method Run(answers: seq<Sample>)
      requires Valid()
      modifies this
      ensures Valid() && all == AfterAll(old(all), answers)
    {
      for i := 0 to |answers|
        invariant Valid() && all == AfterAll(old(all), answers[..i])
      {
        assert answers[..i + 1][..i] == answers[..i];
        UpdateArray(answers[i]);
      }
      assert answers[..|answers|] == answers;
    }
  }
}
