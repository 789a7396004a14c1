/** What the three proctor passes of utils/exam_scu.py guarantee, one exam at a time and
    over the whole list. */
module ScuLaws {
  import opened Base
  import opened Text
  import opened Order
  import opened Staff
  import opened ScuIds
  import opened ScuPlan
  import opened ScuPass

  // ---------------------------------------------------------------------------
  // The teaching pass (lines 143-179).

  /** An exam with a main proctor already is skipped; otherwise the one pick is a teacher of
      the exam's classes, not exempt and free that day, who becomes the main proctor of every
      class of the exam. */
  lemma {:induction false} MainTurnPick(ps: seq<Profile>, cs: seq<Info>, d: Desk, x: Sitting)
    requires Shaped(ps, cs, d) && Proper(cs, x)
    ensures var r := MainTurn(ps, cs, d, x);
            && (r.picks == [] ==> r.desk == d)
            && (|r.picks| == 1 ==> !Engaged(d.mains, x.members) && r.picks[0] < |ps|
                                   && Taught(cs, x.members, ps[r.picks[0]].name)
                                   && ps[r.picks[0]].exemptedMain.None? && x.date !in ps[r.picks[0]].unavailableDates
                                   && r.desk == Crown(ps, cs, d, x, r.picks[0]))
  {
    if !Engaged(d.mains, x.members) {
      var s := Sieve(Teaching(ps, cs, x.members, |ps|), MainClashing(ps, cs, d.mains, x));
      var f := First(s, MainFree(ps, x.date));
      if f.Some? {
        assert s[f.value] in Teaching(ps, cs, x.members, |ps|);
      }
    }
  }

  /** A teaching teacher who is not exempt, free that day and without a clashing main duty is
      never passed over: the exam gets a main proctor. */
  lemma {:induction false} MainTurnFills(ps: seq<Profile>, cs: seq<Info>, d: Desk, x: Sitting, t: nat)
    requires Shaped(ps, cs, d) && Proper(cs, x) && t < |ps|
    requires !Engaged(d.mains, x.members) && Taught(cs, x.members, ps[t].name)
    requires ps[t].exemptedMain.None? && x.date !in ps[t].unavailableDates
    requires !MainClash(cs, d.mains, x, ps[t].name)
    ensures |MainTurn(ps, cs, d, x).picks| == 1
  {
    var te := Teaching(ps, cs, x.members, |ps|);
    var bad := MainClashing(ps, cs, d.mains, x);
    SieveDropsBad(te, bad, t);
    var s := Sieve(te, bad);
    var k :| 0 <= k < |s| && s[k] == t;
    assert First(s, MainFree(ps, x.date)).Some?;
  }

  /** No two neighbours of `s` both hold a main duty that clashes with the exam. */
  predicate Spaced(ps: seq<Profile>, cs: seq<Info>, mains: seq<Option<string>>, x: Sitting, s: seq<nat>)
    requires |mains| == |cs| && forall k :: 0 <= k < |s| ==> s[k] < |ps|
  {
    forall k :: 0 <= k < |s| - 1 ==> !MainClash(cs, mains, x, ps[s[k]].name) || !MainClash(cs, mains, x, ps[s[k + 1]].name)
  }

  /** When no two neighbours in the exam's teacher list both hold a clashing main duty, the
      sieve removes every clashing teacher, and the pick holds no clashing duty. */
  lemma {:induction false} MainTurnClear(ps: seq<Profile>, cs: seq<Info>, d: Desk, x: Sitting)
    requires Shaped(ps, cs, d) && Proper(cs, x)
    requires Spaced(ps, cs, d.mains, x, Teaching(ps, cs, x.members, |ps|))
    ensures |MainTurn(ps, cs, d, x).picks| == 1 ==> !MainClash(cs, d.mains, x, ps[MainTurn(ps, cs, d, x).picks[0]].name)
  {
    var te := Teaching(ps, cs, x.members, |ps|);
    var bad := MainClashing(ps, cs, d.mains, x);
    forall k | 0 <= k < |te| - 1 ensures te[k] !in bad || te[k + 1] !in bad {
      assert te[k] < |ps| && te[k + 1] < |ps|;
    }
    SieveFilters(te, bad);
  }

  /** The sieve of the source lets a clashing teacher through when the one before it in the
      list is removed: with two clashing teachers at the head of the list, the second stays
      a candidate. */
  lemma {:induction false} MainTurnSkips(ps: seq<Profile>, cs: seq<Info>, d: Desk, x: Sitting)
    requires Shaped(ps, cs, d) && Proper(cs, x)
    requires var te := Teaching(ps, cs, x.members, |ps|);
             |te| >= 2 && MainClash(cs, d.mains, x, ps[te[0]].name) && MainClash(cs, d.mains, x, ps[te[1]].name)
    ensures var te := Teaching(ps, cs, x.members, |ps|);
            te[1] in Sieve(te, MainClashing(ps, cs, d.mains, x))
  {
    var te := Teaching(ps, cs, x.members, |ps|);
    SieveSkips(te, MainClashing(ps, cs, d.mains, x));
  }

  // ---------------------------------------------------------------------------
  // The non-teaching pass (lines 182-236).

  /** A teacher `can_be_proctor` is asked about and approves, free on every class's date and
      without a clashing main duty. */
  predicate Open(ps: seq<Profile>, cs: seq<Info>, d: Desk, x: Sitting, u: nat)
    requires Shaped(ps, cs, d) && Proper(cs, x)
  {
    && u < |ps| && Asked(ps, cs, x, u) && Proctorable(ps[u], d.loads[u], x.date, x.time) == Some(true)
    && u in AllFree(ps, cs, x.members) && !MainClash(cs, d.mains, x, ps[u].name)
  }

  /** Among candidates `o`, the pick is a candidate free on every class's date, and no such
      candidate without a clashing main duty carries less workload. */
  lemma {:induction false} OtherPickLightest(ps: seq<Profile>, cs: seq<Info>, d: Desk, x: Sitting, o: seq<nat>)
    requires Shaped(ps, cs, d) && Proper(cs, x) && forall t :: t in o ==> t < |ps|
    ensures var r := OtherPick(ps, cs, d, x, o);
            && (r.picks == [] ==> r.desk == d)
            && (|r.picks| == 1 ==> var t := r.picks[0];
                                   && t in o && t in AllFree(ps, cs, x.members) && r.desk == Crown(ps, cs, d, x, t)
                                   && forall u :: u in o && u in AllFree(ps, cs, x.members) && !MainClash(cs, d.mains, x, ps[u].name)
                                                  ==> d.loads[t].workload <= d.loads[u].workload)
  {
    var s := MainQueue(ps, cs, d, o, x);
    var ok := AllFree(ps, cs, x.members);
    var f := First(s, ok);
    if f.Some? {
      var t := s[f.value];
      assert t in o;
      forall u | u in o && u in ok && !MainClash(cs, d.mains, x, ps[u].name)
        ensures d.loads[t].workload <= d.loads[u].workload
      {
        SieveDropsBad(o, MainClashing(ps, cs, d.mains, x), u);
        var j :| 0 <= j < |s| && s[j] == u;
        assert f.value <= j;
        if f.value < j {
          assert Key(Workloads(d.loads), s[f.value]) <= Key(Workloads(d.loads), s[j]);
        }
      }
    }
  }

  /** The one pick of the non-teaching pass does not teach the exam, may sit its room, is
      approved by `can_be_proctor` and free on every class's date; no open teacher carries
      less workload. */
  lemma {:induction false} OtherTurnPick(ps: seq<Profile>, cs: seq<Info>, d: Desk, x: Sitting)
    requires Shaped(ps, cs, d) && Proper(cs, x) && OtherTurn(ps, cs, d, x).Some?
    ensures var r := OtherTurn(ps, cs, d, x).value;
            && (r.picks == [] ==> r.desk == d)
            && (|r.picks| == 1 ==> var t := r.picks[0];
                                   && !Engaged(d.mains, x.members) && t < |ps| && Asked(ps, cs, x, t)
                                   && Proctorable(ps[t], d.loads[t], x.date, x.time) == Some(true)
                                   && t in AllFree(ps, cs, x.members) && r.desk == Crown(ps, cs, d, x, t)
                                   && forall u: nat :: Open(ps, cs, d, x, u) ==> d.loads[t].workload <= d.loads[u].workload)
  {
    if !Engaged(d.mains, x.members) {
      var o := Others(ps, cs, x, Answers(ps, d.loads, x), |ps|).value;
      OtherPickLightest(ps, cs, d, x, o);
    }
  }

  /** When `can_be_proctor` raises for nobody, an exam without a main proctor gets one as soon
      as one teacher is open. */
  lemma {:induction false} OtherTurnFills(ps: seq<Profile>, cs: seq<Info>, d: Desk, x: Sitting, u: nat)
    requires Shaped(ps, cs, d) && Proper(cs, x) && !Engaged(d.mains, x.members)
    requires !Raises(ps, cs, x, Answers(ps, d.loads, x), |ps|) && Open(ps, cs, d, x, u)
    ensures OtherTurn(ps, cs, d, x).Some? && |OtherTurn(ps, cs, d, x).value.picks| == 1
  {
    var o := Others(ps, cs, x, Answers(ps, d.loads, x), |ps|).value;
    assert u in o;
    SieveDropsBad(o, MainClashing(ps, cs, d.mains, x), u);
    var s := MainQueue(ps, cs, d, o, x);
    var j :| 0 <= j < |s| && s[j] == u;
    assert First(s, AllFree(ps, cs, x.members)).Some?;
  }

  // ---------------------------------------------------------------------------
  // The joint pass (lines 242-332).

  /** A teacher the joint pass may choose: free that day, without a main or joint duty on
      the exam's date that clashes with it, and either a teacher of the exam or a teacher
      `can_be_proctor` approves who may sit its room. */
  predicate Eligible(ps: seq<Profile>, cs: seq<Info>, d: Desk, x: Sitting, t: nat)
    requires Shaped(ps, cs, d) && Proper(cs, x)
  {
    && t < |ps| && x.date !in ps[t].unavailableDates && !JointClash(cs, d, x, ps[t].name)
    && (Taught(cs, x.members, ps[t].name)
        || (Asked(ps, cs, x, t) && Proctorable(ps[t], d.loads[t], x.date, x.time) == Some(true)))
  }

  /** The elements of `s` that are in `ok`, in order. */
  function Chosen(s: seq<nat>, ok: set<nat>): (r: seq<nat>)
    ensures forall t :: t in r <==> t in s && t in ok
  {
    if s == [] then [] else (if s[0] in ok then [s[0]] else []) + Chosen(s[1..], ok)
  }

  /** `Earliest` takes the first `n` of the elements in `ok`, or all of them when fewer. */
  lemma {:induction false} EarliestPrefix(s: seq<nat>, ok: set<nat>, n: nat)
    ensures var c := Chosen(s, ok);
            Earliest(s, ok, n) == if |c| <= n then c else c[..n]
  {
    if n != 0 && s != [] {
      var c := Chosen(s[1..], ok);
      if s[0] in ok {
        EarliestPrefix(s[1..], ok, n - 1);
        assert Chosen(s, ok) == [s[0]] + c;
        if |c| > n - 1 {
          assert ([s[0]] + c)[..n] == [s[0]] + c[..n - 1];
        }
      } else {
        EarliestPrefix(s[1..], ok, n);
        assert Chosen(s, ok) == c;
      }
    }
  }

  /** Two different elements in `ok` leave at least two to choose from. */
  lemma {:induction false} ChosenTwo(s: seq<nat>, ok: set<nat>, a: nat, b: nat)
    requires a in s && b in s && a in ok && b in ok && a != b
    ensures |Chosen(s, ok)| >= 2
  {
    var c := Chosen(s, ok);
    assert a in c && b in c;
  }

  /** The exam's teachers and the others are two lists, neither with repeats and with no
      teacher in both. */
  lemma {:induction false} PoolsApart(ps: seq<Profile>, cs: seq<Info>, d: Desk, x: Sitting, o: seq<nat>)
    requires Shaped(ps, cs, d) && Proper(cs, x)
    requires Others(ps, cs, x, Answers(ps, d.loads, x), |ps|) == Some(o)
    ensures var p := JointPools(ps, cs, d, x, o);
            Distinct(p.teaching + p.others)
  {
    var p := JointPools(ps, cs, d, x, o);
    var bad := JointClashing(ps, cs, d, x);
    var te := Teaching(ps, cs, x.members, |ps|);
    assert Distinct(te);
    assert p.teaching == Keep(te, bad);
    DistinctSubMultiset(p.teaching, te);
    assert Distinct(o);
    OthersApart(o, bad, Workloads(d.loads));
    forall t | t in p.teaching ensures t !in p.others {
      assert Taught(cs, x.members, ps[t].name);
    }
    DistinctJoin(p.teaching, p.others);
  }

  /** Dropping and sorting keeps a list without repeats. */
  lemma {:induction false} OthersApart(o: seq<nat>, bad: set<nat>, keys: seq<int>)
    requires Distinct(o)
    ensures Distinct(ByKey(Keep(o, bad), keys))
  {
    DistinctSubMultiset(ByKey(Keep(o, bad), keys), o);
  }

  lemma {:induction false} DistinctSplit(a: seq<nat>, b: seq<nat>, t: nat)
    requires Distinct(a + b) && t in a
    ensures t !in b
  {
    var i :| 0 <= i < |a| && a[i] == t;
    forall j | 0 <= j < |b| ensures b[j] != t {
      assert (a + b)[i] == t && (a + b)[|a| + j] == b[j];
    }
  }

  lemma {:induction false} DistinctJoin(a: seq<nat>, b: seq<nat>)
    requires Distinct(a) && Distinct(b) && forall t :: t in a ==> t !in b
    ensures Distinct(a + b)
  {
    var s := a + b;
    forall i, j | 0 <= i < j < |s| ensures s[i] != s[j] {
      if i < |a| <= j {
        assert s[i] in a && s[j] == b[j - |a|];
      } else if j >= |a| {
        assert s[i] == b[i - |a|] && s[j] == b[j - |a|];
      }
    }
  }

  /** The teachers of either pool are eligible, each pool listing exactly its eligible
      teachers. */
  lemma {:induction false} PoolsEligible(ps: seq<Profile>, cs: seq<Info>, d: Desk, x: Sitting, o: seq<nat>)
    requires Shaped(ps, cs, d) && Proper(cs, x)
    requires Others(ps, cs, x, Answers(ps, d.loads, x), |ps|) == Some(o)
    ensures var p := JointPools(ps, cs, d, x, o);
            forall t: nat :: t in p.teaching + p.others && t in DateFree(ps, x.date) <==> Eligible(ps, cs, d, x, t)
  {
    var p := JointPools(ps, cs, d, x, o);
    forall t: nat ensures t in p.teaching + p.others && t in DateFree(ps, x.date) <==> Eligible(ps, cs, d, x, t) {
      if t < |ps| && Taught(cs, x.members, ps[t].name) {
        assert !Asked(ps, cs, x, t);
      }
    }
  }

  /** The exam of 31 to 80 students gets at most two joint proctors, the first from the
      exam's teachers and the second from the others, different teachers each free that day. */
  lemma {:induction false} SingleJointPicks(ps: seq<Profile>, cs: seq<Info>, d: Desk, x: Sitting, te: seq<nat>, ot: seq<nat>)
    requires Shaped(ps, cs, d) && Proper(cs, x) && Distinct(te + ot)
    requires forall t :: t in te ==> t < |ps|
    requires forall t :: t in ot ==> t < |ps|
    ensures var r := SingleJoint(ps, cs, d, x, te, ot);
            && |r.picks| <= 2 && r.desk.mains == d.mains && Drawn(ps, x, te + ot, r.picks)
            && (|r.picks| == 2 ==> r.picks[0] in te && r.picks[1] in ot)
  {
    var r := SingleJoint(ps, cs, d, x, te, ot);
    if |r.picks| == 2 {
      DistinctSplit(te, ot, r.picks[0]);
    }
  }

  /** When no teacher's name is empty, an exam of 31 to 80 students gets at most one joint
      proctor, who becomes the joint proctor of every one of its classes. */
  lemma {:induction false} SingleJointNamed(ps: seq<Profile>, cs: seq<Info>, d: Desk, x: Sitting, te: seq<nat>, ot: seq<nat>)
    requires Shaped(ps, cs, d) && Proper(cs, x)
    requires forall t :: t in te ==> t < |ps| && ps[t].name != ""
    requires forall t :: t in ot ==> t < |ps| && ps[t].name != ""
    ensures var r := SingleJoint(ps, cs, d, x, te, ot);
            && |r.picks| <= 1 && (r.picks == [] ==> r.desk == d)
            && (|r.picks| == 1 ==> r.desk == Deputy(ps, cs, d, x, r.picks[0])
                                   && forall k :: 0 <= k < |x.members| ==> r.desk.joints[x.members[k]] == Some(ps[r.picks[0]].name))
  {
    var ok := DateFree(ps, x.date);
    var f := First(te, ok);
    if f.Some? {
      var e := Deputy(ps, cs, d, x, te[f.value]);
      assert e.joints[x.members[0]] == Some(ps[te[f.value]].name);
      assert Engaged(e.joints, x.members);
    }
  }

  /** An eligible teacher is not the main proctor of the exam's first class, whose date and
      time are the exam's: no one proctors a class twice over. */
  lemma {:induction false} EligibleNotMain(ps: seq<Profile>, cs: seq<Info>, d: Desk, x: Sitting, t: nat)
    requires Shaped(ps, cs, d) && Proper(cs, x) && Eligible(ps, cs, d, x, t)
    ensures d.mains[x.members[0]] != Some(ps[t].name)
  {
    var c := x.members[0];
    assert cs[c].date == x.date && cs[c].time == x.time;
  }

  /** Picks that are distinct, eligible and so not the main proctor of the first class. */
  predicate Sound(ps: seq<Profile>, cs: seq<Info>, d: Desk, x: Sitting, picks: seq<nat>)
    requires Shaped(ps, cs, d) && Proper(cs, x)
  {
    && Distinct(picks)
    && forall k :: 0 <= k < |picks| ==> Eligible(ps, cs, d, x, picks[k]) && d.mains[x.members[0]] != Some(ps[picks[k]].name)
  }

  /** The candidates shared by both sizes of exam. */
  predicate Pooled(ps: seq<Profile>, cs: seq<Info>, d: Desk, x: Sitting, o: seq<nat>)
    requires Shaped(ps, cs, d) && Proper(cs, x)
  {
    Others(ps, cs, x, Answers(ps, d.loads, x), |ps|) == Some(o)
  }

  /** Distinct teachers of `pool`, each free on the exam's date. */
  predicate Drawn(ps: seq<Profile>, x: Sitting, pool: seq<nat>, picks: seq<nat>)
  {
    Distinct(picks) && forall k :: 0 <= k < |picks| ==> picks[k] in pool && picks[k] in DateFree(ps, x.date)
  }

  /** Picks drawn from the pools are sound. */
  lemma {:induction false} DrawnSound(ps: seq<Profile>, cs: seq<Info>, d: Desk, x: Sitting, o: seq<nat>, picks: seq<nat>)
    requires Shaped(ps, cs, d) && Proper(cs, x) && Pooled(ps, cs, d, x, o)
    requires var p := JointPools(ps, cs, d, x, o);
             Drawn(ps, x, p.teaching + p.others, picks)
    ensures Sound(ps, cs, d, x, picks)
  {
    PoolsEligible(ps, cs, d, x, o);
    forall k | 0 <= k < |picks| ensures Eligible(ps, cs, d, x, picks[k]) && d.mains[x.members[0]] != Some(ps[picks[k]].name) {
      EligibleNotMain(ps, cs, d, x, picks[k]);
    }
  }

  lemma {:induction false} ManyPicksDrawn(ps: seq<Profile>, cs: seq<Info>, d: Desk, x: Sitting, o: seq<nat>)
    requires Shaped(ps, cs, d) && Proper(cs, x) && Pooled(ps, cs, d, x, o)
    ensures var p := JointPools(ps, cs, d, x, o);
            var picks := Earliest(p.teaching + p.others, DateFree(ps, x.date), 2);
            |picks| <= 2 && Drawn(ps, x, p.teaching + p.others, picks)
  {
    var p := JointPools(ps, cs, d, x, o);
    PoolsApart(ps, cs, d, x, o);
    var picks := Earliest(p.teaching + p.others, DateFree(ps, x.date), 2);
    DistinctSubMultiset(picks, p.teaching + p.others);
    forall k | 0 <= k < |picks| ensures picks[k] in p.teaching + p.others && picks[k] in DateFree(ps, x.date) {
      assert picks[k] in picks;
    }
  }

  /** An exam of 30 students or fewer gets no joint proctor; a larger one gets at most two,
      different teachers, each eligible and none the main proctor of its first class; the
      main proctors stay as they were. */
  lemma {:induction false} JointTurnPicks(ps: seq<Profile>, cs: seq<Info>, d: Desk, x: Sitting)
    requires Shaped(ps, cs, d) && Proper(cs, x) && JointTurn(ps, cs, d, x).Some?
    ensures var r := JointTurn(ps, cs, d, x).value;
            && (x.stu <= 30 ==> r == Turn(d, []))
            && |r.picks| <= 2 && r.desk.mains == d.mains && Sound(ps, cs, d, x, r.picks)
  {
    if x.stu > 30 {
      JointPickSound(ps, cs, d, x, Others(ps, cs, x, Answers(ps, d.loads, x), |ps|).value);
    }
  }

  lemma {:induction false} JointPickSound(ps: seq<Profile>, cs: seq<Info>, d: Desk, x: Sitting, o: seq<nat>)
    requires Shaped(ps, cs, d) && Proper(cs, x) && Pooled(ps, cs, d, x, o)
    ensures var r := JointPick(ps, cs, d, x, o);
            |r.picks| <= 2 && r.desk.mains == d.mains && Sound(ps, cs, d, x, r.picks)
  {
    var p := JointPools(ps, cs, d, x, o);
    PoolsApart(ps, cs, d, x, o);
    if x.stu <= 80 {
      SingleJointPicks(ps, cs, d, x, p.teaching, p.others);
    } else {
      ManyPicksDrawn(ps, cs, d, x, o);
    }
    DrawnSound(ps, cs, d, x, o, JointPick(ps, cs, d, x, o).picks);
  }

  /** When `can_be_proctor` raises for nobody and no class of the exam has a joint proctor
      yet, an exam of 31 to 80 students gets one as soon as a teacher is eligible. */
  lemma {:induction false} SingleJointFills(ps: seq<Profile>, cs: seq<Info>, d: Desk, x: Sitting, t: nat)
    requires Shaped(ps, cs, d) && Proper(cs, x) && 30 < x.stu <= 80 && !Engaged(d.joints, x.members)
    requires !Raises(ps, cs, x, Answers(ps, d.loads, x), |ps|) && Eligible(ps, cs, d, x, t)
    ensures JointTurn(ps, cs, d, x).Some? && |JointTurn(ps, cs, d, x).value.picks| >= 1
  {
    var o := Others(ps, cs, x, Answers(ps, d.loads, x), |ps|).value;
    var p := JointPools(ps, cs, d, x, o);
    var ok := DateFree(ps, x.date);
    PoolsEligible(ps, cs, d, x, o);
    assert t in p.teaching + p.others;
    if First(p.teaching, ok).None? {
      assert t in p.others;
      assert First(p.others, ok).Some?;
    }
  }

  /** ... and an exam of more than 80 gets one as soon as a teacher is eligible, two as soon
      as two are. */
  lemma {:induction false} ManyJointFills(ps: seq<Profile>, cs: seq<Info>, d: Desk, x: Sitting, t: nat, u: nat)
    requires Shaped(ps, cs, d) && Proper(cs, x) && x.stu > 80
    requires !Raises(ps, cs, x, Answers(ps, d.loads, x), |ps|) && Eligible(ps, cs, d, x, t)
    ensures JointTurn(ps, cs, d, x).Some? && |JointTurn(ps, cs, d, x).value.picks| >= 1
    ensures Eligible(ps, cs, d, x, u) && u != t ==> |JointTurn(ps, cs, d, x).value.picks| == 2
  {
    var o := Others(ps, cs, x, Answers(ps, d.loads, x), |ps|).value;
    var p := JointPools(ps, cs, d, x, o);
    var ok := DateFree(ps, x.date);
    PoolsEligible(ps, cs, d, x, o);
    EarliestPrefix(p.teaching + p.others, ok, 2);
    assert t in Chosen(p.teaching + p.others, ok);
    if Eligible(ps, cs, d, x, u) && u != t {
      ChosenTwo(p.teaching + p.others, ok, t, u);
    }
  }

  // ---------------------------------------------------------------------------
  // Joint entries.

  lemma {:induction false} ContainsGrows(a: string, b: string, n: string)
    requires Contains(a, n)
    ensures Contains(a + b, n)
  {
    var i :| 0 <= i <= |a| - |n| && n <= a[i..];
    assert (a + b)[i..] == a[i..] + b;
  }

  lemma {:induction false} ContainsEnd(a: string, n: string)
    ensures Contains(a + n, n)
  {
    assert (a + n)[|a|..] == n;
  }

  /** The appended name is on the joint entry. */
  lemma {:induction false} AppendNames(j: Option<string>, m: string)
    ensures Named(Append(j, m), m)
  {
    if Truthy(j) {
      ContainsEnd(j.value + ", ", m);
    } else {
      assert m <= m[0..];
    }
  }

  /** A name on a joint entry stays on it when another is appended. */
  lemma {:induction false} AppendKeeps(j: Option<string>, m: string, n: string)
    requires Named(j, n)
    ensures Named(Append(j, m), n)
  {
    if Truthy(j) {
      ContainsGrows(j.value, ", " + m, n);
      assert j.value + ", " + m == j.value + (", " + m);
    } else {
      assert n == [];
      assert n <= m[0..];
    }
  }

  /** Adding distinct teachers in turn counts one joint duty for each and names each on the
      joint entry of every class of the exam, keeping every name already there; the entries
      of other classes stay as they were. */
  lemma {:induction false} SecondsRecord(ps: seq<Profile>, cs: seq<Info>, d: Desk, x: Sitting, picks: seq<nat>)
    requires Shaped(ps, cs, d) && Proper(cs, x) && Distinct(picks)
    requires forall k :: 0 <= k < |picks| ==> picks[k] < |ps|
    ensures var r := Seconds(ps, cs, d, x, picks);
            && (forall t :: 0 <= t < |ps| ==> r.loads[t] == if t in picks then CreditJoint(d.loads[t], LastCourse(cs, x)) else d.loads[t])
            && (forall c :: 0 <= c < |cs| && c !in x.members ==> r.joints[c] == d.joints[c])
            && (forall c, n :: 0 <= c < |cs| && Named(d.joints[c], n) ==> Named(r.joints[c], n))
            && (forall k, m :: 0 <= k < |picks| && 0 <= m < |x.members| ==> Named(r.joints[x.members[m]], ps[picks[k]].name))
    decreases |picks|
  {
    if picks != [] {
      var e := Second(ps, cs, d, x, picks[0]);
      DistinctTail(picks);
      SecondsRecord(ps, cs, e, x, picks[1..]);
      var r := Seconds(ps, cs, d, x, picks);
      forall c, n | 0 <= c < |cs| && Named(d.joints[c], n) ensures Named(r.joints[c], n) {
        AppendKeeps(d.joints[c], ps[picks[0]].name, n);
      }
      forall k, m | 0 <= k < |picks| && 0 <= m < |x.members| ensures Named(r.joints[x.members[m]], ps[picks[k]].name) {
        if k == 0 {
          AppendNames(d.joints[x.members[m]], ps[picks[0]].name);
        } else {
          assert picks[k] == picks[1..][k - 1];
        }
      }
    }
  }

  /** An exam of more than 80 students: each joint proctor is credited one joint duty and is
      named on the joint entry of every class of the exam; other teachers and the entries of
      other classes stay as they were. */
  lemma {:induction false} ManyJointRecord(ps: seq<Profile>, cs: seq<Info>, d: Desk, x: Sitting)
    requires Shaped(ps, cs, d) && Proper(cs, x) && x.stu > 80 && JointTurn(ps, cs, d, x).Some?
    ensures var r := JointTurn(ps, cs, d, x).value;
            && (forall t :: 0 <= t < |ps| ==> r.desk.loads[t] == if t in r.picks then CreditJoint(d.loads[t], LastCourse(cs, x)) else d.loads[t])
            && (forall c :: 0 <= c < |cs| && c !in x.members ==> r.desk.joints[c] == d.joints[c])
            && (forall k, m :: 0 <= k < |r.picks| && 0 <= m < |x.members| ==> Named(r.desk.joints[x.members[m]], ps[r.picks[k]].name))
  {
    var o := Others(ps, cs, x, Answers(ps, d.loads, x), |ps|).value;
    JointPickSound(ps, cs, d, x, o);
    var picks := JointPick(ps, cs, d, x, o).picks;
    SecondsRecord(ps, cs, d, x, picks);
  }

  // ---------------------------------------------------------------------------
  // What every pass keeps.

  /** From counters `a` to `b` every teacher's duty counts only grow, and the workload grows
      by exactly as many duties as were added. */
  predicate Credited(a: seq<Load>, b: seq<Load>)
  {
    && |a| == |b|
    && forall t :: 0 <= t < |a| ==> && a[t].main <= b[t].main && a[t].joint <= b[t].joint
                                    && b[t].workload - a[t].workload == (b[t].main - a[t].main) + (b[t].joint - a[t].joint)
  }

  /** A main proctor set before is still set, to the same teacher. */
  predicate Kept(a: seq<Option<string>>, b: seq<Option<string>>)
  {
    |a| == |b| && forall c :: 0 <= c < |a| && Truthy(a[c]) ==> b[c] == a[c]
  }

  lemma {:induction false} CreditedChain(a: seq<Load>, b: seq<Load>, c: seq<Load>)
    requires Credited(a, b) && Credited(b, c)
    ensures Credited(a, c)
  {
    forall t | 0 <= t < |a|
      ensures && a[t].main <= c[t].main && a[t].joint <= c[t].joint
              && c[t].workload - a[t].workload == (c[t].main - a[t].main) + (c[t].joint - a[t].joint)
    {
      assert b[t].workload - a[t].workload == (b[t].main - a[t].main) + (b[t].joint - a[t].joint);
    }
  }

  lemma {:induction false} KeptChain(a: seq<Option<string>>, b: seq<Option<string>>, c: seq<Option<string>>)
    requires Kept(a, b) && Kept(b, c)
    ensures Kept(a, c)
  {
    forall i | 0 <= i < |a| && Truthy(a[i]) ensures c[i] == a[i] {
      assert b[i] == a[i];
    }
  }

  /** Crediting one duty to one teacher. */
  lemma {:induction false} CreditOne(ls: seq<Load>, t: nat, course: string)
    requires t < |ls|
    ensures Credited(ls, ls[t := CreditMain(ls[t], course)])
    ensures Credited(ls, ls[t := CreditJoint(ls[t], course)])
  {
  }

  /** Making a teacher the main proctor of an exam none of whose classes has one keeps every
      main proctor already set. */
  lemma {:induction false} CrownKeeps(ps: seq<Profile>, cs: seq<Info>, d: Desk, x: Sitting, t: nat)
    requires Shaped(ps, cs, d) && Proper(cs, x) && t < |ps| && !Engaged(d.mains, x.members)
    ensures var e := Crown(ps, cs, d, x, t);
            Credited(d.loads, e.loads) && Kept(d.mains, e.mains) && e.joints == d.joints
  {
    var e := Crown(ps, cs, d, x, t);
    CreditOne(d.loads, t, LastCourse(cs, x));
    forall c | 0 <= c < |cs| && Truthy(d.mains[c]) ensures e.mains[c] == d.mains[c] {
      forall k | 0 <= k < |x.members| ensures x.members[k] != c {
        assert !Truthy(d.mains[x.members[k]]);
      }
    }
  }

  lemma {:induction false} MainTurnKeeps(ps: seq<Profile>, cs: seq<Info>, d: Desk, x: Sitting)
    requires Shaped(ps, cs, d) && Proper(cs, x)
    ensures var e := MainTurn(ps, cs, d, x).desk;
            Credited(d.loads, e.loads) && Kept(d.mains, e.mains) && e.joints == d.joints
  {
    MainTurnPick(ps, cs, d, x);
    var r := MainTurn(ps, cs, d, x);
    if |r.picks| == 1 {
      CrownKeeps(ps, cs, d, x, r.picks[0]);
    }
  }

  lemma {:induction false} OtherTurnKeeps(ps: seq<Profile>, cs: seq<Info>, d: Desk, x: Sitting)
    requires Shaped(ps, cs, d) && Proper(cs, x) && OtherTurn(ps, cs, d, x).Some?
    ensures var e := OtherTurn(ps, cs, d, x).value.desk;
            Credited(d.loads, e.loads) && Kept(d.mains, e.mains) && e.joints == d.joints
  {
    if !Engaged(d.mains, x.members) {
      var o := Others(ps, cs, x, Answers(ps, d.loads, x), |ps|).value;
      OtherPickLightest(ps, cs, d, x, o);
      var r := OtherPick(ps, cs, d, x, o);
      if |r.picks| == 1 {
        CrownKeeps(ps, cs, d, x, r.picks[0]);
      }
    }
  }

  lemma {:induction false} SecondsCredited(ps: seq<Profile>, cs: seq<Info>, d: Desk, x: Sitting, picks: seq<nat>)
    requires Shaped(ps, cs, d) && Proper(cs, x) && forall k :: 0 <= k < |picks| ==> picks[k] < |ps|
    ensures Credited(d.loads, Seconds(ps, cs, d, x, picks).loads)
    decreases |picks|
  {
    if picks != [] {
      var e := Second(ps, cs, d, x, picks[0]);
      CreditOne(d.loads, picks[0], LastCourse(cs, x));
      SecondsCredited(ps, cs, e, x, picks[1..]);
      CreditedChain(d.loads, e.loads, Seconds(ps, cs, e, x, picks[1..]).loads);
    }
  }

  lemma {:induction false} SingleJointCredited(ps: seq<Profile>, cs: seq<Info>, d: Desk, x: Sitting, te: seq<nat>, ot: seq<nat>)
    requires Shaped(ps, cs, d) && Proper(cs, x)
    requires forall t :: t in te ==> t < |ps|
    requires forall t :: t in ot ==> t < |ps|
    ensures Credited(d.loads, SingleJoint(ps, cs, d, x, te, ot).desk.loads)
  {
    var ok := DateFree(ps, x.date);
    var f := First(te, ok);
    var e := if f.Some? then Deputy(ps, cs, d, x, te[f.value]) else d;
    if f.Some? {
      CreditOne(d.loads, te[f.value], LastCourse(cs, x));
    }
    var g := First(ot, ok);
    if g.Some? {
      CreditOne(e.loads, ot[g.value], LastCourse(cs, x));
      CreditedChain(d.loads, e.loads, Deputy(ps, cs, e, x, ot[g.value]).loads);
    }
  }

  lemma {:induction false} JointPickKeeps(ps: seq<Profile>, cs: seq<Info>, d: Desk, x: Sitting, o: seq<nat>)
    requires Shaped(ps, cs, d) && Proper(cs, x) && forall t :: t in o ==> t < |ps|
    ensures var e := JointPick(ps, cs, d, x, o).desk;
            Credited(d.loads, e.loads) && e.mains == d.mains
  {
    var p := JointPools(ps, cs, d, x, o);
    if x.stu <= 80 {
      SingleJointCredited(ps, cs, d, x, p.teaching, p.others);
      SingleJointMains(ps, cs, d, x, p.teaching, p.others);
    } else {
      SecondsCredited(ps, cs, d, x, JointPick(ps, cs, d, x, o).picks);
    }
  }

  lemma {:induction false} SingleJointMains(ps: seq<Profile>, cs: seq<Info>, d: Desk, x: Sitting, te: seq<nat>, ot: seq<nat>)
    requires Shaped(ps, cs, d) && Proper(cs, x)
    requires forall t :: t in te ==> t < |ps|
    requires forall t :: t in ot ==> t < |ps|
    ensures SingleJoint(ps, cs, d, x, te, ot).desk.mains == d.mains
  {
  }

  lemma {:induction false} JointTurnKeeps(ps: seq<Profile>, cs: seq<Info>, d: Desk, x: Sitting)
    requires Shaped(ps, cs, d) && Proper(cs, x) && JointTurn(ps, cs, d, x).Some?
    ensures var e := JointTurn(ps, cs, d, x).value.desk;
            Credited(d.loads, e.loads) && e.mains == d.mains
  {
    if x.stu > 30 {
      JointPickKeeps(ps, cs, d, x, Others(ps, cs, x, Answers(ps, d.loads, x), |ps|).value);
    }
  }

  /** The teaching pass credits every duty it hands out, keeps every main proctor already set
      and leaves the joint proctors alone. */
  lemma {:induction false} MainPassKeeps(ps: seq<Profile>, cs: seq<Info>, d: Desk, plan: seq<Sitting>, n: nat)
    requires Shaped(ps, cs, d) && AllProper(cs, plan) && n <= |plan|
    ensures var e := MainPass(ps, cs, d, plan, n);
            Credited(d.loads, e.loads) && Kept(d.mains, e.mains) && e.joints == d.joints
  {
    if n > 0 {
      var e := MainPass(ps, cs, d, plan, n - 1);
      MainPassKeeps(ps, cs, d, plan, n - 1);
      MainTurnKeeps(ps, cs, e, plan[n - 1]);
      var f := MainTurn(ps, cs, e, plan[n - 1]).desk;
      assert MainPass(ps, cs, d, plan, n) == f;
      assert f.joints == e.joints == d.joints;
      CreditedChain(d.loads, e.loads, f.loads);
      KeptChain(d.mains, e.mains, f.mains);
    } else {
      assert Credited(d.loads, d.loads);
    }
  }

  /** The same of the non-teaching pass, as far as it runs. */
  lemma {:induction false} OtherPassKeeps(ps: seq<Profile>, cs: seq<Info>, d: Desk, plan: seq<Sitting>, n: nat)
    requires Shaped(ps, cs, d) && AllProper(cs, plan) && n <= |plan|
    ensures var r := OtherPass(ps, cs, d, plan, n);
            r.Some? ==> Credited(d.loads, r.value.loads) && Kept(d.mains, r.value.mains) && r.value.joints == d.joints
    decreases |plan| - n
  {
    if n == |plan| {
      assert Credited(d.loads, d.loads);
    } else if OtherTurn(ps, cs, d, plan[n]).Some? {
      var f := OtherTurn(ps, cs, d, plan[n]).value.desk;
      OtherTurnKeeps(ps, cs, d, plan[n]);
      OtherPassKeeps(ps, cs, f, plan, n + 1);
      var r := OtherPass(ps, cs, f, plan, n + 1);
      if r.Some? {
        CreditedChain(d.loads, f.loads, r.value.loads);
        KeptChain(d.mains, f.mains, r.value.mains);
      }
    }
  }

  /** The joint pass credits every duty it hands out and leaves the main proctors alone. */
  lemma {:induction false} JointPassKeeps(ps: seq<Profile>, cs: seq<Info>, d: Desk, plan: seq<Sitting>, n: nat)
    requires Shaped(ps, cs, d) && AllProper(cs, plan) && n <= |plan|
    ensures var r := JointPass(ps, cs, d, plan, n);
            r.Some? ==> Credited(d.loads, r.value.loads) && r.value.mains == d.mains
    decreases |plan| - n
  {
    if n == |plan| {
      assert Credited(d.loads, d.loads);
    } else if JointTurn(ps, cs, d, plan[n]).Some? {
      var f := JointTurn(ps, cs, d, plan[n]).value.desk;
      JointTurnKeeps(ps, cs, d, plan[n]);
      JointPassKeeps(ps, cs, f, plan, n + 1);
      var r := JointPass(ps, cs, f, plan, n + 1);
      if r.Some? {
        CreditedChain(d.loads, f.loads, r.value.loads);
      }
    }
  }

  /** Over the three passes every teacher's workload grows by exactly the duties handed to
      them, and no main proctor set before is replaced. */
  lemma {:induction false} PassesKeep(ps: seq<Profile>, cs: seq<Info>, plan: seq<Sitting>, d: Desk)
    requires Shaped(ps, cs, d) && AllProper(cs, plan)
    ensures var r := Passes(ps, cs, plan, d);
            r.Some? ==> Credited(d.loads, r.value.loads) && Kept(d.mains, r.value.mains)
  {
    var d1 := MainPass(ps, cs, d, plan, |plan|);
    MainPassKeeps(ps, cs, d, plan, |plan|);
    var r2 := OtherPass(ps, cs, d1, plan, 0);
    OtherPassKeeps(ps, cs, d1, plan, 0);
    if r2.Some? {
      var r3 := JointPass(ps, cs, r2.value, plan, 0);
      JointPassKeeps(ps, cs, r2.value, plan, 0);
      if r3.Some? {
        CreditedChain(d.loads, d1.loads, r2.value.loads);
        CreditedChain(d.loads, r2.value.loads, r3.value.loads);
        KeptChain(d.mains, d1.mains, r2.value.mains);
      }
    }
  }

  /** The same of `assign_proctors` as a whole. */
  lemma {:induction false} ProctorsKeep(ps: seq<Profile>, cs: seq<Info>, ids: seq<Option<string>>, d: Desk)
    requires Shaped(ps, cs, d) && |ids| == |cs|
    ensures var r := Proctors(ps, cs, ids, d);
            r.Some? ==> Credited(d.loads, r.value.loads) && Kept(d.mains, r.value.mains)
  {
    PlanProper(cs, Ids(cs, ids, |cs|));
    PassesKeep(ps, cs, Plan(cs, Ids(cs, ids, |cs|)), d);
  }
}
