/** What `assign_proctors` of utils/exam_scu2.py promises, proved about the functions of
    `ScuTwo`. */
module ScuTwoLaws {
  import opened Base
  import opened Text
  import opened Staff
  import opened ScuTwo
  import P = ScuPass

  // ---------------------------------------------------------------------------
  // The main pass.

  /** The walk of lines 87-94 credits the first fit teacher who has not yet proctored the
      course as main, and that teacher ends up in the exam's main entry; every fit teacher
      before them had proctored it. Nobody is credited only when every fit teacher had. */
  lemma {:induction false} CrowningPicks(ps: seq<Profile>, ls: seq<Load>, kept: seq<nat>, x: Paper, i: nat, main: Option<string>)
    requires |ls| == |ps| && Below(kept, |ps|) && i <= |kept|
    ensures var r := Crowning(ps, ls, kept, x, i, main);
            r.pick.Some? ==>
              exists q :: i <= q < |kept| && kept[q] == r.pick.value
                          && MainFit(ps[kept[q]], x.date) && x.course !in ls[kept[q]].mainCourses
                          && r.main == Some(ps[kept[q]].name)
                          && forall q' :: i <= q' < q && MainFit(ps[kept[q']], x.date) ==> x.course in ls[kept[q']].mainCourses
    ensures Crowning(ps, ls, kept, x, i, main).pick.None? ==>
              forall q :: i <= q < |kept| && MainFit(ps[kept[q]], x.date) ==> x.course in ls[kept[q]].mainCourses
    decreases |kept| - i
  {
    if i < |kept| {
      var t := kept[i];
      if !MainFit(ps[t], x.date) {
        CrowningPicks(ps, ls, kept, x, i + 1, main);
      } else if x.course in ls[t].mainCourses {
        CrowningPicks(ps, ls, kept, x, i + 1, Some(ps[t].name));
      }
    }
  }

  /** When every fit teacher has proctored the course as main, nobody is credited, and the
      exam's main entry is left with the last fit teacher, or as it was when none is fit. */
  lemma {:induction false} CrowningPasses(ps: seq<Profile>, ls: seq<Load>, kept: seq<nat>, x: Paper, i: nat, main: Option<string>)
    requires |ls| == |ps| && Below(kept, |ps|) && i <= |kept|
    requires forall q :: i <= q < |kept| && MainFit(ps[kept[q]], x.date) ==> x.course in ls[kept[q]].mainCourses
    ensures var r := Crowning(ps, ls, kept, x, i, main);
            && r.pick.None?
            && ((forall q :: i <= q < |kept| ==> !MainFit(ps[kept[q]], x.date)) ==> r.main == main)
            && ((exists q :: i <= q < |kept| && MainFit(ps[kept[q]], x.date)) ==>
                  exists q :: i <= q < |kept| && MainFit(ps[kept[q]], x.date) && r.main == Some(ps[kept[q]].name)
                              && forall q' :: q < q' < |kept| ==> !MainFit(ps[kept[q']], x.date))
    decreases |kept| - i
  {
    if i < |kept| {
      var t := kept[i];
      if !MainFit(ps[t], x.date) {
        CrowningPasses(ps, ls, kept, x, i + 1, main);
      } else {
        CrowningPasses(ps, ls, kept, x, i + 1, Some(ps[t].name));
        var r := Crowning(ps, ls, kept, x, i, main);
        if forall q :: i + 1 <= q < |kept| ==> !MainFit(ps[kept[q]], x.date) {
          assert r.main == Some(ps[kept[i]].name);
        }
      }
    }
  }

  /** The sieve of lines 72-85 removes from the list it walks, so a clashing teacher right
      after a removed one is not looked at: with two clashing teachers at the head of the
      exam's teaching list, the second is still walked by lines 87-94. */
  lemma {:induction false} MainTurnSkips(ps: seq<Profile>, xs: seq<Paper>, d: P.Desk, s: seq<nat>, x: Paper)
    requires Shaped(ps, xs, d) && Below(s, |ps|)
    requires var te := Teaching(ps, s, x.teachers);
             |te| >= 2 && MainClash(xs, d.mains, x, ps[te[0]].name) && MainClash(xs, d.mains, x, ps[te[1]].name)
    ensures var te := Teaching(ps, s, x.teachers);
            te[1] in Kept(ps, xs, d, s, x)
  {
    var te := Teaching(ps, s, x.teachers);
    P.SieveSkips(te, MainClashing(ps, xs, d.mains, x));
  }

  /** What one exam of the main pass changes: only an economics exam's own main entry, set to
      a fit teacher of the exam, and at most one teacher's counters, those of a fit teacher of
      the exam who had not yet proctored the course as main and who is then the exam's main
      proctor. */
  lemma {:induction false} MainTurnChooses(ps: seq<Profile>, xs: seq<Paper>, d: P.Desk, s: seq<nat>, n: nat)
    requires Shaped(ps, xs, d) && Below(s, |ps|) && n < |xs|
    ensures var r := MainTurn(ps, xs, d, s, n);
            var x := xs[n];
            && (x.teachingDept != Economics ==> r == d)
            && (forall e :: 0 <= e < |xs| && e != n ==> r.mains[e] == d.mains[e])
            && (r.mains[n] != d.mains[n] ==>
                  exists t :: 0 <= t < |ps| && t in s && ps[t].name in x.teachers && MainFit(ps[t], x.date)
                              && r.mains[n] == Some(ps[t].name))
            && (r.loads != d.loads ==>
                  exists t :: 0 <= t < |ps| && t in s && ps[t].name in x.teachers && MainFit(ps[t], x.date)
                              && x.course !in d.loads[t].mainCourses && r.mains[n] == Some(ps[t].name)
                              && r.loads == d.loads[t := CreditMain(d.loads[t], x.course)])
  {
    var x := xs[n];
    if x.teachingDept == Economics {
      var kept := Kept(ps, xs, d, s, x);
      var c := Crowning(ps, d.loads, kept, x, 0, d.mains[n]);
      assert forall t :: t in kept ==> t in Teaching(ps, s, x.teachers);
      CrowningPicks(ps, d.loads, kept, x, 0, d.mains[n]);
      if c.pick.None? {
        CrowningPasses(ps, d.loads, kept, x, 0, d.mains[n]);
      }
    }
  }

  /** A teacher's main count is the number of courses they proctor as main, each tallied
      once. */
  predicate Counted(l: Load)
  {
    l.main == |l.mainCourses.Keys| && forall c :: c in l.mainCourses ==> l.mainCourses[c] == 1
  }

  predicate AllCounted(ls: seq<Load>)
  {
    forall t :: 0 <= t < |ls| ==> Counted(ls[t])
  }

  /** Lines 90-93: a course not yet tallied is tallied once and counted once. */
  lemma {:induction false} CreditMainCounted(l: Load, course: string)
    requires Counted(l) && course !in l.mainCourses
    ensures Counted(CreditMain(l, course))
  {
    assert CreditMain(l, course).mainCourses.Keys == l.mainCourses.Keys + {course};
  }

  lemma {:induction false} MainTurnCounted(ps: seq<Profile>, xs: seq<Paper>, d: P.Desk, s: seq<nat>, n: nat)
    requires Shaped(ps, xs, d) && Below(s, |ps|) && n < |xs| && AllCounted(d.loads)
    ensures AllCounted(MainTurn(ps, xs, d, s, n).loads)
  {
    var x := xs[n];
    if x.teachingDept == Economics {
      var kept := Kept(ps, xs, d, s, x);
      var c := Crowning(ps, d.loads, kept, x, 0, d.mains[n]);
      CrowningPicks(ps, d.loads, kept, x, 0, d.mains[n]);
      if c.pick.Some? {
        CreditMainCounted(d.loads[c.pick.value], x.course);
      }
    }
  }

  /** The main pass keeps every teacher's main count equal to the number of courses they
      proctor as main. */
  lemma {:induction false} MainPassCounted(ps: seq<Profile>, xs: seq<Paper>, d: P.Desk, s: seq<nat>, n: nat)
    requires Shaped(ps, xs, d) && Below(s, |ps|) && n <= |xs| && AllCounted(d.loads)
    ensures AllCounted(MainPass(ps, xs, d, s, n).loads)
    decreases |xs| - n
  {
    if n < |xs| {
      MainTurnCounted(ps, xs, d, s, n);
      MainPassCounted(ps, xs, MainTurn(ps, xs, d, s, n), s, n + 1);
    }
  }

  /** The main pass sets main entries of economics exams only, and leaves every joint entry
      as it is. */
  lemma {:induction false} MainPassLeaves(ps: seq<Profile>, xs: seq<Paper>, d: P.Desk, s: seq<nat>, n: nat)
    requires Shaped(ps, xs, d) && Below(s, |ps|) && n <= |xs|
    ensures var r := MainPass(ps, xs, d, s, n);
            r.joints == d.joints && forall e :: 0 <= e < |xs| && (e < n || xs[e].teachingDept != Economics) ==> r.mains[e] == d.mains[e]
    decreases |xs| - n
  {
    if n < |xs| {
      MainTurnChooses(ps, xs, d, s, n);
      MainPassLeaves(ps, xs, MainTurn(ps, xs, d, s, n), s, n + 1);
    }
  }

  // ---------------------------------------------------------------------------
  // The joint pass.

  /** Lines 108-136: `can_be_proctor` says yes and no duty elsewhere clashes. */
  predicate JointFit(ps: seq<Profile>, xs: seq<Paper>, d: P.Desk, x: Paper, t: nat)
    requires Shaped(ps, xs, d) && t < |ps|
  {
    Proctorable(ps[t], d.loads[t], x.date, x.time) == Some(true) && !JointClash(xs, d, x, ps[t].name)
  }

  /** Line 108: `can_be_proctor` raises `ValueError` on the teacher. */
  predicate Raises(ps: seq<Profile>, d: P.Desk, x: Paper, t: nat)
    requires |d.loads| == |ps| && t < |ps|
  {
    Proctorable(ps[t], d.loads[t], x.date, x.time).None?
  }

  /** Lines 106-110: the pass over the teachers raises exactly when the rule raises on one of
      the teachers still to be asked. */
  lemma {:induction false} AvailRaises(ps: seq<Profile>, xs: seq<Paper>, d: P.Desk, x: Paper, s: seq<nat>, k: nat, r: seq<nat>)
    requires Shaped(ps, xs, d) && Below(s, |ps|) && Below(r, |ps|) && k <= |s|
    ensures Avail(ps, xs, d, x, s, k, r).None? <==> exists q :: k <= q < |s| && Raises(ps, d, x, s[q])
    decreases |s| - k
  {
    if k < |s| {
      var t := s[k];
      match Proctorable(ps[t], d.loads[t], x.date, x.time)
      case None =>
        assert Raises(ps, d, x, s[k]);
      case Some(ok) =>
        AvailRaises(ps, xs, d, x, s, k + 1, if ok && !JointClash(xs, d, x, ps[t].name) then r + [t] else r);
        if exists q :: k <= q < |s| && Raises(ps, d, x, s[q]) {
          var q :| k <= q < |s| && Raises(ps, d, x, s[q]);
          assert k + 1 <= q;
        }
    }
  }

  /** Lines 103-136: the available teachers are those kept so far and the fit ones of the
      teachers still to be asked. */
  lemma {:induction false} AvailKeeps(ps: seq<Profile>, xs: seq<Paper>, d: P.Desk, x: Paper, s: seq<nat>, k: nat, r: seq<nat>)
    requires Shaped(ps, xs, d) && Below(s, |ps|) && Below(r, |ps|) && k <= |s|
    ensures var o := Avail(ps, xs, d, x, s, k, r);
            o.Some? ==> forall t :: t in o.value <==> t in r || exists q :: k <= q < |s| && s[q] == t && JointFit(ps, xs, d, x, s[q])
    decreases |s| - k
  {
    if k < |s| {
      var t := s[k];
      match Proctorable(ps[t], d.loads[t], x.date, x.time)
      case None =>
      case Some(ok) =>
        AvailKeeps(ps, xs, d, x, s, k + 1, if ok && !JointClash(xs, d, x, ps[t].name) then r + [t] else r);
    }
  }

  /** Line 103 starts from every teacher, and the clash test of lines 112-136 looks only at
      exams with another id: the exam's own main proctor is as available for its joint duty
      as if the exam had no main proctor at all. */
  lemma {:induction false} OwnMainAvailable(ps: seq<Profile>, xs: seq<Paper>, d: P.Desk, n: nat, name: string)
    requires Shaped(ps, xs, d) && n < |xs|
    ensures JointClash(xs, d, xs[n], name) <==> JointClash(xs, d.(mains := d.mains[n := None]), xs[n], name)
  {
    var d0 := d.(mains := d.mains[n := None]);
    if JointClash(xs, d, xs[n], name) {
      var e :| 0 <= e < |xs| && xs[e].examId != xs[n].examId && xs[e].date == xs[n].date
               && (xs[e].time == xs[n].time || xs[e].location != xs[n].location)
               && (d.mains[e] == Some(name) || Listed(d.joints[e], name));
      assert d0.mains[e] == d.mains[e];
    }
    if JointClash(xs, d0, xs[n], name) {
      var e :| 0 <= e < |xs| && xs[e].examId != xs[n].examId && xs[e].date == xs[n].date
               && (xs[e].time == xs[n].time || xs[e].location != xs[n].location)
               && (d0.mains[e] == Some(name) || Listed(d0.joints[e], name));
      assert d0.mains[e] == d.mains[e];
    }
  }

  /** Lines 139-147: the pass raises exactly when the available teachers are all near the room or
      all away from it; otherwise the pool is the near ones, or the far ones when the lightest
      near workload is two or more above the lightest far one. */
  lemma {:induction false} PoolChoice(ps: seq<Profile>, ls: seq<Load>, avail: seq<nat>, location: string)
    requires |ls| == |ps| && Below(avail, |ps|)
    ensures var r := Pool(ps, ls, avail, location);
            && (r.None? <==> (forall t :: t in avail ==> P.Near(ps[t], location))
                             || (forall t :: t in avail ==> !P.Near(ps[t], location)))
            && (r.Some? ==>
                  var near := Prefer(ps, avail, location);
                  var far := Outside(avail, near, |ps|);
                  && near != [] && far != []
                  && var wide := Least(ls, near) >= Least(ls, far) + 2;
                  && (wide ==> r.value == far && forall t :: t in r.value <==> t in avail && !P.Near(ps[t], location))
                  && (!wide ==> r.value == near && forall t :: t in r.value <==> t in avail && P.Near(ps[t], location)))
  {
    var near := Prefer(ps, avail, location);
    var far := Outside(avail, near, |ps|);
    if near == [] {
      assert forall t :: t in avail ==> !P.Near(ps[t], location);
    } else if far == [] {
      assert forall t :: t in avail ==> P.Near(ps[t], location);
    } else {
      assert near[0] in avail && P.Near(ps[near[0]], location);
      assert far[0] in avail && !P.Near(ps[far[0]], location);
    }
  }

  /** No teacher's name holds the separator of the joint entry. */
  predicate Plain(ps: seq<Profile>)
  {
    forall t :: 0 <= t < |ps| ==> ',' !in ps[t].name
  }

  /** The teachers the loop of lines 156-166 adds, `m` of them, going round `pool` from `i`. */
  function Turns(pool: seq<nat>, i: nat, m: nat): (r: seq<nat>)
    requires i < |pool|
    ensures |r| == m && forall k :: 0 <= k < m ==> r[k] in pool
    decreases m
  {
    if m == 0 then [] else [pool[i]] + Turns(pool, Next(i, |pool|), m - 1)
  }

  /** The names of a list of teachers. */
  function Names(ps: seq<Profile>, s: seq<nat>): (r: seq<string>)
    requires Below(s, |ps|)
    ensures |r| == |s| && forall k :: 0 <= k < |s| ==> r[k] == ps[s[k]].name
  {
    if s == [] then [] else [ps[s[0]].name] + Names(ps, s[1..])
  }

  lemma {:induction false} NamesCons(ps: seq<Profile>, t: nat, rest: seq<nat>)
    requires t < |ps| && Below(rest, |ps|)
    ensures Names(ps, [t] + rest) == [ps[t].name] + Names(ps, rest)
  {
    assert ([t] + rest)[1..] == rest;
  }

  lemma Assoc<T>(a: seq<T>, b: seq<T>, c: seq<T>)
    ensures a + b + c == a + (b + c)
  {
  }

  /** Lines 162-164 done `k` times. */
  function CreditJoints(l: Load, course: string, k: nat): (r: Load)
    ensures r.workload == l.workload + k && r.joint == l.joint + k
    ensures r.main == l.main && r.mainCourses == l.mainCourses
    decreases k
  {
    if k == 0 then l else CreditJoint(CreditJoints(l, course, k - 1), course)
  }

  /** `k` joint duties for a course tally the course `k` more times and leave every other course. */
  lemma {:induction false} CreditJointsTally(l: Load, course: string, k: nat)
    requires k > 0
    ensures var r := CreditJoints(l, course, k);
            && r.jointCourses.Keys == l.jointCourses.Keys + {course}
            && r.jointCourses[course] == Get(l.jointCourses, course) + k
            && forall c :: c in l.jointCourses && c != course ==> r.jointCourses[c] == l.jointCourses[c]
    decreases k
  {
    if k > 1 {
      CreditJointsTally(l, course, k - 1);
    }
  }

  lemma {:induction false} CreditJointsFirst(l: Load, course: string, k: nat)
    ensures CreditJoints(CreditJoint(l, course), course, k) == CreditJoints(l, course, k + 1)
    decreases k
  {
    if k > 0 {
      CreditJointsFirst(l, course, k - 1);
    }
  }

  /** How many names the loop of lines 156-166 adds to a non-empty joint entry. */
  function Wanted(j: Option<string>, count: int): nat
  {
    if Parts(j) < count then count - Parts(j) else 0
  }

  /** One more name on a non-empty joint entry is one more part and one fewer wanted. */
  lemma {:induction false} AddOne(j: Option<string>, name: string, count: int)
    requires Truthy(j) && name != "" && ',' !in name && Short(j, count)
    ensures var j' := Add(j, name);
            Truthy(j') && Split(j'.value, ',') == Split(j.value, ',') + [name] && Wanted(j', count) == Wanted(j, count) - 1
  {
    assert Add(j, name).value == j.value + [','] + name;
    SplitAppend(j.value, ',', name);
  }

  /** The names added to a non-empty joint entry: the loop adds names until the entry holds
      `count` of them, taking the pool round from `i`. */
  lemma {:induction false} EnlistNames(ps: seq<Profile>, ls: seq<Load>, pool: seq<nat>, course: string, count: int,
                                       j: Option<string>, i: nat)
    requires |ls| == |ps| && NonBlank(ps) && Plain(ps) && Below(pool, |ps|) && i < |pool| && Truthy(j)
    ensures var r := Enlist(ps, ls, pool, course, count, j, i);
            r.joint.Some? && Split(r.joint.value, ',') == Split(j.value, ',') + Names(ps, Turns(pool, i, Wanted(j, count)))
    decreases Wanted(j, count)
  {
    if Short(j, count) {
      var t := pool[i];
      AddOne(j, ps[t].name, count);
      EnlistNames(ps, ls[t := CreditJoint(ls[t], course)], pool, course, count, Add(j, ps[t].name), Next(i, |pool|));
      var rest := Turns(pool, Next(i, |pool|), Wanted(j, count) - 1);
      NamesCons(ps, t, rest);
      Assoc(Split(j.value, ','), [ps[t].name], Names(ps, rest));
    } else {
      assert Split(j.value, ',') + Names(ps, []) == Split(j.value, ',');
    }
  }

  /** Each teacher's counters in `rs` are those in `ls` with `times[t]` joint duties for the
      course added. */
  predicate Credited(ls: seq<Load>, rs: seq<Load>, course: string, times: multiset<nat>)
  {
    |rs| == |ls| && forall t: nat :: t < |ls| ==> rs[t] == CreditJoints(ls[t], course, times[t])
  }

  /** Crediting one teacher first and the rest afterwards credits them all. */
  lemma {:induction false} CreditedFirst(ls: seq<Load>, t: nat, rs: seq<Load>, course: string, later: multiset<nat>)
    requires t < |ls| && Credited(ls[t := CreditJoint(ls[t], course)], rs, course, later)
    ensures Credited(ls, rs, course, multiset{t} + later)
  {
    var ls' := ls[t := CreditJoint(ls[t], course)];
    forall u: nat | u < |ls|
      ensures rs[u] == CreditJoints(ls[u], course, (multiset{t} + later)[u])
    {
      assert rs[u] == CreditJoints(ls'[u], course, later[u]);
      if u == t {
        assert (multiset{t} + later)[u] == later[u] + 1;
        CreditJointsFirst(ls[t], course, later[t]);
      } else {
        assert (multiset{t} + later)[u] == later[u] && ls'[u] == ls[u];
      }
    }
  }

  /** The loop credits each teacher it adds to a non-empty joint entry once per time added. */
  lemma {:induction false} EnlistCredits(ps: seq<Profile>, ls: seq<Load>, pool: seq<nat>, course: string, count: int,
                                         j: Option<string>, i: nat)
    requires |ls| == |ps| && NonBlank(ps) && Plain(ps) && Below(pool, |ps|) && i < |pool| && Truthy(j)
    ensures Credited(ls, Enlist(ps, ls, pool, course, count, j, i).loads, course, multiset(Turns(pool, i, Wanted(j, count))))
    decreases Wanted(j, count)
  {
    if Short(j, count) {
      var t := pool[i];
      var ls' := ls[t := CreditJoint(ls[t], course)];
      AddOne(j, ps[t].name, count);
      EnlistCredits(ps, ls', pool, course, count, Add(j, ps[t].name), Next(i, |pool|));
      var rest := Turns(pool, Next(i, |pool|), Wanted(j, count) - 1);
      assert Turns(pool, i, Wanted(j, count)) == [t] + rest;
      CreditedFirst(ls, t, Enlist(ps, ls', pool, course, count, Add(j, ps[t].name), Next(i, |pool|)).loads, course, multiset(rest));
    } else {
      assert Turns(pool, i, Wanted(j, count)) == [];
    }
  }

  /** A name holding no separator splits to itself. */
  lemma {:induction false} SplitPlain(s: string, sep: char)
    requires sep !in s
    ensures Split(s, sep) == [s]
  {
  }

  /** How many names the loop puts on the exam's unset joint entry: `count`, and one when
      `count` is below one. */
  function Fresh(count: int): nat
  {
    if count < 1 then 1 else count
  }

  /** Lines 156-166 on the exam's unset joint entry: the entry ends up naming `Fresh(count)`
      teachers taken round the pool from its first teacher. */
  lemma {:induction false} EnlistFreshNames(ps: seq<Profile>, ls: seq<Load>, pool: seq<nat>, course: string, count: int)
    requires |ls| == |ps| && NonBlank(ps) && Plain(ps) && Below(pool, |ps|) && pool != []
    ensures var r := Enlist(ps, ls, pool, course, count, None, 0);
            r.joint.Some? && Split(r.joint.value, ',') == Names(ps, Turns(pool, 0, Fresh(count)))
  {
    var t := pool[0];
    var j' := Add(None, ps[t].name);
    var ls' := ls[t := CreditJoint(ls[t], course)];
    GapShrinks(None, ps[t].name, count);
    SplitPlain(ps[t].name, ',');
    assert Wanted(j', count) == Fresh(count) - 1;
    EnlistNames(ps, ls', pool, course, count, j', Next(0, |pool|));
    var rest := Turns(pool, Next(0, |pool|), Wanted(j', count));
    assert Turns(pool, 0, Fresh(count)) == [t] + rest;
    NamesCons(ps, t, rest);
  }

  /** Each teacher named on the exam's entry is credited once per time named. */
  lemma {:induction false} EnlistFreshCredits(ps: seq<Profile>, ls: seq<Load>, pool: seq<nat>, course: string, count: int)
    requires |ls| == |ps| && NonBlank(ps) && Plain(ps) && Below(pool, |ps|) && pool != []
    ensures Credited(ls, Enlist(ps, ls, pool, course, count, None, 0).loads, course, multiset(Turns(pool, 0, Fresh(count))))
  {
    var t := pool[0];
    var j' := Add(None, ps[t].name);
    var ls' := ls[t := CreditJoint(ls[t], course)];
    GapShrinks(None, ps[t].name, count);
    SplitPlain(ps[t].name, ',');
    assert Wanted(j', count) == Fresh(count) - 1;
    EnlistCredits(ps, ls', pool, course, count, j', Next(0, |pool|));
    var rest := Turns(pool, Next(0, |pool|), Wanted(j', count));
    assert Turns(pool, 0, Fresh(count)) == [t] + rest;
    CreditedFirst(ls, t, Enlist(ps, ls', pool, course, count, j', Next(0, |pool|)).loads, course, multiset(rest));
  }

  /** From the `i`-th teacher on, the loop takes the rest of the pool in order and then starts
      again from the pool's first teacher. */
  lemma {:induction false} TurnsLap(pool: seq<nat>, i: nat, m: nat)
    requires i < |pool| && |pool| - i < m
    ensures var added := Turns(pool, i, m);
            added[|pool| - i] == pool[0] && forall k :: 0 <= k < |pool| - i ==> added[k] == pool[i + k]
    decreases |pool| - i
  {
    var added := Turns(pool, i, m);
    var rest := Turns(pool, Next(i, |pool|), m - 1);
    assert added == [pool[i]] + rest;
    if i + 1 < |pool| {
      TurnsLap(pool, i + 1, m - 1);
      forall k | 0 < k < |pool| - i
        ensures added[k] == pool[i + k]
      {
        assert added[k] == rest[k - 1];
      }
      assert added[|pool| - i] == rest[|pool| - (i + 1)];
    } else {
      assert rest == [pool[0]] + Turns(pool, Next(0, |pool|), m - 2);
      assert added[1] == rest[0];
    }
  }

  /** When more joint proctors are wanted than the pool holds, the loop names every teacher of
      the pool in order and then names the pool's first teacher a second time on the same exam. */
  lemma {:induction false} EnlistRepeats(pool: seq<nat>, count: nat)
    requires pool != [] && count > |pool|
    ensures var added := Turns(pool, 0, count);
            added[..|pool|] == pool && added[|pool|] == added[0] == pool[0]
  {
    TurnsLap(pool, 0, count);
  }

  // ---------------------------------------------------------------------------
  // One exam of the joint pass, and the whole pass.

  /** Whether line 99 lets an exam through to the joint loop. */
  predicate JointExam(x: Paper)
  {
    x.proctorDept == JointDept && x.proctorCount != 0
  }

  /** One exam of the joint pass changes no exam's entries but its own joint entry, and an
      exam line 99 skips changes nothing. */
  lemma {:induction false} JointTurnLeaves(ps: seq<Profile>, xs: seq<Paper>, d: P.Desk, s: seq<nat>, n: nat)
    requires Shaped(ps, xs, d) && NonBlank(ps) && Below(s, |ps|) && n < |xs|
    ensures var r := JointTurn(ps, xs, d, s, n);
            && (!JointExam(xs[n]) ==> r == Some(d))
            && (r.Some? ==> forall e :: 0 <= e < |xs| && e != n ==> r.value.joints[e] == d.joints[e])
  {
  }

  /** The teachers of the pool an exam draws from are teachers of the sorted list who were fit
      for the exam when it came up. */
  lemma {:induction false} PoolFit(ps: seq<Profile>, xs: seq<Paper>, d: P.Desk, s: seq<nat>, x: Paper)
    requires Shaped(ps, xs, d) && Below(s, |ps|)
    ensures var o := Avail(ps, xs, d, x, s, 0, []);
            o.Some? && Pool(ps, d.loads, o.value, x.location).Some? ==>
              forall t :: t in Pool(ps, d.loads, o.value, x.location).value ==> t < |ps| && t in s && JointFit(ps, xs, d, x, t)
  {
    var o := Avail(ps, xs, d, x, s, 0, []);
    AvailKeeps(ps, xs, d, x, s, 0, []);
    if o.Some? {
      PoolChoice(ps, d.loads, o.value, x.location);
    }
  }

  /** An exam line 99 lets through, with its joint entry unset: the pass raises exactly when
      the rule raises or one of the two location groups is empty, and otherwise the entry names
      `Fresh(count)` teachers of the pool taken round from its first, each credited once per
      time named. */
  lemma {:induction false} JointTurnNames(ps: seq<Profile>, xs: seq<Paper>, d: P.Desk, s: seq<nat>, n: nat)
    requires Shaped(ps, xs, d) && NonBlank(ps) && Plain(ps) && Below(s, |ps|) && n < |xs|
    requires JointExam(xs[n]) && d.joints[n].None?
    ensures var x := xs[n];
            var r := JointTurn(ps, xs, d, s, n);
            var o := Avail(ps, xs, d, x, s, 0, []);
            && (r.None? <==> o.None? || Pool(ps, d.loads, o.value, x.location).None?)
            && (r.Some? ==>
                  var added := Turns(Pool(ps, d.loads, o.value, x.location).value, 0, Fresh(x.proctorCount));
                  && r.value.joints[n].Some?
                  && Split(r.value.joints[n].value, ',') == Names(ps, added)
                  && Credited(d.loads, r.value.loads, x.course, multiset(added)))
  {
    var x := xs[n];
    var o := Avail(ps, xs, d, x, s, 0, []);
    if o.Some? && Pool(ps, d.loads, o.value, x.location).Some? {
      var pool := Pool(ps, d.loads, o.value, x.location).value;
      EnlistFreshNames(ps, d.loads, pool, x.course, x.proctorCount);
      EnlistFreshCredits(ps, d.loads, pool, x.course, x.proctorCount);
    }
  }

  /** Joint duties leave the main counters alone. */
  lemma {:induction false} CreditedCounted(ls: seq<Load>, rs: seq<Load>, course: string, times: multiset<nat>)
    requires AllCounted(ls) && Credited(ls, rs, course, times)
    ensures AllCounted(rs)
  {
    forall t | 0 <= t < |rs|
      ensures Counted(rs[t])
    {
      assert rs[t] == CreditJoints(ls[t], course, times[t]);
    }
  }

  lemma {:induction false} JointTurnCounted(ps: seq<Profile>, xs: seq<Paper>, d: P.Desk, s: seq<nat>, n: nat)
    requires Shaped(ps, xs, d) && NonBlank(ps) && Below(s, |ps|) && n < |xs| && AllCounted(d.loads)
    ensures var r := JointTurn(ps, xs, d, s, n); r.Some? ==> AllCounted(r.value.loads)
  {
    var x := xs[n];
    var o := Avail(ps, xs, d, x, s, 0, []);
    if JointExam(x) && o.Some? && Pool(ps, d.loads, o.value, x.location).Some? {
      var pool := Pool(ps, d.loads, o.value, x.location).value;
      EnlistKeepsMain(ps, d.loads, pool, x.course, x.proctorCount, d.joints[n], 0);
    }
  }

  /** The joint loop leaves every teacher's main count and main courses as they were. */
  lemma {:induction false} EnlistKeepsMain(ps: seq<Profile>, ls: seq<Load>, pool: seq<nat>, course: string, count: int,
                                           j: Option<string>, i: nat)
    requires |ls| == |ps| && NonBlank(ps) && Below(pool, |ps|) && i < |pool| && AllCounted(ls)
    ensures AllCounted(Enlist(ps, ls, pool, course, count, j, i).loads)
    decreases Gap(j, count)
  {
    if Short(j, count) {
      var t := pool[i];
      GapShrinks(j, ps[t].name, count);
      var ls' := ls[t := CreditJoint(ls[t], course)];
      assert Counted(ls'[t]);
      EnlistKeepsMain(ps, ls', pool, course, count, Add(j, ps[t].name), Next(i, |pool|));
    }
  }

  /** The joint pass keeps every teacher's main count equal to the number of courses they
      proctor as main. */
  lemma {:induction false} JointPassCounted(ps: seq<Profile>, xs: seq<Paper>, d: P.Desk, s: seq<nat>, n: nat)
    requires Shaped(ps, xs, d) && NonBlank(ps) && Below(s, |ps|) && n <= |xs| && AllCounted(d.loads)
    ensures var r := JointPass(ps, xs, d, s, n); r.Some? ==> AllCounted(r.value.loads)
    decreases |xs| - n
  {
    if n < |xs| {
      JointTurnCounted(ps, xs, d, s, n);
      var e := JointTurn(ps, xs, d, s, n);
      if e.Some? {
        JointPassCounted(ps, xs, e.value, s, n + 1);
      }
    }
  }

  /** The joint pass leaves the entries of exams it has passed and of exams line 99 skips. */
  lemma {:induction false} JointPassLeaves(ps: seq<Profile>, xs: seq<Paper>, d: P.Desk, s: seq<nat>, n: nat)
    requires Shaped(ps, xs, d) && NonBlank(ps) && Below(s, |ps|) && n <= |xs|
    ensures var r := JointPass(ps, xs, d, s, n);
            r.Some? ==> && (forall e :: 0 <= e < n && e < |xs| ==> r.value.joints[e] == d.joints[e])
                        && (forall e :: 0 <= e < |xs| && !JointExam(xs[e]) ==> r.value.joints[e] == d.joints[e])
    decreases |xs| - n
  {
    if n < |xs| {
      JointTurnLeaves(ps, xs, d, s, n);
      var e := JointTurn(ps, xs, d, s, n);
      if e.Some? {
        JointPassLeaves(ps, xs, e.value, s, n + 1);
      }
    }
  }

  /** `assign_proctors` keeps every teacher's main count equal to the number of courses they
      proctor as main, starting from teachers as `Teacher.__init__` leaves them or any such
      state. */
  lemma {:induction false} ProctorsCounted(ps: seq<Profile>, xs: seq<Paper>, d: P.Desk)
    requires Shaped(ps, xs, d) && NonBlank(ps) && AllCounted(d.loads)
    ensures var r := Proctors(ps, xs, d); r.Some? ==> AllCounted(r.value.loads)
  {
    var s := Ranking(Workloads(d.loads));
    MainPassCounted(ps, xs, d, s, 0);
    JointPassCounted(ps, xs, MainPass(ps, xs, d, s, 0), s, 0);
  }

  /** `assign_proctors` touches only the main entries of economics exams and the joint entries of
      exams line 99 lets through. */
  lemma {:induction false} ProctorsLeave(ps: seq<Profile>, xs: seq<Paper>, d: P.Desk)
    requires Shaped(ps, xs, d) && NonBlank(ps)
    ensures var r := Proctors(ps, xs, d);
            r.Some? ==> forall e :: 0 <= e < |xs| ==>
              && (xs[e].teachingDept != Economics ==> r.value.mains[e] == d.mains[e])
              && (!JointExam(xs[e]) ==> r.value.joints[e] == d.joints[e])
  {
    var s := Ranking(Workloads(d.loads));
    MainPassLeaves(ps, xs, d, s, 0);
    JointPassLeaves(ps, xs, MainPass(ps, xs, d, s, 0), s, 0);
  }
}
