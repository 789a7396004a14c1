/** `assign_proctors` of utils/exam_scu2.py (lines 52-166) as the steps it takes on the
    `Teacher` and `Exam` objects. Every method is proved against the functions of `ScuTwo`:
    ghost values carry the state those functions describe, and the predicate `Holds` says that
    the objects hold it. */
module ExamScuTwo {
  import opened Base
  import opened Text
  import opened Order
  import opened Staff
  import opened ScuTwo
  import P = ScuPass
  import E = ExamScu

  /** `Exam` (lines 36-49). */
  class Exam {
    const examId: string
    const teachingDept: string
    const course: string
    const classId: string
    const teachers: seq<string>
    const examDate: string
    const examTime: string
    const examLocation: string
    const proctorDept: int
    const proctorCount: int
    var mainProctor: Option<string>
    var jointProctor: Option<string>

    constructor (examId: string, teachingDept: string, course: string, classId: string, teachers: seq<string>,
                 examDate: string, examTime: string, examLocation: string, proctorDept: int, proctorCount: int)
      ensures PaperOf(this) == Paper(examId, teachingDept, course, classId, teachers, examDate, examTime,
                                     examLocation, proctorDept, proctorCount)
      ensures mainProctor == None && jointProctor == None
    {
      this.examId := examId;
      this.teachingDept := teachingDept;
      this.course := course;
      this.classId := classId;
      this.teachers := teachers;
      this.examDate := examDate;
      this.examTime := examTime;
      this.examLocation := examLocation;
      this.proctorDept := proctorDept;
      this.proctorCount := proctorCount;
      mainProctor := None;
      jointProctor := None;
    }
  }

  function PaperOf(x: Exam): Paper
  {
    Paper(x.examId, x.teachingDept, x.course, x.classId, x.teachers, x.examDate, x.examTime,
          x.examLocation, x.proctorDept, x.proctorCount)
  }

  function Papers(xs: seq<Exam>): (r: seq<Paper>)
    ensures |r| == |xs| && forall i :: 0 <= i < |xs| ==> r[i] == PaperOf(xs[i])
  {
    seq(|xs|, i requires 0 <= i < |xs| => PaperOf(xs[i]))
  }

  /** No exam object appears twice. */
  predicate ApartExams(xs: seq<Exam>)
  {
    forall i, j :: 0 <= i < |xs| && 0 <= j < |xs| && i != j ==> xs[i] != xs[j]
  }

  /** The exams hold the proctor entries `mains` and `joints`. */
  ghost predicate EntriesHold(xs: seq<Exam>, mains: seq<Option<string>>, joints: seq<Option<string>>)
    reads xs
  {
    && |mains| == |xs| && |joints| == |xs|
    && forall e :: 0 <= e < |xs| ==> xs[e].mainProctor == mains[e] && xs[e].jointProctor == joints[e]
  }

  /** The teachers hold the counters of `d` and the exams its proctor entries. */
  ghost predicate Holds(ts: seq<Teacher>, xs: seq<Exam>, d: P.Desk)
    reads ts, xs
  {
    TeachersHold(ts, d.loads) && EntriesHold(xs, d.mains, d.joints)
  }

  // ---------------------------------------------------------------------------
  // The sort (line 62).

  /** `teachers.sort(key=lambda t: t.workload)`: `sorted` is the caller's list afterwards, and
      `order` says where each of its teachers stood before. */
  method SortTeachers(ts: seq<Teacher>, ghost d: P.Desk) returns (sorted: seq<Teacher>, order: seq<nat>)
    requires TeachersHold(ts, d.loads)
    ensures order == Ranking(Workloads(d.loads))
    ensures |sorted| == |ts| && forall k :: 0 <= k < |ts| ==> sorted[k] == ts[order[k]]
  {
    var keys := E.CurrentWorkloads(ts, d);
    order := Ranking(keys);
    sorted := seq(|order|, k requires 0 <= k < |order| => ts[order[k]]);
  }

  // ---------------------------------------------------------------------------
  // The main pass (lines 65-94).

  /** Line 70: `[t for t in teachers if t.name in exam.teachers]`. */
  method TeachingOf(ts: seq<Teacher>, s: seq<nat>, names: seq<string>) returns (r: seq<nat>)
    requires Below(s, |ts|)
    ensures r == Teaching(Profiles(ts), s, names)
  {
    ghost var ps := Profiles(ts);
    r := [];
    for k := 0 to |s|
      invariant r == Teaching(ps, s[..k], names)
    {
      assert s[..k + 1][..k] == s[..k];
      if ts[s[k]].name in names {
        r := r + [s[k]];
      }
    }
    assert s[..|s|] == s;
  }

  /** Lines 73-75 (`byTime`) or 80-82: an exam of another course on the same date, at the same
      time or in another room. */
  predicate MainSlot(xs: seq<Paper>, x: Paper, e: nat, byTime: bool)
    requires e < |xs|
  {
    xs[e].course != x.course && xs[e].date == x.date && (if byTime then xs[e].time == x.time else xs[e].location != x.location)
  }

  /** One inner loop of lines 73-78 (`byTime`) or 80-85: an exam in that slot has `name` as
      its main proctor. */
  method MainHeld(xs: seq<Exam>, x: Paper, name: string, byTime: bool, ghost d: P.Desk) returns (found: bool)
    requires EntriesHold(xs, d.mains, d.joints)
    ensures found <==> exists e :: 0 <= e < |xs| && MainSlot(Papers(xs), x, e, byTime) && d.mains[e] == Some(name)
  {
    ghost var papers := Papers(xs);
    for e := 0 to |xs|
      invariant forall f :: 0 <= f < e && MainSlot(papers, x, f, byTime) ==> d.mains[f] != Some(name)
    {
      var y := xs[e];
      if y.course != x.course && y.examDate == x.date && (if byTime then y.examTime == x.time else y.examLocation != x.location) {
        if y.mainProctor == Some(name) {
          return true;
        }
      }
    }
    return false;
  }

  /** Lines 73-85 for one teacher: they are the main proctor of an exam of another course on
      the same date, at the same time or in another room. */
  method MainClashes(ts: seq<Teacher>, xs: seq<Exam>, x: Paper, t: nat, ghost d: P.Desk) returns (clash: bool)
    requires EntriesHold(xs, d.mains, d.joints) && t < |ts|
    ensures clash <==> t in MainClashing(Profiles(ts), Papers(xs), d.mains, x)
  {
    var name := ts[t].name;
    clash := MainHeld(xs, x, name, true, d);
    if !clash {
      clash := MainHeld(xs, x, name, false, d);
    }
    if MainClash(Papers(xs), d.mains, x, name) {
      var e :| 0 <= e < |xs| && Papers(xs)[e].course != x.course && Papers(xs)[e].date == x.date
               && (Papers(xs)[e].time == x.time || Papers(xs)[e].location != x.location)
               && d.mains[e] == Some(name);
      assert MainSlot(Papers(xs), x, e, true) || MainSlot(Papers(xs), x, e, false);
    }
  }

  /** Dropping one element keeps the rest pointing at teachers. */
  lemma BelowDrop(r: seq<nat>, i: nat, n: nat)
    requires Below(r, n) && i < |r|
    ensures Below(r[..i] + r[i + 1..], n)
  {
    assert forall k :: 0 <= k < |r| - 1 ==> (r[..i] + r[i + 1..])[k] == if k < i then r[k] else r[k + 1];
  }

  /** The removal loop of lines 72-85: walking the list, every teacher with a clashing main
      duty is removed from it, and the one after each removal is stepped over. */
  method Pare(ts: seq<Teacher>, xs: seq<Exam>, x: Paper, s: seq<nat>, ghost d: P.Desk) returns (r: seq<nat>)
    requires EntriesHold(xs, d.mains, d.joints)
    requires Distinct(s) && Below(s, |ts|)
    ensures r == P.Sieve(s, MainClashing(Profiles(ts), Papers(xs), d.mains, x))
  {
    ghost var bad := MainClashing(Profiles(ts), Papers(xs), d.mains, x);
    r := s;
    var i: nat := 0;
    while i < |r|
      invariant Distinct(r) && Below(r, |ts|)
      invariant i <= |r| + 1
      invariant i <= |r| ==> P.Sieve(s, bad) == r[..i] + P.Sieve(r[i..], bad)
      invariant i == |r| + 1 ==> P.Sieve(s, bad) == r
      decreases |r| + 1 - i
    {
      ghost var r0 := r;
      var t := r[i];
      var clash := MainClashes(ts, xs, x, t, d);
      if clash {
        E.DropAt(r, i);
        BelowDrop(r, i, |ts|);
        r := RemoveFirst(r, t);
      }
      E.SieveStep(s, bad, r0, i);
      i := i + 1;
    }
    if i == |r| {
      assert r[..i] == r;
    }
  }

  /** The counters `ls` after the walk of lines 87-94 ends as `c`. */
  function Crowned(ls: seq<Load>, c: Crown, course: string): (r: seq<Load>)
    requires c.pick.Some? ==> c.pick.value < |ls|
    ensures |r| == |ls|
  {
    if c.pick.Some? then ls[c.pick.value := CreditMain(ls[c.pick.value], course)] else ls
  }

  /** Line 89: `exam.main_proctor = teacher.name`. */
  method SetMain(xs: seq<Exam>, n: nat, name: string, ghost mains: seq<Option<string>>, ghost joints: seq<Option<string>>)
    requires ApartExams(xs) && EntriesHold(xs, mains, joints) && n < |xs|
    modifies xs[n]
    ensures EntriesHold(xs, mains[n := Some(name)], joints)
  {
    xs[n].mainProctor := Some(name);
  }

  /** Lines 91-93: teacher `t` proctors the course as main for the first time. */
  method MainCredit(ts: seq<Teacher>, xs: seq<Exam>, t: nat, course: string, ghost d: P.Desk)
    requires Apart(ts) && Holds(ts, xs, d) && t < |ts| && course !in ts[t].mainProctorCourses
    modifies ts[t]
    ensures Holds(ts, xs, d.(loads := d.loads[t := CreditMain(d.loads[t], course)]))
  {
    var teacher := ts[t];
    teacher.mainProctorCourses := teacher.mainProctorCourses[course := 1];
    teacher.mainProctorCount := teacher.mainProctorCount + 1;
    teacher.workload := teacher.workload + 1;
    E.OneCredited(ts, d.loads, t, CreditMain(d.loads[t], course));
  }

  /** Lines 87-94: every fit teacher of `kept` is written into exam `n`'s main entry, and the
      first who has not yet proctored the course as main is credited and ends the walk. */
  method MainWalk(ts: seq<Teacher>, xs: seq<Exam>, n: nat, kept: seq<nat>, ghost d: P.Desk) returns (ghost c: Crown)
    requires Apart(ts) && ApartExams(xs) && Holds(ts, xs, d) && n < |xs| && Below(kept, |ts|)
    modifies ts, xs[n]
    ensures c == Crowning(Profiles(ts), d.loads, kept, Papers(xs)[n], 0, d.mains[n])
    ensures Holds(ts, xs, d.(loads := Crowned(d.loads, c, xs[n].course), mains := d.mains[n := c.main]))
  {
    var x := xs[n];
    ghost var ps := Profiles(ts);
    ghost var p := PaperOf(x);
    c := Crowning(ps, d.loads, kept, p, 0, d.mains[n]);
    var k: nat := 0;
    while k < |kept|
      invariant k <= |kept|
      invariant TeachersHold(ts, d.loads) && EntriesHold(xs, d.mains[n := x.mainProctor], d.joints)
      invariant c == Crowning(ps, d.loads, kept, p, k, x.mainProctor)
    {
      var t := kept[k];
      var teacher := ts[t];
      if teacher.exemptedMain.None? && x.examDate !in teacher.unavailableDates {
        SetMain(xs, n, teacher.name, d.mains[n := x.mainProctor], d.joints);
        if x.course !in teacher.mainProctorCourses {
          MainCredit(ts, xs, t, x.course, d.(mains := d.mains[n := x.mainProctor]));
          assert c == Crown(Some(teacher.name), Some(t));
          return;
        }
      }
      k := k + 1;
    }
  }

  /** One exam of the main pass (lines 65-94). */
  method MainExam(ts: seq<Teacher>, xs: seq<Exam>, n: nat, s: seq<nat>, ghost d: P.Desk) returns (ghost r: P.Desk)
    requires Apart(ts) && ApartExams(xs) && Holds(ts, xs, d) && n < |xs| && Below(s, |ts|) && Distinct(s)
    modifies ts, xs[n]
    ensures r == MainTurn(Profiles(ts), Papers(xs), d, s, n) && Holds(ts, xs, r)
  {
    var x := xs[n];
    if x.teachingDept != Economics {
      return d;
    }
    var te := TeachingOf(ts, s, x.teachers);
    DistinctSubMultiset(te, s);
    var kept := Pare(ts, xs, PaperOf(x), te, d);
    assert Below(kept, |ts|) by {
      assert forall k :: 0 <= k < |kept| ==> kept[k] in te;
    }
    ghost var c := MainWalk(ts, xs, n, kept, d);
    r := d.(loads := Crowned(d.loads, c, x.course), mains := d.mains[n := c.main]);
  }

  /** Lines 65-94: the main pass over the exam list. */
  method MainRound(ts: seq<Teacher>, xs: seq<Exam>, s: seq<nat>, ghost d: P.Desk) returns (ghost e: P.Desk)
    requires Apart(ts) && ApartExams(xs) && Holds(ts, xs, d) && Below(s, |ts|) && Distinct(s)
    modifies ts, xs
    ensures e == MainPass(Profiles(ts), Papers(xs), d, s, 0) && Holds(ts, xs, e)
  {
    e := d;
    for n := 0 to |xs|
      invariant Holds(ts, xs, e)
      invariant MainPass(Profiles(ts), Papers(xs), d, s, 0) == MainPass(Profiles(ts), Papers(xs), e, s, n)
    {
      e := MainExam(ts, xs, n, s, e);
    }
  }

  // ---------------------------------------------------------------------------
  // The joint pass (lines 97-166).

  /** Lines 112-114 (`byTime`) or 127-129: an exam with another id on the same date, at the
      same time or in another room. */
  predicate JointSlot(xs: seq<Paper>, x: Paper, e: nat, byTime: bool)
    requires e < |xs|
  {
    xs[e].examId != x.examId && xs[e].date == x.date && (if byTime then xs[e].time == x.time else xs[e].location != x.location)
  }

  /** One inner loop of lines 112-123 (`byTime`) or 127-136: an exam in that slot has `name` as
      its main proctor or among its joint proctors. */
  method JointHeld(xs: seq<Exam>, x: Paper, name: string, byTime: bool, ghost d: P.Desk) returns (found: bool)
    requires EntriesHold(xs, d.mains, d.joints)
    ensures found <==> exists e :: 0 <= e < |xs| && JointSlot(Papers(xs), x, e, byTime)
                                   && (d.mains[e] == Some(name) || Listed(d.joints[e], name))
  {
    ghost var papers := Papers(xs);
    for e := 0 to |xs|
      invariant forall f :: 0 <= f < e && JointSlot(papers, x, f, byTime) ==> d.mains[f] != Some(name) && !Listed(d.joints[f], name)
    {
      var y := xs[e];
      if y.examId != x.examId && y.examDate == x.date && (if byTime then y.examTime == x.time else y.examLocation != x.location) {
        if y.mainProctor == Some(name) {
          return true;
        }
        if y.jointProctor.Some? && name in Split(y.jointProctor.value, ',') {
          return true;
        }
      }
    }
    return false;
  }

  /** Lines 112-136 for one teacher: a duty elsewhere clashes with the exam. */
  method JointClashes(xs: seq<Exam>, x: Paper, name: string, ghost d: P.Desk) returns (clash: bool)
    requires EntriesHold(xs, d.mains, d.joints)
    ensures clash == JointClash(Papers(xs), d, x, name)
  {
    clash := JointHeld(xs, x, name, true, d);
    if !clash {
      clash := JointHeld(xs, x, name, false, d);
    }
    if JointClash(Papers(xs), d, x, name) {
      var e :| 0 <= e < |xs| && Papers(xs)[e].examId != x.examId && Papers(xs)[e].date == x.date
               && (Papers(xs)[e].time == x.time || Papers(xs)[e].location != x.location)
               && (d.mains[e] == Some(name) || Listed(d.joints[e], name));
      assert JointSlot(Papers(xs), x, e, true) || JointSlot(Papers(xs), x, e, false);
    }
  }

  /** Removing the teacher after those kept so far leaves the kept ones and the rest. */
  lemma {:induction false} DropNext(kept: seq<nat>, s: seq<nat>, k: nat)
    requires k < |s| && Distinct(kept + s[k..])
    ensures s[k] in kept + s[k..]
    ensures RemoveFirst(kept + s[k..], s[k]) == kept + s[k + 1..] && Distinct(kept + s[k + 1..])
  {
    var a := kept + s[k..];
    assert a[|kept|] == s[k];
    E.DropAt(a, |kept|);
    assert a[..|kept|] == kept && a[|kept| + 1..] == s[k + 1..];
  }

  /** Keeping the teacher after those kept so far leaves the list as it is. */
  lemma KeepNext(kept: seq<nat>, s: seq<nat>, k: nat)
    requires k < |s|
    ensures (kept + [s[k]]) + s[k + 1..] == kept + s[k..]
  {
    assert s[k..] == [s[k]] + s[k + 1..];
  }

  /** Lines 107-136 for teacher `t`: `None` when `can_be_proctor` raises, and otherwise whether
      the teacher stays in the list. */
  method Judge(ts: seq<Teacher>, xs: seq<Exam>, n: nat, t: nat, ghost d: P.Desk) returns (keep: Option<bool>)
    requires Holds(ts, xs, d) && n < |xs| && t < |ts|
    ensures keep.None? <==> Proctorable(Profiles(ts)[t], d.loads[t], Papers(xs)[n].date, Papers(xs)[n].time).None?
    ensures keep.Some? ==> keep.value == (Proctorable(Profiles(ts)[t], d.loads[t], Papers(xs)[n].date, Papers(xs)[n].time).value
                                          && !JointClash(Papers(xs), d, Papers(xs)[n], Profiles(ts)[t].name))
  {
    var x := xs[n];
    var teacher := ts[t];
    var answer := teacher.CanBeProctor(x.examDate, x.examTime);
    if answer.None? {
      return None;
    }
    if !answer.value {
      return Some(false);
    }
    var clash := JointClashes(xs, PaperOf(x), teacher.name, d);
    return Some(!clash);
  }

  /** `Avail` at a teacher for whom `can_be_proctor` raises. */
  lemma AvailRaises(ps: seq<Profile>, xs: seq<Paper>, d: P.Desk, x: Paper, s: seq<nat>, k: nat, r: seq<nat>)
    requires Shaped(ps, xs, d) && Below(s, |ps|) && Below(r, |ps|) && k < |s|
    requires Proctorable(ps[s[k]], d.loads[s[k]], x.date, x.time).None?
    ensures Avail(ps, xs, d, x, s, k, r).None?
  {
  }

  /** `Avail` at a teacher for whom `can_be_proctor` answers: it goes on with the teacher kept
      or dropped. */
  lemma AvailNext(ps: seq<Profile>, xs: seq<Paper>, d: P.Desk, x: Paper, s: seq<nat>, k: nat, r: seq<nat>)
    requires Shaped(ps, xs, d) && Below(s, |ps|) && Below(r, |ps|) && k < |s|
    requires Proctorable(ps[s[k]], d.loads[s[k]], x.date, x.time).Some?
    ensures var keep := Proctorable(ps[s[k]], d.loads[s[k]], x.date, x.time).value && !JointClash(xs, d, x, ps[s[k]].name);
            Avail(ps, xs, d, x, s, k, r) == Avail(ps, xs, d, x, s, k + 1, if keep then r + [s[k]] else r)
  {
  }

  /** Lines 103-136: the teachers `can_be_proctor` does not turn down and whose duties
      elsewhere do not clash; `None` when the rule raises. */
  method Available(ts: seq<Teacher>, xs: seq<Exam>, n: nat, s: seq<nat>, ghost d: P.Desk) returns (o: Option<seq<nat>>)
    requires Holds(ts, xs, d) && n < |xs| && Below(s, |ts|) && Distinct(s)
    ensures o == Avail(Profiles(ts), Papers(xs), d, Papers(xs)[n], s, 0, [])
  {
    ghost var ps, papers := Profiles(ts), Papers(xs);
    var avail := s;
    ghost var kept: seq<nat> := [];
    assert s[0..] == s;
    for k := 0 to |s|
      invariant avail == kept + s[k..] && Distinct(avail) && Below(kept, |ts|)
      invariant Avail(ps, papers, d, papers[n], s, 0, []) == Avail(ps, papers, d, papers[n], s, k, kept)
    {
      var keep := Judge(ts, xs, n, s[k], d);
      if keep.None? {
        AvailRaises(ps, papers, d, papers[n], s, k, kept);
        return None;
      }
      AvailNext(ps, papers, d, papers[n], s, k, kept);
      if keep.value {
        KeepNext(kept, s, k);
        kept := kept + [s[k]];
      } else {
        DropNext(kept, s, k);
        avail := RemoveFirst(avail, s[k]);
      }
    }
    assert s[|s|..] == [] && avail == kept;
    assert Avail(ps, papers, d, papers[n], s, |s|, kept) == Some(kept);
    return Some(avail);
  }

  /** Line 140: the available teachers near the exam's room. */
  method PreferOf(ts: seq<Teacher>, avail: seq<nat>, location: string) returns (r: seq<nat>)
    requires Below(avail, |ts|)
    ensures r == Prefer(Profiles(ts), avail, location)
  {
    ghost var ps := Profiles(ts);
    r := [];
    for k := 0 to |avail|
      invariant r == Prefer(ps, avail[..k], location)
    {
      assert avail[..k + 1][..k] == avail[..k];
      var teacher := ts[avail[k]];
      if teacher.preferredLocation == Some(location) || teacher.preferredLocation.None? {
        r := r + [avail[k]];
      }
    }
    assert avail[..|avail|] == avail;
  }

  /** Line 141: the available teachers not near the exam's room. */
  method OutsideOf(avail: seq<nat>, prefer: seq<nat>, ghost n: nat) returns (r: seq<nat>)
    requires Below(avail, n)
    ensures r == Outside(avail, prefer, n)
  {
    r := [];
    for k := 0 to |avail|
      invariant r == Outside(avail[..k], prefer, n)
    {
      assert avail[..k + 1][..k] == avail[..k];
      if avail[k] !in prefer {
        r := r + [avail[k]];
      }
    }
    assert avail[..|avail|] == avail;
  }

  /** `min(t.workload for t in s)` (line 144) of a non-empty list. */
  method LeastOf(ts: seq<Teacher>, s: seq<nat>, ghost d: P.Desk) returns (m: int)
    requires TeachersHold(ts, d.loads) && s != [] && Below(s, |ts|)
    ensures m == Least(d.loads, s)
  {
    m := ts[s[0]].workload;
    assert s[..1] == [s[0]];
    for k := 1 to |s|
      invariant m == Least(d.loads, s[..k])
    {
      assert s[..k + 1][..k] == s[..k];
      var w := ts[s[k]].workload;
      if w < m {
        m := w;
      }
    }
    assert s[..|s|] == s;
  }

  /** Lines 139-147: the teachers the exam's joint proctors are drawn from; `None` is the
      `ValueError` that `min()` raises. */
  method PoolOf(ts: seq<Teacher>, avail: seq<nat>, location: string, ghost d: P.Desk) returns (o: Option<seq<nat>>)
    requires TeachersHold(ts, d.loads) && Below(avail, |ts|)
    ensures o == Pool(Profiles(ts), d.loads, avail, location)
  {
    var prefer := PreferOf(ts, avail, location);
    var other := OutsideOf(avail, prefer, |ts|);
    if prefer == [] || other == [] {
      return None;
    }
    var near := LeastOf(ts, prefer, d);
    var far := LeastOf(ts, other, d);
    if near >= far + 2 {
      return Some(other);
    }
    return Some(prefer);
  }

  /** Lines 158-161 for exam `n`; the other exams keep the entries `joints` gives them. */
  method AddJoint(xs: seq<Exam>, n: nat, name: string, ghost mains: seq<Option<string>>, ghost joints: seq<Option<string>>)
    requires ApartExams(xs) && n < |xs| == |joints| && EntriesHold(xs, mains, joints[n := xs[n].jointProctor])
    modifies xs[n]
    ensures xs[n].jointProctor == Add(old(xs[n].jointProctor), name)
    ensures EntriesHold(xs, mains, joints[n := xs[n].jointProctor])
  {
    var x := xs[n];
    if x.jointProctor.Some? && x.jointProctor.value != "" {
      x.jointProctor := Some(x.jointProctor.value + "," + name);
    } else {
      x.jointProctor := Some(name);
    }
  }

  /** Lines 162-164: teacher `t` takes one more joint duty for the course. */
  method JointCredit(ts: seq<Teacher>, xs: seq<Exam>, t: nat, course: string, ghost d: P.Desk)
    requires Apart(ts) && Holds(ts, xs, d) && t < |ts|
    modifies ts[t]
    ensures Holds(ts, xs, d.(loads := d.loads[t := CreditJoint(d.loads[t], course)]))
  {
    var teacher := ts[t];
    teacher.jointProctorCount := teacher.jointProctorCount + 1;
    teacher.jointProctorCourses := teacher.jointProctorCourses[course := Get(teacher.jointProctorCourses, course) + 1];
    teacher.workload := teacher.workload + 1;
    E.OneCredited(ts, d.loads, t, CreditJoint(d.loads[t], course));
  }

  /** Lines 158-164: teacher `t` joins exam `n`'s joint entry and is credited for it; the
      teachers hold `ls` and the exams the entries of `d` but for exam `n`'s joint entry. */
  method Enrol(ts: seq<Teacher>, xs: seq<Exam>, n: nat, t: nat, ghost d: P.Desk, ghost ls: seq<Load>)
    requires Apart(ts) && ApartExams(xs) && n < |xs| == |d.joints| && t < |ts|
    requires Holds(ts, xs, d.(loads := ls, joints := d.joints[n := xs[n].jointProctor]))
    modifies ts[t], xs[n]
    ensures xs[n].jointProctor == Add(old(xs[n].jointProctor), ts[t].name)
    ensures Holds(ts, xs, d.(loads := ls[t := CreditJoint(ls[t], xs[n].course)], joints := d.joints[n := xs[n].jointProctor]))
  {
    AddJoint(xs, n, ts[t].name, d.mains, d.joints);
    JointCredit(ts, xs, t, xs[n].course, d.(loads := ls, joints := d.joints[n := xs[n].jointProctor]));
  }

  /** Once the entry is long enough the joint loop stops, wherever it is in the pool. */
  lemma EnlistDone(ps: seq<Profile>, ls: seq<Load>, pool: seq<nat>, course: string, count: int,
                   j: Option<string>, i: nat, i': nat)
    requires |ls| == |ps| && NonBlank(ps) && Below(pool, |ps|) && i < |pool| && i' < |pool| && !Short(j, count)
    ensures Enlist(ps, ls, pool, course, count, j, i) == Enlist(ps, ls, pool, course, count, j, i')
  {
  }

  /** Where the `for` loop of lines 157-166 stands after `k` turns of a run over the pool: exam
      `n`'s entry is now `j`, the teachers hold `ls`, and what is left of the joint loop still
      comes to `goal`. */
  ghost predicate Midway(ts: seq<Teacher>, xs: seq<Exam>, n: nat, pool: seq<nat>, d: P.Desk,
                         goal: Roll, j: Option<string>, ls: seq<Load>, k: nat)
    reads ts, xs
  {
    && n < |xs| == |d.joints| && |ls| == |ts| && NonBlank(Profiles(ts)) && Below(pool, |ts|)
    && xs[n].jointProctor == j && Holds(ts, xs, d.(loads := ls, joints := d.joints[n := j]))
    && Along(Profiles(ts), pool, xs[n].course, xs[n].proctorCount, goal, j, ls, k)
  }

  /** The part of `Midway` about values alone: the joint loop from `j` and `ls` at pool index
      `k` (back at 0 once the pool is used up) still comes to `goal`. */
  ghost predicate Along(ps: seq<Profile>, pool: seq<nat>, course: string, count: int,
                        goal: Roll, j: Option<string>, ls: seq<Load>, k: nat)
  {
    && k <= |pool| && 0 < |pool| && |ls| == |ps| && NonBlank(ps) && Below(pool, |ps|)
    && goal == Enlist(ps, ls, pool, course, count, j, if k == |pool| then 0 else k)
  }

  /** One turn of the joint loop, on values: adding pool member `k` to a short entry keeps
      `Along` one index on and brings the entry closer to long enough. */
  lemma AlongStep(ps: seq<Profile>, pool: seq<nat>, course: string, count: int,
                  goal: Roll, j: Option<string>, ls: seq<Load>, k: nat)
    requires Along(ps, pool, course, count, goal, j, ls, k) && k < |pool| && Short(j, count)
    ensures Along(ps, pool, course, count, goal, Add(j, ps[pool[k]].name),
                  ls[pool[k] := CreditJoint(ls[pool[k]], course)], k + 1)
    ensures Gap(Add(j, ps[pool[k]].name), count) < Gap(j, count)
  {
    GapShrinks(j, ps[pool[k]].name, count);
    if k + 1 < |pool| {
      assert Next(k, |pool|) == k + 1;
    }
  }

  /** Where a run over the pool ends: at the end of the pool, or once the entry is long enough,
      which stops the joint loop wherever it is. */
  lemma Finish(ps: seq<Profile>, pool: seq<nat>, course: string, count: int,
               goal: Roll, j: Option<string>, ls: seq<Load>, k: nat)
    requires Along(ps, pool, course, count, goal, j, ls, k)
    requires k == |pool| || !Short(j, count)
    ensures goal == Enlist(ps, ls, pool, course, count, j, 0)
  {
    if k < |pool| {
      EnlistDone(ps, ls, pool, course, count, j, k, 0);
    }
  }

  /** Where a run over the pool leaves exam `n` and the teachers, in their own terms. */
  lemma Close(ts: seq<Teacher>, xs: seq<Exam>, n: nat, pool: seq<nat>, d: P.Desk,
              goal: Roll, j: Option<string>, ls: seq<Load>, k: nat)
    requires Midway(ts, xs, n, pool, d, goal, j, ls, k)
    requires k == |pool| || !Short(xs[n].jointProctor, xs[n].proctorCount)
    ensures Holds(ts, xs, d.(loads := ls, joints := d.joints[n := xs[n].jointProctor]))
    ensures goal == Enlist(Profiles(ts), ls, pool, xs[n].course, xs[n].proctorCount, xs[n].jointProctor, 0)
  {
    Finish(Profiles(ts), pool, xs[n].course, xs[n].proctorCount, goal, j, ls, k);
  }

  /** One turn of the `for` loop of lines 157-166: pool member `k` joins the short entry of exam
      `n` and is credited, which takes the joint loop one step on and the entry closer to long
      enough. */
  method Take(ts: seq<Teacher>, xs: seq<Exam>, n: nat, pool: seq<nat>, k: nat, ghost d: P.Desk,
              ghost goal: Roll, ghost j: Option<string>, ghost ls: seq<Load>)
    returns (ghost j': Option<string>, ghost ls': seq<Load>)
    requires Apart(ts) && ApartExams(xs) && n < |xs| == |d.joints| && k < |pool|
    requires Midway(ts, xs, n, pool, d, goal, j, ls, k) && Short(j, xs[n].proctorCount)
    modifies ts[pool[k]], xs[n]
    ensures Midway(ts, xs, n, pool, d, goal, j', ls', k + 1)
    ensures Gap(j', xs[n].proctorCount) < Gap(j, xs[n].proctorCount)
  {
    var t := pool[k];
    AlongStep(Profiles(ts), pool, xs[n].course, xs[n].proctorCount, goal, j, ls, k);
    Enrol(ts, xs, n, t, d, ls);
    j' := xs[n].jointProctor;
    ls' := ls[t := CreditJoint(ls[t], xs[n].course)];
  }

  /** One run of the `for` loop of lines 157-166 over the pool, entered while exam `n`'s joint
      entry is short: it adds and credits teachers in turn until the entry is long enough or the
      pool is used up, and the counters go from `ls0` to `ls`. The first turn is taken before
      the loop, since the `break` of line 165 cannot come before it. */
  method Lap(ts: seq<Teacher>, xs: seq<Exam>, n: nat, pool: seq<nat>, ghost d: P.Desk, ghost ls0: seq<Load>)
    returns (ghost ls: seq<Load>)
    requires Apart(ts) && ApartExams(xs) && n < |xs| == |d.joints| && Below(pool, |ts|) && pool != []
    requires Holds(ts, xs, d.(loads := ls0, joints := d.joints[n := xs[n].jointProctor]))
    requires NonBlank(Profiles(ts)) && Short(xs[n].jointProctor, xs[n].proctorCount)
    modifies ts, xs[n]
    ensures Holds(ts, xs, d.(loads := ls, joints := d.joints[n := xs[n].jointProctor]))
    ensures Enlist(Profiles(ts), ls0, pool, xs[n].course, xs[n].proctorCount, old(xs[n].jointProctor), 0)
         == Enlist(Profiles(ts), ls, pool, xs[n].course, xs[n].proctorCount, xs[n].jointProctor, 0)
    ensures Gap(xs[n].jointProctor, xs[n].proctorCount) < Gap(old(xs[n].jointProctor), xs[n].proctorCount)
  {
    var x := xs[n];
    ghost var j0 := x.jointProctor;
    ghost var goal := Enlist(Profiles(ts), ls0, pool, x.course, x.proctorCount, j0, 0);
    ghost var j;
    j, ls := Take(ts, xs, n, pool, 0, d, goal, j0, ls0);
    var k := 1;
    while k < |pool| && Short(x.jointProctor, x.proctorCount)
      invariant Midway(ts, xs, n, pool, d, goal, j, ls, k)
      invariant Gap(j, x.proctorCount) < Gap(j0, x.proctorCount)
      decreases |pool| - k
    {
      j, ls := Take(ts, xs, n, pool, k, d, goal, j, ls);
      k := k + 1;
    }
    Close(ts, xs, n, pool, d, goal, j, ls, k);
  }

  /** Lines 156-166 for exam `n`: while its joint entry is unset or short, another run over the
      pool. */
  method EnlistAll(ts: seq<Teacher>, xs: seq<Exam>, n: nat, pool: seq<nat>, ghost d: P.Desk) returns (ghost r: Roll)
    requires Apart(ts) && ApartExams(xs) && Holds(ts, xs, d) && n < |xs| && Below(pool, |ts|) && pool != []
    requires NonBlank(Profiles(ts))
    modifies ts, xs[n]
    ensures r == Enlist(Profiles(ts), d.loads, pool, xs[n].course, xs[n].proctorCount, d.joints[n], 0)
    ensures Holds(ts, xs, d.(loads := r.loads, joints := d.joints[n := r.joint]))
  {
    var x := xs[n];
    ghost var ps := Profiles(ts);
    ghost var goal := Enlist(ps, d.loads, pool, x.course, x.proctorCount, d.joints[n], 0);
    ghost var ls := d.loads;
    while x.jointProctor.None? || |Split(x.jointProctor.value, ',')| < x.proctorCount
      invariant Holds(ts, xs, d.(loads := ls, joints := d.joints[n := x.jointProctor]))
      invariant goal == Enlist(ps, ls, pool, x.course, x.proctorCount, x.jointProctor, 0)
      decreases Gap(x.jointProctor, x.proctorCount)
    {
      ls := Lap(ts, xs, n, pool, d, ls);
    }
    r := Roll(x.jointProctor, ls);
  }

  /** One exam of the joint pass (lines 98-166); `ok` is false when it raises, and then nothing
      has changed. */
  method JointExamTurn(ts: seq<Teacher>, xs: seq<Exam>, n: nat, s: seq<nat>, ghost d: P.Desk)
    returns (ok: bool, ghost r: Option<P.Desk>)
    requires Apart(ts) && ApartExams(xs) && Holds(ts, xs, d) && n < |xs| && Below(s, |ts|) && Distinct(s)
    requires NonBlank(Profiles(ts))
    modifies ts, xs[n]
    ensures r == JointTurn(Profiles(ts), Papers(xs), d, s, n) && ok == r.Some?
    ensures Holds(ts, xs, if r.Some? then r.value else d)
  {
    var x := xs[n];
    if x.proctorDept != JointDept || x.proctorCount == 0 {
      return true, Some(d);
    }
    var o := Available(ts, xs, n, s, d);
    if o.None? {
      return false, None;
    }
    var pool := PoolOf(ts, o.value, x.examLocation, d);
    if pool.None? {
      return false, None;
    }
    ghost var e := EnlistAll(ts, xs, n, pool.value, d);
    return true, Some(d.(loads := e.loads, joints := d.joints[n := e.joint]));
  }

  /** Exam `n` of the joint pass, from the desk `e`: `ok` is false when it raises, and
      otherwise the rest of the pass runs on from the desk `e'` it leaves. */
  method JointStep(ts: seq<Teacher>, xs: seq<Exam>, n: nat, s: seq<nat>, ghost e: P.Desk)
    returns (ok: bool, ghost e': P.Desk)
    requires Apart(ts) && ApartExams(xs) && Holds(ts, xs, e) && n < |xs| && Below(s, |ts|) && Distinct(s)
    requires NonBlank(Profiles(ts))
    modifies ts, xs
    ensures Holds(ts, xs, e')
    ensures ok ==> JointPass(Profiles(ts), Papers(xs), e, s, n) == JointPass(Profiles(ts), Papers(xs), e', s, n + 1)
    ensures !ok ==> JointPass(Profiles(ts), Papers(xs), e, s, n).None?
  {
    ghost var t;
    ok, t := JointExamTurn(ts, xs, n, s, e);
    e' := if t.Some? then t.value else e;
  }

  /** Where the joint pass stands before exam `n`: the objects agree with the desk `e`, and the
      rest of the pass from `e` comes to the whole pass from `d`. */
  ghost predicate JointAt(ts: seq<Teacher>, xs: seq<Exam>, s: seq<nat>, d: P.Desk, e: P.Desk, n: nat)
    reads ts, xs
  {
    var ps, ys := Profiles(ts), Papers(xs);
    && Shaped(ps, ys, d) && Shaped(ps, ys, e) && NonBlank(ps) && Below(s, |ps|) && n <= |ys|
    && Holds(ts, xs, e) && JointPass(ps, ys, d, s, 0) == JointPass(ps, ys, e, s, n)
  }

  /** Lines 98-166: the joint pass over the exam list; `ok` is false when it raises. */
  method JointRound(ts: seq<Teacher>, xs: seq<Exam>, s: seq<nat>, ghost d: P.Desk)
    returns (ok: bool, ghost r: Option<P.Desk>)
    requires Apart(ts) && ApartExams(xs) && Holds(ts, xs, d) && Below(s, |ts|) && Distinct(s)
    requires NonBlank(Profiles(ts))
    modifies ts, xs
    ensures r == JointPass(Profiles(ts), Papers(xs), d, s, 0) && ok == r.Some?
    ensures r.Some? ==> Holds(ts, xs, r.value)
  {
    ghost var e := d;
    for n := 0 to |xs|
      invariant JointAt(ts, xs, s, d, e, n)
    {
      var fine;
      fine, e := JointStep(ts, xs, n, s, e);
      if !fine {
        return false, None;
      }
    }
    return true, Some(e);
  }

  // ---------------------------------------------------------------------------
  // `assign_proctors`.

  /** `assign_proctors` (lines 52-166): the sort, the main pass and the joint pass; `ok` is false
      when a `ValueError` is raised, and `sorted` is the caller's list as the sort leaves it. */
  method AssignProctors(ts: seq<Teacher>, xs: seq<Exam>, ghost d: P.Desk)
    returns (ok: bool, sorted: seq<Teacher>, ghost r: Option<P.Desk>)
    requires Apart(ts) && ApartExams(xs) && Holds(ts, xs, d) && NonBlank(Profiles(ts))
    modifies ts, xs
    ensures r == Proctors(Profiles(ts), Papers(xs), d) && ok == r.Some?
    ensures r.Some? ==> Holds(ts, xs, r.value)
    ensures |sorted| == |ts| && forall k :: 0 <= k < |ts| ==> sorted[k] == ts[Ranking(Workloads(d.loads))[k]]
  {
    var order;
    sorted, order := SortTeachers(ts, d);
    ghost var e := MainRound(ts, xs, order, d);
    ok, r := JointRound(ts, xs, order, e);
  }
}
