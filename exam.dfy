/** Proctor assignment for one batch of exams (utils/exam.py). Each class dictionary gets a
    main proctor and a joint proctor from the economics faculty's teachers; each teacher
    carries counters that cap how many duties they take. Teachers are held by their
    position in the `teachers` list, so the working lists of `assign_proctors` are lists of
    positions. */
module Exam {
  import opened Base
  import opened Order

  /** The faculty whose teachers proctor. */
  const Economics := "经济学院"

  /** A proctor, with the counters `assign_proctors` updates. */
  class Teacher {
    const name: string
    const unavailableDates: set<string>
    var mainProctorCount: int
    var jointProctorCount: int
    var mainProctorCourses: map<string, int>
    var jointProctorCourses: map<string, int>

    constructor (name: string, unavailableDates: seq<string>)
      ensures this.name == name && this.unavailableDates == set d | d in unavailableDates
      ensures mainProctorCount == 0 && jointProctorCount == 0
      ensures mainProctorCourses == map[] && jointProctorCourses == map[]
    {
      this.name := name;
      this.unavailableDates := set d | d in unavailableDates;
      mainProctorCount := 0;
      jointProctorCount := 0;
      mainProctorCourses := map[];
      jointProctorCourses := map[];
    }

    /** `is_available` (utils/exam.py, lines 12-13). */
    predicate IsAvailable(date: string)
    {
      date !in unavailableDates
    }

    /** `can_be_main_proctor` (utils/exam.py, lines 15-20). */
    predicate CanBeMainProctor(course: string)
      reads this
    {
      MainOpen(Counts(this), course)
    }

    /** `can_be_joint_proctor` (utils/exam.py, lines 22-23). */
    predicate CanBeJointProctor()
      reads this
    {
      JointOpen(Counts(this))
    }
  }

  /** One class dictionary: what `assign_proctors` reads, and the two entries it sets. */
  class Section {
    const course: string
    const teachers: seq<string>
    const examDate: string
    const mainProctorFaculty: string
    const jointProctorFaculty: string
    var mainProctor: Option<string>
    var jointProctor: Option<string>

    constructor (course: string, teachers: seq<string>, examDate: string,
                 mainProctorFaculty: string, jointProctorFaculty: string)
      ensures this.course == course && this.teachers == teachers && this.examDate == examDate
      ensures this.mainProctorFaculty == mainProctorFaculty && this.jointProctorFaculty == jointProctorFaculty
      ensures mainProctor == None && jointProctor == None
    {
      this.course := course;
      this.teachers := teachers;
      this.examDate := examDate;
      this.mainProctorFaculty := mainProctorFaculty;
      this.jointProctorFaculty := jointProctorFaculty;
      mainProctor := None;
      jointProctor := None;
    }
  }

  // ---------------------------------------------------------------------------
  // The teachers' counters as values.

  /** A teacher's four counters. */
  datatype Tally = Tally(main: int, joint: int, mainCourses: map<string, int>, jointCourses: map<string, int>)

  function Counts(t: Teacher): Tally
    reads t
  {
    Tally(t.mainProctorCount, t.jointProctorCount, t.mainProctorCourses, t.jointProctorCourses)
  }

  /** No main duty yet, or more of the one course already held while under three. */
  predicate MainOpen(k: Tally, course: string)
  {
    k.main == 0 || (course in k.mainCourses && k.main < 3)
  }

  predicate JointOpen(k: Tally)
  {
    k.joint < 2
  }

  /** One more main duty for `course`. */
  function CreditMain(k: Tally, course: string): Tally
  {
    k.(main := k.main + 1, mainCourses := Bump(k.mainCourses, course))
  }

  /** One more joint duty for `course`. */
  function CreditJoint(k: Tally, course: string): Tally
  {
    k.(joint := k.joint + 1, jointCourses := Bump(k.jointCourses, course))
  }

  /** The counters keep their books and their caps: each count is the sum of its
      per-course dictionary, main duties come from at most one course and number at most
      three, and joint duties number at most two. */
  ghost predicate Balanced(k: Tally)
  {
    && k.main == MapSum(k.mainCourses) && k.joint == MapSum(k.jointCourses)
    && 0 <= k.main <= 3 && 0 <= k.joint <= 2
    && |k.mainCourses.Keys| <= 1 && (k.main == 0 ==> k.mainCourses.Keys == {})
  }

  /** A fresh teacher's counters are balanced. */
  lemma {:induction false} FreshBalanced()
    ensures Balanced(Tally(0, 0, map[], map[]))
  {
  }

  /** A main duty taken only when `can_be_main_proctor` allows it keeps the books and the caps. */
  lemma {:induction false} CreditMainBalanced(k: Tally, course: string)
    requires Balanced(k) && MainOpen(k, course)
    ensures Balanced(CreditMain(k, course))
  {
    BumpSum(k.mainCourses, course);
    var m := Bump(k.mainCourses, course);
    if k.main == 0 {
      assert m.Keys == {course};
    } else {
      assert m.Keys == k.mainCourses.Keys;
    }
  }

  /** A joint duty taken only when `can_be_joint_proctor` allows it keeps the books and the caps. */
  lemma {:induction false} CreditJointBalanced(k: Tally, course: string)
    requires Balanced(k) && JointOpen(k)
    ensures Balanced(CreditJoint(k, course))
  {
    BumpSum(k.jointCourses, course);
  }

  // ---------------------------------------------------------------------------
  // The candidate lists of one class (utils/exam.py, lines 45-47).

  /** The positions of the teachers whose name the class lists, in order. */
  function Teaching(ts: seq<Teacher>, names: seq<string>): (r: seq<nat>)
    ensures forall j :: 0 <= j < |r| ==> r[j] < |ts| && ts[r[j]].name in names
    ensures forall i :: 0 <= i < |ts| && ts[i].name in names ==> i in r
    ensures forall a, c :: 0 <= a < c < |r| ==> r[a] < r[c]
  {
    if ts == [] then []
    else
      var n := |ts| - 1;
      Teaching(ts[..n], names) + if ts[n].name in names then [n] else []
  }

  /** The positions of all other teachers, in order. */
  function Others(ts: seq<Teacher>, names: seq<string>): (r: seq<nat>)
    ensures forall j :: 0 <= j < |r| ==> r[j] < |ts| && ts[r[j]].name !in names
    ensures forall i :: 0 <= i < |ts| && ts[i].name !in names ==> i in r
    ensures forall a, c :: 0 <= a < c < |r| ==> r[a] < r[c]
  {
    if ts == [] then []
    else
      var n := |ts| - 1;
      Others(ts[..n], names) + if ts[n].name !in names then [n] else []
  }

  /** Every position of `s` holds a teacher. */
  predicate Within(s: seq<nat>, n: nat)
  {
    forall j :: 0 <= j < |s| ==> s[j] < n
  }

  /** The teachers' joint counts: the sort key of `other_teachers`. */
  function Joints(k: seq<Tally>): (r: seq<int>)
    ensures |r| == |k| && forall i :: 0 <= i < |k| ==> r[i] == k[i].joint
  {
    seq(|k|, i requires 0 <= i < |k| => k[i].joint)
  }

  /** `other_teachers` sorted by joint count (utils/exam.py, lines 46-47). */
  function Queue(ts: seq<Teacher>, k: seq<Tally>, names: seq<string>): (r: seq<nat>)
    requires |ts| == |k|
    ensures Within(r, |ts|) && forall j :: 0 <= j < |r| ==> ts[r[j]].name !in names
  {
    var sorted := ByKey(Others(ts, names), Joints(k));
    forall j | 0 <= j < |sorted| ensures sorted[j] < |ts| && ts[sorted[j]].name !in names {
      assert sorted[j] in multiset(Others(ts, names));
    }
    sorted
  }

  // ---------------------------------------------------------------------------
  // One class (utils/exam.py, lines 43-73).

  /** Teacher `p` may take the main duty of a class of `course` on `date`. */
  predicate MainFit(ts: seq<Teacher>, k: seq<Tally>, p: nat, date: string, course: string)
    requires p < |ts| == |k|
  {
    date !in ts[p].unavailableDates && MainOpen(k[p], course)
  }

  predicate JointFit(ts: seq<Teacher>, k: seq<Tally>, p: nat, date: string)
    requires p < |ts| == |k|
  {
    date !in ts[p].unavailableDates && JointOpen(k[p])
  }

  /** The place in `group` of its first teacher fit for the main duty. */
  function FirstMain(ts: seq<Teacher>, k: seq<Tally>, group: seq<nat>, date: string, course: string): (r: Option<nat>)
    requires |ts| == |k| && Within(group, |ts|)
    ensures r.Some? ==> r.value < |group| && MainFit(ts, k, group[r.value], date, course)
    ensures r.Some? ==> forall q :: 0 <= q < r.value ==> !MainFit(ts, k, group[q], date, course)
    ensures r.None? ==> forall q :: 0 <= q < |group| ==> !MainFit(ts, k, group[q], date, course)
  {
    if group == [] then None
    else if MainFit(ts, k, group[0], date, course) then Some(0)
    else match FirstMain(ts, k, group[1..], date, course)
      case None => None
      case Some(q) => Some(q + 1)
  }

  /** The place in `group` of its first teacher fit for the joint duty. */
  function FirstJoint(ts: seq<Teacher>, k: seq<Tally>, group: seq<nat>, date: string): (r: Option<nat>)
    requires |ts| == |k| && Within(group, |ts|)
    ensures r.Some? ==> r.value < |group| && JointFit(ts, k, group[r.value], date)
    ensures r.Some? ==> forall q :: 0 <= q < r.value ==> !JointFit(ts, k, group[q], date)
    ensures r.None? ==> forall q :: 0 <= q < |group| ==> !JointFit(ts, k, group[q], date)
  {
    if group == [] then None
    else if JointFit(ts, k, group[0], date) then Some(0)
    else match FirstJoint(ts, k, group[1..], date)
      case None => None
      case Some(q) => Some(q + 1)
  }

  /** The state one class works on: counters, the two entries, and `other_teachers`. */
  datatype Desk = Desk(tallies: seq<Tally>, main: Option<string>, joint: Option<string>, queue: seq<nat>)

  /** One group of the main pass (lines 52-59): the first fit teacher takes the duty and
      leaves `other_teachers`; `pick` is that teacher's position. */
  datatype Turn = Turn(desk: Desk, pick: Option<nat>)

  function MainTurn(ts: seq<Teacher>, d: Desk, group: seq<nat>, date: string, course: string): (r: Turn)
    requires |ts| == |d.tallies| && Within(group, |ts|) && Within(d.queue, |ts|)
    ensures |r.desk.tallies| == |ts| && Within(r.desk.queue, |ts|)
  {
    match FirstMain(ts, d.tallies, group, date, course)
    case None => Turn(d, None)
    case Some(q) =>
      var p := group[q];
      var queue := if p in d.queue then RemoveFirst(d.queue, p) else d.queue;
      assert forall j :: 0 <= j < |queue| ==> queue[j] in d.queue;
      Turn(Desk(d.tallies[p := CreditMain(d.tallies[p], course)], Some(ts[p].name), d.joint, queue), Some(p))
  }

  /** The joint pass (lines 64-71): the first fit teacher of `other_teachers` takes it. */
  function JointTurn(ts: seq<Teacher>, d: Desk, date: string, course: string): (r: Turn)
    requires |ts| == |d.tallies| && Within(d.queue, |ts|)
    ensures |r.desk.tallies| == |ts| && r.desk.queue == d.queue
  {
    match FirstJoint(ts, d.tallies, d.queue, date)
    case None => Turn(d, None)
    case Some(q) =>
      var p := d.queue[q];
      Turn(d.(tallies := d.tallies[p := CreditJoint(d.tallies[p], course)], joint := Some(ts[p].name)), Some(p))
  }

  /** What one class does: the teaching teachers, then `other_teachers` by ascending joint
      count, for the main duty (the second group only while no truthy main proctor is set),
      then `other_teachers` for the joint duty. */
  datatype Outcome = Outcome(desk: Desk, teaching: seq<nat>, sorted: seq<nat>,
                             first: Option<nat>, second: Option<nat>, partner: Option<nat>)

  function Proctor(ts: seq<Teacher>, k: seq<Tally>, s: Section, main: Option<string>, joint: Option<string>): (o: Outcome)
    requires |ts| == |k|
    ensures |o.desk.tallies| == |ts|
  {
    var m1 := FirstStage(ts, k, s, main, joint);
    var m2 := SecondStage(ts, s, m1.desk);
    var j := JointStage(ts, s, m2.desk);
    Outcome(j.desk, Teaching(ts, s.teachers), Queue(ts, k, s.teachers), m1.pick, m2.pick, j.pick)
  }

  /** The teaching teachers' turn at the main duty. */
  function FirstStage(ts: seq<Teacher>, k: seq<Tally>, s: Section, main: Option<string>, joint: Option<string>): (r: Turn)
    requires |ts| == |k|
    ensures |r.desk.tallies| == |ts| && Within(r.desk.queue, |ts|)
  {
    var d0 := Desk(k, main, joint, Queue(ts, k, s.teachers));
    if s.mainProctorFaculty == Economics then MainTurn(ts, d0, Teaching(ts, s.teachers), s.examDate, s.course)
    else Turn(d0, None)
  }

  /** `other_teachers`' turn at the main duty, taken only while no truthy name is set. */
  function SecondStage(ts: seq<Teacher>, s: Section, d: Desk): (r: Turn)
    requires |ts| == |d.tallies| && Within(d.queue, |ts|)
    ensures |r.desk.tallies| == |ts| && Within(r.desk.queue, |ts|)
  {
    if s.mainProctorFaculty == Economics && !Truthy(d.main) then MainTurn(ts, d, d.queue, s.examDate, s.course)
    else Turn(d, None)
  }

  /** The joint duty. */
  function JointStage(ts: seq<Teacher>, s: Section, d: Desk): (r: Turn)
    requires |ts| == |d.tallies| && Within(d.queue, |ts|)
    ensures |r.desk.tallies| == |ts|
  {
    if s.jointProctorFaculty == Economics then JointTurn(ts, d, s.examDate, s.course)
    else Turn(d, None)
  }

  // ---------------------------------------------------------------------------
  // What one class guarantees.

  /** `other_teachers` holds each teacher the class does not list, once, in ascending
      joint count. */
  lemma {:induction false} QueueOrder(ts: seq<Teacher>, k: seq<Tally>, names: seq<string>)
    requires |ts| == |k|
    ensures var q := Queue(ts, k, names);
            && (forall i :: 0 <= i < |ts| ==> (i in q <==> ts[i].name !in names))
            && Distinct(q)
            && (forall a, c :: 0 <= a < c < |q| ==> k[q[a]].joint <= k[q[c]].joint)
  {
    var others := Others(ts, names);
    var q := Queue(ts, k, names);
    forall i | 0 <= i < |ts| ensures i in q <==> ts[i].name !in names {
      assert i in q <==> i in multiset(others);
    }
    assert Distinct(others);
    DistinctSubMultiset(q, others);
    forall a, c | 0 <= a < c < |q| ensures k[q[a]].joint <= k[q[c]].joint {
      assert Key(Joints(k), q[a]) <= Key(Joints(k), q[c]);
    }
  }

  /** Teachers of equal joint count keep their input order in `other_teachers`. */
  lemma {:induction false} QueueStable(ts: seq<Teacher>, k: seq<Tally>, names: seq<string>, v: int)
    requires |ts| == |k|
    ensures WithKey(Queue(ts, k, names), Joints(k), v) == WithKey(Others(ts, names), Joints(k), v)
  {
    var others := Others(ts, names);
    if i :| 0 <= i < |ts| && k[i].joint == v {
      ByKeyStable(others, Joints(k), i);
    } else {
      WithKeyAbsent(Queue(ts, k, names), Joints(k), v);
      WithKeyAbsent(others, Joints(k), v);
    }
  }

  lemma {:induction false} WithKeyAbsent(s: seq<nat>, keys: seq<int>, v: int)
    requires Within(s, |keys|) && forall i :: 0 <= i < |keys| ==> keys[i] != v
    ensures WithKey(s, keys, v) == []
  {
    if s != [] {
      WithKeyAbsent(s[1..], keys, v);
    }
  }

  /** The main pass takes the first fit teacher the class lists, by position. */
  lemma {:induction false} MainTurnTeaching(ts: seq<Teacher>, d: Desk, names: seq<string>, date: string, course: string)
    requires |ts| == |d.tallies| && Within(d.queue, |ts|)
    requires forall j :: 0 <= j < |d.queue| ==> ts[d.queue[j]].name !in names
    ensures var group := Teaching(ts, names);
            var r := MainTurn(ts, d, group, date, course);
            && (r.pick.None? ==> r.desk == d && forall i :: 0 <= i < |ts| && ts[i].name in names ==> !MainFit(ts, d.tallies, i, date, course))
            && (r.pick.Some? ==>
                 var p := r.pick.value;
                 && p < |ts| && ts[p].name in names && MainFit(ts, d.tallies, p, date, course)
                 && (forall i :: 0 <= i < p && ts[i].name in names ==> !MainFit(ts, d.tallies, i, date, course))
                 && r.desk == Desk(d.tallies[p := CreditMain(d.tallies[p], course)], Some(ts[p].name), d.joint, d.queue))
  {
    var group := Teaching(ts, names);
    var f := FirstMain(ts, d.tallies, group, date, course);
    if f.Some? {
      var p := group[f.value];
      forall i | 0 <= i < p && ts[i].name in names ensures !MainFit(ts, d.tallies, i, date, course) {
        var q :| 0 <= q < |group| && group[q] == i;
        assert q < f.value;
      }
      assert p !in d.queue;
    } else {
      forall i | 0 <= i < |ts| && ts[i].name in names ensures !MainFit(ts, d.tallies, i, date, course) {
        var q :| 0 <= q < |group| && group[q] == i;
      }
    }
  }

  /** The first fit teacher of a list has the least key among its fit teachers, when the
      list is in ascending key order. */
  lemma {:induction false} FirstMainLeast(ts: seq<Teacher>, k: seq<Tally>, group: seq<nat>, date: string, course: string, i: nat)
    requires |ts| == |k| && Within(group, |ts|) && i in group
    requires forall a, c :: 0 <= a < c < |group| ==> k[group[a]].joint <= k[group[c]].joint
    requires MainFit(ts, k, i, date, course)
    ensures FirstMain(ts, k, group, date, course).Some?
    ensures k[group[FirstMain(ts, k, group, date, course).value]].joint <= k[i].joint
  {
    var q :| 0 <= q < |group| && group[q] == i;
  }

  lemma {:induction false} FirstJointLeast(ts: seq<Teacher>, k: seq<Tally>, group: seq<nat>, date: string, i: nat)
    requires |ts| == |k| && Within(group, |ts|) && i in group
    requires forall a, c :: 0 <= a < c < |group| ==> k[group[a]].joint <= k[group[c]].joint
    requires JointFit(ts, k, i, date)
    ensures FirstJoint(ts, k, group, date).Some?
    ensures k[group[FirstJoint(ts, k, group, date).value]].joint <= k[i].joint
  {
    var q :| 0 <= q < |group| && group[q] == i;
  }

  /** Teachers in ascending joint count under the counters `k`. */
  predicate Rising(k: seq<Tally>, s: seq<nat>)
    requires Within(s, |k|)
  {
    forall a, c :: 0 <= a < c < |s| ==> k[s[a]].joint <= k[s[c]].joint
  }

  lemma {:induction false} RisingCut(k: seq<Tally>, s: seq<nat>, i: nat)
    requires Within(s, |k|) && Rising(k, s) && i < |s|
    ensures Within(s[..i] + s[i + 1..], |k|) && Rising(k, s[..i] + s[i + 1..])
  {
    var r := s[..i] + s[i + 1..];
    assert forall a :: 0 <= a < |r| ==> r[a] == if a < i then s[a] else s[a + 1];
  }

  /** What the second main group promises once it names teacher `p` and `r` is its
      turn: `p` was the fit teacher of `other_teachers` with the least joint count, it
      is credited with the course and named, and it has left the queue, which keeps its
      order. */
  ghost predicate MainPicked(ts: seq<Teacher>, d: Desk, r: Turn, p: nat, date: string, course: string)
    requires |ts| == |d.tallies| && Within(d.queue, |ts|)
  {
    && p in d.queue && MainFit(ts, d.tallies, p, date, course)
    && (forall i :: i in d.queue && MainFit(ts, d.tallies, i, date, course) ==> d.tallies[p].joint <= d.tallies[i].joint)
    && r.desk.tallies == d.tallies[p := CreditMain(d.tallies[p], course)]
    && r.desk.main == Some(ts[p].name) && r.desk.joint == d.joint
    && Distinct(r.desk.queue) && p !in r.desk.queue && Within(r.desk.queue, |ts|) && Rising(d.tallies, r.desk.queue)
    && forall i :: i in r.desk.queue <==> i in d.queue && i != p
  }

  /** The second main group and the joint pass both take the first fit teacher of
      `other_teachers`, which has the least joint count of the fit teachers there. */
  lemma MainTurnQueue(ts: seq<Teacher>, d: Desk, date: string, course: string)
    requires |ts| == |d.tallies| && Within(d.queue, |ts|) && Distinct(d.queue) && Rising(d.tallies, d.queue)
    ensures var r := MainTurn(ts, d, d.queue, date, course);
            && (r.pick.None? ==> r.desk == d && forall i :: i in d.queue ==> !MainFit(ts, d.tallies, i, date, course))
            && (r.pick.Some? ==> MainPicked(ts, d, r, r.pick.value, date, course))
  {
    if FirstMain(ts, d.tallies, d.queue, date, course).Some? {
      MainTurnPicked(ts, d, date, course);
    } else {
      MainTurnNone(ts, d, date, course);
    }
  }

  /** No teacher in the queue fits, so the turn names nobody. */
  lemma MainTurnNone(ts: seq<Teacher>, d: Desk, date: string, course: string)
    requires |ts| == |d.tallies| && Within(d.queue, |ts|)
    requires FirstMain(ts, d.tallies, d.queue, date, course).None?
    ensures forall i :: i in d.queue ==> !MainFit(ts, d.tallies, i, date, course)
  {
    forall i | i in d.queue ensures !MainFit(ts, d.tallies, i, date, course) {
      var q :| 0 <= q < |d.queue| && d.queue[q] == i;
    }
  }

  /** The first fit teacher of the queue is the one the turn names. */
  lemma {:induction false} MainTurnPicked(ts: seq<Teacher>, d: Desk, date: string, course: string)
    requires |ts| == |d.tallies| && Within(d.queue, |ts|) && Distinct(d.queue) && Rising(d.tallies, d.queue)
    requires FirstMain(ts, d.tallies, d.queue, date, course).Some?
    ensures MainPicked(ts, d, MainTurn(ts, d, d.queue, date, course), d.queue[FirstMain(ts, d.tallies, d.queue, date, course).value], date, course)
  {
    var f := FirstMain(ts, d.tallies, d.queue, date, course);
    var p := d.queue[f.value];
    forall i | i in d.queue && MainFit(ts, d.tallies, i, date, course) ensures d.tallies[p].joint <= d.tallies[i].joint {
      FirstMainLeast(ts, d.tallies, d.queue, date, course, i);
    }
    RemoveFirstGone(d.queue, p);
    RemoveFirstCut(d.queue, p);
    IndexOfDistinct(d.queue, f.value);
    RisingCut(d.tallies, d.queue, f.value);
    var r := RemoveFirst(d.queue, p);
    forall i ensures i in r <==> i in d.queue && i != p {
      if i in d.queue && i != p {
        assert i in multiset(d.queue);
      }
    }
  }

  lemma {:induction false} JointTurnQueue(ts: seq<Teacher>, d: Desk, date: string, course: string)
    requires |ts| == |d.tallies| && Within(d.queue, |ts|) && Rising(d.tallies, d.queue)
    ensures var r := JointTurn(ts, d, date, course);
            && (r.pick.None? ==> r.desk == d && forall i :: i in d.queue ==> !JointFit(ts, d.tallies, i, date))
            && (r.pick.Some? ==>
                 var p := r.pick.value;
                 && p in d.queue && JointFit(ts, d.tallies, p, date)
                 && (forall i :: i in d.queue && JointFit(ts, d.tallies, i, date) ==> d.tallies[p].joint <= d.tallies[i].joint)
                 && r.desk == d.(tallies := d.tallies[p := CreditJoint(d.tallies[p], course)], joint := Some(ts[p].name)))
  {
    var f := FirstJoint(ts, d.tallies, d.queue, date);
    if f.Some? {
      forall i | i in d.queue && JointFit(ts, d.tallies, i, date) ensures d.tallies[d.queue[f.value]].joint <= d.tallies[i].joint {
        FirstJointLeast(ts, d.tallies, d.queue, date, i);
      }
    } else {
      forall i | i in d.queue ensures !JointFit(ts, d.tallies, i, date) {
        var q :| 0 <= q < |d.queue| && d.queue[q] == i;
      }
    }
  }

  /** Teacher `i` teaches class `s` and may take its main duty. */
  predicate TeachingFit(ts: seq<Teacher>, k: seq<Tally>, s: Section, i: nat)
    requires |ts| == |k|
  {
    i < |ts| && ts[i].name in s.teachers && MainFit(ts, k, i, s.examDate, s.course)
  }

  /** The teaching teachers' turn (utils/exam.py, lines 45, 50-59): only for the economics
      faculty, the first teacher the class lists who is free that day and may take the main
      duty takes it; `other_teachers` is untouched. */
  lemma {:induction false} FirstStageFacts(ts: seq<Teacher>, k: seq<Tally>, s: Section, main: Option<string>, joint: Option<string>)
    requires |ts| == |k|
    ensures var m1 := FirstStage(ts, k, s, main, joint);
            && m1.desk.queue == Queue(ts, k, s.teachers) && m1.desk.joint == joint
            && (s.mainProctorFaculty != Economics ==> m1.pick.None?)
            && (m1.pick.None? ==> m1.desk.tallies == k && m1.desk.main == main)
            && (s.mainProctorFaculty == Economics && m1.pick.None? ==> forall i :: 0 <= i < |ts| ==> !TeachingFit(ts, k, s, i))
            && (m1.pick.Some? ==>
                 var p := m1.pick.value;
                 && TeachingFit(ts, k, s, p)
                 && (forall i :: 0 <= i < p ==> !TeachingFit(ts, k, s, i))
                 && m1.desk.tallies == k[p := CreditMain(k[p], s.course)] && m1.desk.main == Some(ts[p].name))
  {
    QueueOrder(ts, k, s.teachers);
    var d0 := Desk(k, main, joint, Queue(ts, k, s.teachers));
    MainTurnTeaching(ts, d0, s.teachers, s.examDate, s.course);
  }

  /** `other_teachers` as a class leaves it: every teacher the class does not list except
      `gone`, once, in ascending joint count, with the counters `k` held before the class. */
  ghost predicate Untouched(ts: seq<Teacher>, k: seq<Tally>, s: Section, d: Desk, gone: Option<nat>)
    requires |ts| == |k| == |d.tallies| && Within(d.queue, |ts|)
  {
    && (forall i: nat :: i in d.queue <==> i < |ts| && ts[i].name !in s.teachers && gone != Some(i))
    && Distinct(d.queue) && Rising(d.tallies, d.queue)
    && (forall i :: i in d.queue ==> d.tallies[i] == k[i])
  }

  /** `other_teachers` starts untouched. */
  lemma {:induction false} QueueUntouched(ts: seq<Teacher>, k: seq<Tally>, s: Section, main: Option<string>, joint: Option<string>)
    requires |ts| == |k|
    ensures Untouched(ts, k, s, Desk(k, main, joint, Queue(ts, k, s.teachers)), None)
  {
    QueueOrder(ts, k, s.teachers);
  }

  /** Changing only counters outside `other_teachers` keeps it untouched. */
  lemma {:induction false} UntouchedAgree(ts: seq<Teacher>, k: seq<Tally>, s: Section, d: Desk, e: Desk)
    requires |ts| == |k| == |d.tallies| == |e.tallies| && Within(d.queue, |ts|) && Untouched(ts, k, s, d, None)
    requires e.queue == d.queue && forall i :: i in d.queue ==> e.tallies[i] == d.tallies[i]
    ensures Untouched(ts, k, s, e, None)
  {
    var q := d.queue;
    forall a, c | 0 <= a < c < |q| ensures e.tallies[q[a]].joint <= e.tallies[q[c]].joint {
      assert q[a] in q && q[c] in q;
    }
  }

  /** The first turn leaves `other_teachers` untouched. */
  lemma {:induction false} OpeningQueue(ts: seq<Teacher>, k: seq<Tally>, s: Section, main: Option<string>, joint: Option<string>)
    requires |ts| == |k|
    ensures Untouched(ts, k, s, FirstStage(ts, k, s, main, joint).desk, None)
  {
    QueueUntouched(ts, k, s, main, joint);
    if s.mainProctorFaculty == Economics {
      TeachingTurnUntouched(ts, k, s, Desk(k, main, joint, Queue(ts, k, s.teachers)));
    }
  }

  /** The main pass over the class's own teachers leaves `other_teachers` untouched. */
  lemma {:induction false} TeachingTurnUntouched(ts: seq<Teacher>, k: seq<Tally>, s: Section, d: Desk)
    requires |ts| == |k| == |d.tallies| && Within(d.queue, |ts|) && Untouched(ts, k, s, d, None)
    ensures Untouched(ts, k, s, MainTurn(ts, d, Teaching(ts, s.teachers), s.examDate, s.course).desk, None)
  {
    MainTurnTeaching(ts, d, s.teachers, s.examDate, s.course);
    var e := MainTurn(ts, d, Teaching(ts, s.teachers), s.examDate, s.course).desk;
    forall i | i in d.queue ensures e.tallies[i] == d.tallies[i] {
      assert ts[i].name !in s.teachers;
    }
    UntouchedAgree(ts, k, s, d, e);
  }

  /** Teacher `i` does not teach class `s` and may take its main duty. */
  predicate OtherFit(ts: seq<Teacher>, k: seq<Tally>, s: Section, i: nat)
    requires |ts| == |k|
  {
    i < |ts| && ts[i].name !in s.teachers && MainFit(ts, k, i, s.examDate, s.course)
  }

  /** `other_teachers`' turn (utils/exam.py, lines 51-61): only for the economics faculty and
      only when the first turn left no truthy name; then the fit teacher who does not teach
      the class with the least joint count takes the main duty, and when there is none
      nothing changes. */
  lemma {:induction false} SecondStagePick(ts: seq<Teacher>, k: seq<Tally>, s: Section, d: Desk)
    requires |ts| == |k| == |d.tallies| && Within(d.queue, |ts|) && Untouched(ts, k, s, d, None)
    ensures var m2 := SecondStage(ts, s, d);
            var runs := s.mainProctorFaculty == Economics && !Truthy(d.main);
            && (!runs ==> m2 == Turn(d, None))
            && (runs && m2.pick.None? ==> m2.desk == d && forall i :: 0 <= i < |ts| ==> !OtherFit(ts, k, s, i))
            && (m2.pick.Some? ==>
                 var p := m2.pick.value;
                 && runs && OtherFit(ts, k, s, p)
                 && (forall i :: 0 <= i < |ts| && OtherFit(ts, k, s, i) ==> k[p].joint <= k[i].joint)
                 && m2.desk.tallies == d.tallies[p := CreditMain(k[p], s.course)]
                 && m2.desk.main == Some(ts[p].name) && m2.desk.joint == d.joint)
  {
    if s.mainProctorFaculty == Economics && !Truthy(d.main) {
      MainTurnQueue(ts, d, s.examDate, s.course);
      forall i | 0 <= i < |ts| && OtherFit(ts, k, s, i) ensures i in d.queue && MainFit(ts, d.tallies, i, s.examDate, s.course) {
        assert d.tallies[i] == k[i];
      }
    }
  }

  /** After the second turn `other_teachers` has lost exactly the teacher just named. */
  lemma {:induction false} SecondStageQueue(ts: seq<Teacher>, k: seq<Tally>, s: Section, d: Desk)
    requires |ts| == |k| == |d.tallies| && Within(d.queue, |ts|) && Untouched(ts, k, s, d, None)
    ensures var m2 := SecondStage(ts, s, d);
            Untouched(ts, k, s, m2.desk, m2.pick)
  {
    if s.mainProctorFaculty == Economics && !Truthy(d.main) {
      MainTurnQueue(ts, d, s.examDate, s.course);
      var m2 := SecondStage(ts, s, d);
      if m2.pick.Some? {
        var q := m2.desk.queue;
        forall a, c | 0 <= a < c < |q| ensures m2.desk.tallies[q[a]].joint <= m2.desk.tallies[q[c]].joint {
          assert q[a] in q && q[c] in q;
        }
      }
    }
  }

  /** Teacher `i` may take the joint duty of class `s`: not listed by the class, not its main
      proctor from `other_teachers`, free that day and under the cap. */
  predicate JointCandidate(ts: seq<Teacher>, k: seq<Tally>, s: Section, second: Option<nat>, i: nat)
    requires |ts| == |k|
  {
    i < |ts| && ts[i].name !in s.teachers && second != Some(i) && JointFit(ts, k, i, s.examDate)
  }

  /** The joint duty (utils/exam.py, lines 64-71): only for the economics faculty; never a
      teacher the class lists nor the main proctor from `other_teachers`; the candidate with
      the least joint count, whenever there is a candidate. */
  lemma {:induction false} JointStageFacts(ts: seq<Teacher>, k: seq<Tally>, s: Section, d: Desk, second: Option<nat>)
    requires |ts| == |k| == |d.tallies| && Within(d.queue, |ts|) && Untouched(ts, k, s, d, second)
    ensures var j := JointStage(ts, s, d);
            && (s.jointProctorFaculty != Economics ==> j.pick.None?)
            && (j.pick.None? ==> j.desk == d)
            && (s.jointProctorFaculty == Economics && j.pick.None? ==>
                 forall i :: 0 <= i < |ts| ==> !JointCandidate(ts, k, s, second, i))
            && (j.pick.Some? ==>
                 var p := j.pick.value;
                 && s.jointProctorFaculty == Economics && JointCandidate(ts, k, s, second, p)
                 && (forall i :: 0 <= i < |ts| && JointCandidate(ts, k, s, second, i) ==> k[p].joint <= k[i].joint)
                 && j.desk == d.(tallies := d.tallies[p := CreditJoint(k[p], s.course)], joint := Some(ts[p].name)))
  {
    if s.jointProctorFaculty == Economics {
      JointTurnQueue(ts, d, s.examDate, s.course);
      forall i | 0 <= i < |ts| && JointCandidate(ts, k, s, second, i) ensures i in d.queue && JointFit(ts, d.tallies, i, s.examDate) {
        assert d.tallies[i] == k[i];
      }
    }
  }

  /** The whole class: the three turns chained, each with the state the previous one left;
      the teacher the first turn names is never the joint proctor, since the class lists it. */
  lemma {:induction false} ProctorFacts(ts: seq<Teacher>, k: seq<Tally>, s: Section, main: Option<string>, joint: Option<string>)
    requires |ts| == |k|
    ensures var o := Proctor(ts, k, s, main, joint);
            var m1 := FirstStage(ts, k, s, main, joint);
            var m2 := SecondStage(ts, s, m1.desk);
            && Untouched(ts, k, s, m1.desk, None)
            && Untouched(ts, k, s, m2.desk, m2.pick)
            && o.desk == JointStage(ts, s, m2.desk).desk
            && (o.partner.Some? ==> o.partner != o.first && o.partner != o.second)
  {
    OpeningQueue(ts, k, s, main, joint);
    FirstStageFacts(ts, k, s, main, joint);
    var m1 := FirstStage(ts, k, s, main, joint);
    SecondStageQueue(ts, k, s, m1.desk);
    var m2 := SecondStage(ts, s, m1.desk);
    JointStageFacts(ts, k, s, m2.desk, m2.pick);
  }

  /** One class keeps every teacher's counters balanced. */
  lemma {:induction false} ProctorBalanced(ts: seq<Teacher>, k: seq<Tally>, s: Section, main: Option<string>, joint: Option<string>)
    requires |ts| == |k| && AllBalanced(k)
    ensures AllBalanced(Proctor(ts, k, s, main, joint).desk.tallies)
  {
    var d0 := Desk(k, main, joint, Queue(ts, k, s.teachers));
    var m1 := FirstStage(ts, k, s, main, joint);
    MainTurnBalanced(ts, d0, Teaching(ts, s.teachers), s.examDate, s.course);
    MainTurnBalanced(ts, m1.desk, m1.desk.queue, s.examDate, s.course);
    JointTurnBalanced(ts, SecondStage(ts, s, m1.desk).desk, s.examDate, s.course);
  }

  lemma {:induction false} MainTurnBalanced(ts: seq<Teacher>, d: Desk, group: seq<nat>, date: string, course: string)
    requires |ts| == |d.tallies| && Within(group, |ts|) && Within(d.queue, |ts|)
    requires AllBalanced(d.tallies)
    ensures AllBalanced(MainTurn(ts, d, group, date, course).desk.tallies)
  {
    var f := FirstMain(ts, d.tallies, group, date, course);
    if f.Some? {
      var p := group[f.value];
      CreditMainBalanced(d.tallies[p], course);
    }
  }

  lemma {:induction false} JointTurnBalanced(ts: seq<Teacher>, d: Desk, date: string, course: string)
    requires |ts| == |d.tallies| && Within(d.queue, |ts|)
    requires AllBalanced(d.tallies)
    ensures AllBalanced(JointTurn(ts, d, date, course).desk.tallies)
  {
    var f := FirstJoint(ts, d.tallies, d.queue, date);
    if f.Some? {
      var p := d.queue[f.value];
      CreditJointBalanced(d.tallies[p], course);
    }
  }

  // ---------------------------------------------------------------------------
  // All classes in order (utils/exam.py, line 43).

  /** The counters and the two entries of every class. */
  datatype Books = Books(tallies: seq<Tally>, mains: seq<Option<string>>, joints: seq<Option<string>>)

  /** The books after the first `n` classes. */
  function Proctored(ts: seq<Teacher>, secs: seq<Section>, b0: Books, n: nat): (b: Books)
    requires |b0.tallies| == |ts| && |b0.mains| == |secs| && |b0.joints| == |secs| && n <= |secs|
    ensures |b.tallies| == |ts| && |b.mains| == |secs| && |b.joints| == |secs|
  {
    if n == 0 then b0
    else
      var b := Proctored(ts, secs, b0, n - 1);
      var o := Proctor(ts, b.tallies, secs[n - 1], b.mains[n - 1], b.joints[n - 1]);
      Books(o.desk.tallies, b.mains[n - 1 := o.desk.main], b.joints[n - 1 := o.desk.joint])
  }

  /** Every teacher's counters are balanced. */
  ghost predicate AllBalanced(k: seq<Tally>)
  {
    forall i :: 0 <= i < |k| ==> Balanced(k[i])
  }

  // ---------------------------------------------------------------------------
  // The objects.

  /** No teacher object appears twice. */
  predicate Apart(ts: seq<Teacher>)
  {
    forall i, j :: 0 <= i < |ts| && 0 <= j < |ts| && i != j ==> ts[i] != ts[j]
  }

  predicate ApartSections(secs: seq<Section>)
  {
    forall i, j :: 0 <= i < |secs| && 0 <= j < |secs| && i != j ==> secs[i] != secs[j]
  }

  /** The teachers hold the counters `k`. */
  ghost predicate TeachersHold(ts: seq<Teacher>, k: seq<Tally>)
    reads ts
  {
    |k| == |ts| && forall i :: 0 <= i < |ts| ==> Counts(ts[i]) == k[i]
  }

  /** The classes hold the entries `b.mains` and `b.joints`. */
  ghost predicate SectionsHold(secs: seq<Section>, b: Books)
    reads secs
  {
    |b.mains| == |secs| && |b.joints| == |secs|
    && forall c :: 0 <= c < |secs| ==> secs[c].mainProctor == b.mains[c] && secs[c].jointProctor == b.joints[c]
  }

  lemma {:induction false} FirstMainIs(ts: seq<Teacher>, k: seq<Tally>, group: seq<nat>, date: string, course: string, i: nat)
    requires |ts| == |k| && Within(group, |ts|) && i < |group|
    requires MainFit(ts, k, group[i], date, course)
    requires forall q :: 0 <= q < i ==> !MainFit(ts, k, group[q], date, course)
    ensures FirstMain(ts, k, group, date, course) == Some(i)
  {
  }

  lemma {:induction false} FirstJointIs(ts: seq<Teacher>, k: seq<Tally>, group: seq<nat>, date: string, i: nat)
    requires |ts| == |k| && Within(group, |ts|) && i < |group|
    requires JointFit(ts, k, group[i], date)
    requires forall q :: 0 <= q < i ==> !JointFit(ts, k, group[q], date)
    ensures FirstJoint(ts, k, group, date) == Some(i)
  {
  }

  /** One group of the main pass (utils/exam.py, lines 52-59). */
  method MainGroup(teachers: seq<Teacher>, sec: Section, group: seq<nat>, queue: seq<nat>, ghost d: Desk)
    returns (queue': seq<nat>, ghost t: Turn)
    requires Apart(teachers) && TeachersHold(teachers, d.tallies) && Within(group, |teachers|)
    requires Within(queue, |teachers|) && d.queue == queue
    requires sec.mainProctor == d.main && sec.jointProctor == d.joint
    modifies teachers, sec
    ensures t == MainTurn(teachers, d, group, sec.examDate, sec.course)
    ensures TeachersHold(teachers, t.desk.tallies) && queue' == t.desk.queue
    ensures sec.mainProctor == t.desk.main && sec.jointProctor == t.desk.joint
  {
    queue' := queue;
    var i: nat := 0;
    while i < |group|
      invariant i <= |group|
      invariant forall q :: 0 <= q < i ==> !MainFit(teachers, d.tallies, group[q], sec.examDate, sec.course)
    {
      var teacher := teachers[group[i]];
      if sec.examDate !in teacher.unavailableDates && teacher.CanBeMainProctor(sec.course) {
        FirstMainIs(teachers, d.tallies, group, sec.examDate, sec.course, i);
        sec.mainProctor := Some(teacher.name);
        teacher.mainProctorCourses := Bump(teacher.mainProctorCourses, sec.course);
        teacher.mainProctorCount := teacher.mainProctorCount + 1;
        if group[i] in queue' {
          queue' := RemoveFirst(queue', group[i]);
        }
        t := MainTurn(teachers, d, group, sec.examDate, sec.course);
        return;
      }
      i := i + 1;
    }
    t := Turn(d, None);
  }

  /** The joint pass (utils/exam.py, lines 65-71). */
  method JointGroup(teachers: seq<Teacher>, sec: Section, queue: seq<nat>, ghost d: Desk)
    returns (ghost t: Turn)
    requires Apart(teachers) && TeachersHold(teachers, d.tallies)
    requires Within(queue, |teachers|) && d.queue == queue
    requires sec.mainProctor == d.main && sec.jointProctor == d.joint
    modifies teachers, sec
    ensures t == JointTurn(teachers, d, sec.examDate, sec.course)
    ensures TeachersHold(teachers, t.desk.tallies)
    ensures sec.mainProctor == t.desk.main && sec.jointProctor == t.desk.joint
  {
    var i: nat := 0;
    while i < |queue|
      invariant i <= |queue|
      invariant forall q :: 0 <= q < i ==> !JointFit(teachers, d.tallies, queue[q], sec.examDate)
    {
      var teacher := teachers[queue[i]];
      if sec.examDate !in teacher.unavailableDates && teacher.CanBeJointProctor() {
        FirstJointIs(teachers, d.tallies, queue, sec.examDate, i);
        sec.jointProctor := Some(teacher.name);
        teacher.jointProctorCount := teacher.jointProctorCount + 1;
        teacher.jointProctorCourses := Bump(teacher.jointProctorCourses, sec.course);
        t := JointTurn(teachers, d, sec.examDate, sec.course);
        return;
      }
      i := i + 1;
    }
    t := Turn(d, None);
  }

  /** One class (utils/exam.py, lines 44-73). */
  method AssignClass(teachers: seq<Teacher>, sec: Section, ghost k: seq<Tally>) returns (ghost o: Outcome)
    requires Apart(teachers) && TeachersHold(teachers, k)
    modifies teachers, sec
    ensures o == Proctor(teachers, k, sec, old(sec.mainProctor), old(sec.jointProctor))
    ensures TeachersHold(teachers, o.desk.tallies)
    ensures sec.mainProctor == o.desk.main && sec.jointProctor == o.desk.joint
  {
    var teaching := Teaching(teachers, sec.teachers);
    var keys := seq(|teachers|, i requires 0 <= i < |teachers| reads teachers => teachers[i].jointProctorCount);
    assert keys == Joints(k);
    var queue := ByKey(Others(teachers, sec.teachers), keys);
    assert queue == Queue(teachers, k, sec.teachers);
    ghost var d := Desk(k, sec.mainProctor, sec.jointProctor, queue);
    ghost var m1 := Turn(d, None);
    ghost var m2 := Turn(d, None);
    if sec.mainProctorFaculty == Economics {
      queue, m1 := MainGroup(teachers, sec, teaching, queue, d);
      m2 := Turn(m1.desk, None);
      if !Truthy(sec.mainProctor) {
        queue, m2 := MainGroup(teachers, sec, queue, queue, m1.desk);
      }
    }
    ghost var j := Turn(m2.desk, None);
    if sec.jointProctorFaculty == Economics {
      j := JointGroup(teachers, sec, queue, m2.desk);
    }
    assert m1 == FirstStage(teachers, k, sec, d.main, d.joint);
    assert m2 == SecondStage(teachers, sec, m1.desk);
    assert j == JointStage(teachers, sec, m2.desk);
    o := Outcome(j.desk, teaching, Queue(teachers, k, sec.teachers), m1.pick, m2.pick, j.pick);
  }

  /** `assign_proctors` (utils/exam.py, lines 36-73): every class in order, against the
      counters the teachers carry in. */
  method AssignProctors(teachers: seq<Teacher>, classes: seq<Section>, ghost b0: Books) returns (ghost b: Books)
    requires Apart(teachers) && ApartSections(classes)
    requires TeachersHold(teachers, b0.tallies) && SectionsHold(classes, b0)
    modifies teachers, classes
    ensures TeachersHold(teachers, b.tallies) && SectionsHold(classes, b)
    ensures b == Proctored(teachers, classes, b0, |classes|)
    ensures AllBalanced(b0.tallies) ==> AllBalanced(b.tallies)
  {
    b := b0;
    for c := 0 to |classes|
      invariant TeachersHold(teachers, b.tallies) && SectionsHold(classes, b)
      invariant b == Proctored(teachers, classes, b0, c)
      invariant AllBalanced(b0.tallies) ==> AllBalanced(b.tallies)
    {
      b := Advance(teachers, classes, c, b0, b);
    }
  }

  /** The next class of the loop, with the books kept. */
  method Advance(teachers: seq<Teacher>, classes: seq<Section>, c: nat, ghost b0: Books, ghost b: Books)
    returns (ghost b': Books)
    requires Apart(teachers) && ApartSections(classes) && c < |classes|
    requires |b0.tallies| == |teachers| && |b0.mains| == |classes| && |b0.joints| == |classes|
    requires TeachersHold(teachers, b.tallies) && SectionsHold(classes, b)
    requires b == Proctored(teachers, classes, b0, c)
    modifies teachers, classes[c]
    ensures TeachersHold(teachers, b'.tallies) && SectionsHold(classes, b')
    ensures b' == Proctored(teachers, classes, b0, c + 1)
    ensures AllBalanced(b.tallies) ==> AllBalanced(b'.tallies)
  {
    ghost var main, joint := b.mains[c], b.joints[c];
    var o := AssignClass(teachers, classes[c], b.tallies);
    assert o == Proctor(teachers, b.tallies, classes[c], main, joint);
    if AllBalanced(b.tallies) {
      ProctorBalanced(teachers, b.tallies, classes[c], main, joint);
    }
    ProctoredStep(teachers, classes, b0, c + 1);
    b' := Books(o.desk.tallies, b.mains[c := o.desk.main], b.joints[c := o.desk.joint]);
  }

  lemma {:induction false} ProctoredStep(ts: seq<Teacher>, secs: seq<Section>, b0: Books, n: nat)
    requires |b0.tallies| == |ts| && |b0.mains| == |secs| && |b0.joints| == |secs| && 0 < n <= |secs|
    ensures var b := Proctored(ts, secs, b0, n - 1);
            var o := Proctor(ts, b.tallies, secs[n - 1], b.mains[n - 1], b.joints[n - 1]);
            Proctored(ts, secs, b0, n) == Books(o.desk.tallies, b.mains[n - 1 := o.desk.main], b.joints[n - 1 := o.desk.joint])
  {
  }
}
