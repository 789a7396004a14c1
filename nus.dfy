/**
 * The programme-level student-exchange matcher: the `Student` and `Program` classes
 * whose fields the algorithm updates in place, and `deferred_acceptance` with its audit
 * log.  Each iteration of the loop is proved to follow `NusSpec.Step`, so what is
 * proved there about the state machine holds of the objects once the loop ends.
 */
module Nus {
  import opened Base
  import opened Roster
  import opened NusSpec
  import SepSpec
  import Sep

  /** A student: the fields the rules read, a ranked list of (school, semester)
      choices, and a cursor to the next choice. */
  class Student {
    const name: string
    const gpa: int
    const totalScore: int
    const major: string
    const seniority: string
    const nationality: string
    const preferences: seq<Choice>
    var currentProposal: nat

    constructor (name: string, gpa: int, totalScore: int, major: string, seniority: string,
                 nationality: string, preferences: seq<Choice>)
      ensures View() == Applicant(name, gpa, totalScore, major, seniority, nationality, preferences)
      ensures currentProposal == 0
    {
      this.name := name;
      this.gpa := gpa;
      this.totalScore := totalScore;
      this.major := major;
      this.seniority := seniority;
      this.nationality := nationality;
      this.preferences := preferences;
      currentProposal := 0;
    }

    /** The school of the next choice, moving the cursor past it; nothing once the
        list is used up, and then the cursor stays where it is. */
    method Propose() returns (school: Option<string>)
      modifies this
      ensures old(currentProposal) < |preferences| ==>
        school == Some(preferences[old(currentProposal)].school) && currentProposal == old(currentProposal) + 1
      ensures old(currentProposal) >= |preferences| ==>
        school == None && currentProposal == old(currentProposal)
    {
      if currentProposal < |preferences| {
        school := Some(preferences[currentProposal].school);
        currentProposal := currentProposal + 1;
      } else {
        school := None;
      }
    }

    /** What the matcher reads of this student. */
    function View(): Applicant {
      Applicant(name, gpa, totalScore, major, seniority, nationality, preferences)
    }
  }

  /** A programme: its school, its eligibility rules, its quota and its occupants as
      `(total score, name)` pairs. */
  class Program {
    const schoolName: string
    const sem: Option<string>
    const majorIncl: seq<string>
    const majorExcl: seq<string>
    const quota: nat
    const minGpa: Option<int>
    const seniority: Option<string>
    const nationalityExcl: seq<string>
    var acceptedStudents: seq<Entry>

    constructor (schoolName: string, sem: Option<string>, majorIncl: seq<string>, majorExcl: seq<string>,
                 quota: nat, minGpa: Option<int>, seniority: Option<string>, nationalityExcl: seq<string>)
      ensures Rules() == Terms(schoolName, sem, majorIncl, majorExcl, quota, minGpa, seniority, nationalityExcl)
      ensures acceptedStudents == []
    {
      this.schoolName := schoolName;
      this.sem := sem;
      this.majorIncl := majorIncl;
      this.majorExcl := majorExcl;
      this.quota := quota;
      this.minGpa := minGpa;
      this.seniority := seniority;
      this.nationalityExcl := nationalityExcl;
      acceptedStudents := [];
    }

    /** The rules of this programme. */
    function Rules(): Terms {
      Terms(schoolName, sem, majorIncl, majorExcl, quota, minGpa, seniority, nationalityExcl)
    }

    /** Consider `student` for the semester of the choice it last proposed with: the
        first rule it fails hands its own entry back with that rule and leaves the
        occupants alone; otherwise its entry is appended, the occupants are sorted by
        total score from high to low (stably) and, over the quota, the last one is
        popped and handed back with the quota and the entries kept. */
    method Consider(student: Student) returns (removed: Option<Entry>, reason: Option<Reason>)
      requires 1 <= student.currentProposal <= |student.preferences|
      modifies this
      ensures Verdict(acceptedStudents, removed, reason)
           == NusSpec.Consider(Rules(), old(acceptedStudents), student.View(),
                               student.preferences[student.currentProposal - 1].semester)
    {
      var e := Entry(student.totalScore, student.name);
      var why := Screen(student);
      if why.Some? {
        removed, reason := Some(e), why;
        return;
      }
      removed, reason := Enter(e);
    }

    /** The tail of `consider` for an eligible student: append its entry, sort by total
        score from high to low (stably), and over the quota pop the last entry, handing
        it back with the quota and the entries kept. */
    method Enter(e: Entry) returns (removed: Option<Entry>, reason: Option<Reason>)
      modifies this
      ensures Admission(acceptedStudents, removed) == Admit(old(acceptedStudents), quota, e)
      ensures reason == if removed.Some? then Some(QuotaReached(quota, acceptedStudents)) else None
    {
      acceptedStudents := acceptedStudents + [e];
      acceptedStudents := SortDesc(acceptedStudents);
      if |acceptedStudents| > quota {
        reason := Some(QuotaReached(quota, acceptedStudents[..|acceptedStudents| - 1]));
        removed := Some(acceptedStudents[|acceptedStudents| - 1]);
        acceptedStudents := acceptedStudents[..|acceptedStudents| - 1];
      } else {
        removed, reason := None, None;
      }
    }

    /** The eligibility checks at the head of `consider`, in source order: the first
        rule the student fails, for the semester of the choice it last proposed with. */
    method Screen(student: Student) returns (why: Option<Reason>)
      requires 1 <= student.currentProposal <= |student.preferences|
      ensures why == Ineligible(Rules(), student.View(), student.preferences[student.currentProposal - 1].semester)
    {
      var wanted := student.preferences[student.currentProposal - 1].semester;
      if sem.Some? && wanted != AnySemester && wanted != sem.value {
        return Some(SemesterNotMet);
      }
      if majorIncl != [] && student.major !in majorIncl {
        return Some(MajorNotMet);
      }
      if majorExcl != [] && student.major in majorExcl {
        return Some(MajorNotMet);
      }
      if minGpa.Some? && student.gpa < minGpa.value {
        return Some(MinGpaNotMet(minGpa.value));
      }
      if seniority.Some? && student.seniority != seniority.value {
        return Some(SeniorityNotMet);
      }
      if nationalityExcl != [] && student.nationality in nationalityExcl {
        return Some(NationalityNotMet);
      }
      return None;
    }
  }

  function Views(students: seq<Student>): (apps: seq<Applicant>)
    ensures |apps| == |students| && forall i :: 0 <= i < |students| ==> apps[i] == students[i].View()
  {
    seq(|students|, i requires 0 <= i < |students| => students[i].View())
  }

  /** The programme dictionary as the state machine sees it: IDs with their rules. */
  function Listings(ids: seq<string>, programs: seq<Program>): (progs: seq<Listing>)
    requires |ids| == |programs|
    ensures |progs| == |programs|
    ensures forall p :: 0 <= p < |programs| ==> progs[p] == Listing(ids[p], programs[p].Rules())
  {
    seq(|programs|, p requires 0 <= p < |programs| => Listing(ids[p], programs[p].Rules()))
  }

  function Rosters(programs: seq<Program>): (rosters: seq<seq<Entry>>)
    reads programs
    ensures |rosters| == |programs|
    ensures forall p :: 0 <= p < |programs| ==> rosters[p] == programs[p].acceptedStudents
  {
    seq(|programs|, p requires 0 <= p < |programs| reads programs => programs[p].acceptedStudents)
  }

  /** The students' names, in input order. */
  function StudentNames(students: seq<Student>): (names: seq<string>)
    ensures names == Names(Views(students))
  {
    seq(|students|, i requires 0 <= i < |students| => students[i].name)
  }

  /** The objects are in the state `run` describes: the same cursors, the same rosters,
      and the queue holding the same students in the same order. */
  ghost predicate Mirrors(students: seq<Student>, programs: seq<Program>, queue: seq<Student>, run: Run)
    reads students, programs
  {
    && CursorsMirror(students, run.cursors)
    && RostersMirror(programs, run.rosters)
    && QueueMirrors(students, queue, run.queue)
  }

  ghost predicate CursorsMirror(students: seq<Student>, cursors: seq<nat>)
    reads students
  {
    |cursors| == |students| && forall i :: 0 <= i < |students| ==> CursorMirrors(students, cursors, i)
  }

  ghost predicate RostersMirror(programs: seq<Program>, rosters: seq<seq<Entry>>)
    reads programs
  {
    |rosters| == |programs| && forall p :: 0 <= p < |programs| ==> RosterMirrors(programs, rosters, p)
  }

  ghost predicate CursorMirrors(students: seq<Student>, cursors: seq<nat>, i: nat)
    reads students
  {
    i < |students| && i < |cursors| && students[i].currentProposal == cursors[i]
  }

  ghost predicate RosterMirrors(programs: seq<Program>, rosters: seq<seq<Entry>>, p: nat)
    reads programs
  {
    p < |programs| && p < |rosters| && programs[p].acceptedStudents == rosters[p]
  }

  /** The queue of objects lists the students whose indices `indices` lists. */
  predicate QueueMirrors(students: seq<Student>, queue: seq<Student>, indices: seq<nat>) {
    && |queue| == |indices|
    && (forall q :: 0 <= q < |queue| ==> indices[q] < |students| && queue[q] == students[indices[q]])
  }

  /** Popping the front of both queues keeps them in step. */
  lemma {:induction false} QueuePop(students: seq<Student>, queue: seq<Student>, indices: seq<nat>)
    requires QueueMirrors(students, queue, indices) && queue != []
    ensures indices[0] < |students| && queue[0] == students[indices[0]]
    ensures QueueMirrors(students, queue[1..], indices[1..])
  {
    forall q | 0 <= q < |queue| - 1 ensures queue[1..][q] == students[indices[1..][q]] {
      assert queue[1..][q] == queue[q + 1];
    }
  }

  /** Different indices hold different objects. */
  predicate Separate(students: seq<Student>, programs: seq<Program>) {
    && (forall i, j :: 0 <= i < |students| && 0 <= j < |students| && i != j ==> students[i] != students[j])
    && (forall p, q :: 0 <= p < |programs| && 0 <= q < |programs| && p != q ==> programs[p] != programs[q])
  }

  /** Students with different names are different objects. */
  lemma {:induction false} StudentsSeparate(students: seq<Student>)
    requires Distinct(Names(Views(students)))
    ensures forall i, j :: 0 <= i < |students| && 0 <= j < |students| && i != j ==> students[i] != students[j]
  {
    forall i, j | 0 <= i < |students| && 0 <= j < |students| && i != j ensures students[i] != students[j] {
      assert Names(Views(students))[i] != Names(Views(students))[j];
    }
  }

  /** The students' cursors. */
  function Cursors(students: seq<Student>): (cursors: seq<nat>)
    reads students
    ensures |cursors| == |students|
    ensures forall i :: 0 <= i < |students| ==> cursors[i] == students[i].currentProposal
  {
    seq(|students|, i requires 0 <= i < |students| reads students => students[i].currentProposal)
  }

  /** What the returned maps and log satisfy: the objects' final rosters and cursors
      and the two maps meet `ResultOk`, and every row of the log is well formed. */
  ghost predicate Reported(students: seq<Student>, ids: seq<string>, programs: seq<Program>,
                           assignments: map<string, Option<string>>, enrollments: map<string, seq<string>>,
                           log: seq<Event>)
    reads students, programs
    requires |ids| == |programs|
  {
    && ResultOk(Views(students), Listings(ids, programs), Rosters(programs), Cursors(students),
                assignments, enrollments)
    && LogOk(log)
  }

  /**
   * Programme-level deferred acceptance.  `students` and `programs` are the values of
   * the two dictionaries in insertion order; the student dictionary is keyed by name,
   * the programme dictionary by `ids`.  All objects are as freshly constructed.  It
   * returns the two result maps and the matching-process log; the lookup of a turned-
   * away student by name never fails.  `runs` is the trail of loop states: the log
   * returned is the last state's log, row for row, and the objects end up holding the
   * last state's rosters and cursors (`NusSpec.TrailsAgree`: that trail is the only one).
   */
  method DeferredAcceptance(students: seq<Student>, ids: seq<string>, programs: seq<Program>)
    returns (assignments: map<string, Option<string>>, enrollments: map<string, seq<string>>, log: seq<Event>,
             ghost runs: seq<Run>)
    requires |ids| == |programs| && WellFormed(Views(students), Listings(ids, programs))
    requires forall p, q :: 0 <= p < |programs| && 0 <= q < |programs| && p != q ==> programs[p] != programs[q]
    requires forall i :: 0 <= i < |students| ==> students[i].currentProposal == 0
    requires forall p :: 0 <= p < |programs| ==> programs[p].acceptedStudents == []
    modifies students, programs
    ensures Reported(students, ids, programs, assignments, enrollments, log)
    ensures Trail(Views(students), Listings(ids, programs), runs) && runs[|runs| - 1].queue == []
    ensures log == runs[|runs| - 1].log
    ensures Rosters(programs) == runs[|runs| - 1].rosters && Cursors(students) == runs[|runs| - 1].cursors
  {
    ghost var apps, progs := Views(students), Listings(ids, programs);
    var names := StudentNames(students);
    StudentsSeparate(students);
    var queue := students;
    log := [];
    ghost var run := Start(apps, progs);
    runs := [run];
    StartInv(apps, progs);
    assert QueueMirrors(students, queue, run.queue);
    while queue != []
      invariant Inv(apps, progs, run)
      invariant Mirrors(students, programs, queue, run) && log == run.log
      invariant Trail(apps, progs, runs) && runs[|runs| - 1] == run
      decreases Pending(apps, run.cursors), |run.queue|
    {
      StepKeepsInv(apps, progs, run);
      TrailExtend(apps, progs, runs);
      queue, log := Serve(students, ids, programs, names, queue, log, run);
      run := Step(apps, progs, run).run;
      runs := runs + [run];
    }
    assignments, enrollments := Collect(students, ids, programs, names, run);
  }

  /** The end of `deferred_acceptance`, once the queue is empty: the two result maps
      built from the programmes' rosters. */
  method Collect(students: seq<Student>, ids: seq<string>, programs: seq<Program>, names: seq<string>,
                 ghost run: Run)
    returns (assignments: map<string, Option<string>>, enrollments: map<string, seq<string>>)
    requires |ids| == |programs| && Inv(Views(students), Listings(ids, programs), run) && run.queue == []
    requires CursorsMirror(students, run.cursors) && RostersMirror(programs, run.rosters)
    requires names == StudentNames(students)
    ensures Reported(students, ids, programs, assignments, enrollments, run.log)
    ensures Rosters(programs) == run.rosters && Cursors(students) == run.cursors
  {
    var seats := Seats(Listings(ids, programs));
    forall p | 0 <= p < |programs| ensures programs[p].acceptedStudents == run.rosters[p] {
      assert RosterMirrors(programs, run.rosters, p);
    }
    forall i | 0 <= i < |students| ensures students[i].currentProposal == run.cursors[i] {
      assert CursorMirrors(students, run.cursors, i);
    }
    assert Rosters(programs) == run.rosters && Cursors(students) == run.cursors;
    assignments, enrollments := Sep.BuildResult(names, seats, Rosters(programs));
    FinalResult(Views(students), Listings(ids, programs), run);
  }

  /** One iteration of the loop: pop the first queued student and let it propose; log
      the proposal, let the school's programmes consider it, log what they hand back,
      and queue the other student turned away, or the proposer when no programme kept
      it.  The objects then mirror `Step`'s next state. */
  method Serve(students: seq<Student>, ids: seq<string>, programs: seq<Program>, names: seq<string>,
               queue: seq<Student>, log: seq<Event>, ghost run: Run)
    returns (queue': seq<Student>, log': seq<Event>)
    requires |ids| == |programs| && Shaped(Views(students), Listings(ids, programs), run) && run.queue != []
    requires Step(Views(students), Listings(ids, programs), run).Next?
    requires Separate(students, programs) && Mirrors(students, programs, queue, run) && log == run.log
    requires names == StudentNames(students)
    modifies students, programs
    ensures var next := Step(Views(students), Listings(ids, programs), run).run;
      Mirrors(students, programs, queue', next) && log' == next.log
  {
    ghost var apps, progs := Views(students), Listings(ids, programs);
    ghost var i := run.queue[0];
    ghost var c := run.cursors[i];
    QueuePop(students, queue, run.queue);
    var student := queue[0];
    queue' := queue[1..];
    assert CursorMirrors(students, run.cursors, i);
    var school := student.Propose();
    if school.None? {
      log' := log;
      forall i2 | 0 <= i2 < |students| ensures CursorMirrors(students, run.cursors, i2) {
        assert old(CursorMirrors(students, run.cursors, i2));
      }
      forall p2 | 0 <= p2 < |programs| ensures RosterMirrors(programs, run.rosters, p2) {
        assert old(RosterMirrors(programs, run.rosters, p2));
      }
      return;
    }
    ghost var extra := StepProposes(apps, progs, run);
    ghost var cursors := run.cursors[i := c + 1];
    forall i2 | 0 <= i2 < |students| ensures CursorMirrors(students, cursors, i2) {
      assert old(CursorMirrors(students, run.cursors, i2));
    }
    forall p2 | 0 <= p2 < |programs| ensures RosterMirrors(programs, run.rosters, p2) {
      assert old(RosterMirrors(programs, run.rosters, p2));
    }
    queue', log' := Proceed(students, ids, programs, names, queue[1..], log, student, school.value,
                            run.queue[1..], run.rosters, i, extra);
  }

  /** The rest of an iteration, once `student` (student `i`) has proposed to `school`:
      log the proposal, let the school's programmes consider it, and queue `extra`,
      the student turned away or the proposer. */
  method Proceed(students: seq<Student>, ids: seq<string>, programs: seq<Program>, names: seq<string>,
                 queue: seq<Student>, log: seq<Event>, student: Student, school: string,
                 ghost indices: seq<nat>, ghost rosters: seq<seq<Entry>>, ghost i: nat, ghost extra: seq<nat>)
    returns (queue': seq<Student>, log': seq<Event>)
    requires |ids| == |programs| && names == StudentNames(students) && QueueMirrors(students, queue, indices)
    requires RostersMirror(programs, rosters)
    requires forall p, q :: 0 <= p < |programs| && 0 <= q < |programs| && p != q ==> programs[p] != programs[q]
    requires i < |students| && students[i] == student
    requires 1 <= student.currentProposal <= |student.preferences|
    requires school == student.preferences[student.currentProposal - 1].school
    requires var t := TryFrom(Listings(ids, programs), rosters, student.View(),
                              student.preferences[student.currentProposal - 1].semester, school, 0);
      && (!t.accepted ==> extra == [i])
      && (t.accepted && t.displaced.None? ==> extra == [])
      && (t.accepted && t.displaced.Some? ==> |extra| == 1 && IndexOf(names, t.displaced.value.name) == Some(extra[0]))
    modifies programs
    ensures var t := TryFrom(Listings(ids, programs), rosters, student.View(),
                             student.preferences[student.currentProposal - 1].semester, school, 0);
      && RostersMirror(programs, t.rosters)
      && QueueMirrors(students, queue', indices + extra)
      && log' == log + [Proposal(student.View(), student.currentProposal)] + t.events
  {
    log' := log + [Event(student.name, student.totalScore, ProposedTo, Some(student.currentProposal), school, None)];
    var accepted, displaced, events := TryPrograms(ids, programs, student, school, rosters);
    log' := log' + events;
    queue' := queue;
    if !accepted {
      queue' := queue + [student];
    } else if displaced.Some? {
      var o := IndexOf(names, displaced.value.name);
      queue' := queue + [students[o.value]];
    } else {
      assert indices + extra == indices;
    }
  }

  /** The loop over the programmes so far has logged `events`, left the rosters `rs`
      and reached position `j`: once a programme has kept the student the pass's result
      is fixed; until then it is these rows followed by what the programmes from `j` on
      do. */
  ghost predicate Continues(progs: seq<Listing>, rosters: seq<seq<Entry>>, a: Applicant, wanted: string,
                            school: string, rs: seq<seq<Entry>>, j: nat, accepted: bool,
                            displaced: Option<Entry>, events: seq<Event>)
    requires |rosters| == |progs| == |rs| && j <= |progs|
  {
    var t0 := TryFrom(progs, rosters, a, wanted, school, 0);
    if accepted then t0 == Tried(rs, events, true, displaced)
    else
      var t := TryFrom(progs, rs, a, wanted, school, j);
      displaced.None? && t0 == Tried(t.rosters, events + t.events, t.accepted, t.displaced)
  }

  /** What one programme of the loop does to `Continues`: another school's programme is
      skipped; one that keeps the student ends the pass; one that hands back an entry
      adds its rejection row, and ends the pass when the entry is another student's. */
  lemma {:induction false} ContinuesStep(progs: seq<Listing>, rosters: seq<seq<Entry>>, a: Applicant, wanted: string,
                      school: string, rs: seq<seq<Entry>>, j: nat, events: seq<Event>)
    requires |rosters| == |progs| == |rs| && j < |progs|
    requires Continues(progs, rosters, a, wanted, school, rs, j, false, None, events)
    ensures progs[j].terms.school != school ==>
      Continues(progs, rosters, a, wanted, school, rs, j + 1, false, None, events)
    ensures var v := NusSpec.Consider(progs[j].terms, rs[j], a, wanted);
      var rs' := rs[j := v.roster];
      progs[j].terms.school == school ==>
        && (v.removed.None? ==> Continues(progs, rosters, a, wanted, school, rs', j + 1, true, None, events))
        && (v.removed.Some? ==>
              var x := v.removed.value;
              var other := x.name != a.name;
              Continues(progs, rosters, a, wanted, school, rs', j + 1, other, if other then v.removed else None,
                        events + [Rejection(x, school, progs[j].id, v.reason)]))
  {
    if progs[j].terms.school == school {
      var v := NusSpec.Consider(progs[j].terms, rs[j], a, wanted);
      var rs' := rs[j := v.roster];
      if v.removed.None? {
        assert events + [] == events;
      } else {
        var row := Rejection(v.removed.value, school, progs[j].id, v.reason);
        var rest := TryFrom(progs, rs', a, wanted, school, j + 1);
        assert events + [row] + rest.events == events + ([row] + rest.events);
      }
    }
  }

  /** Programme `j` considers `student`; the other programmes keep their rosters. */
  method ConsiderAt(programs: seq<Program>, j: nat, student: Student, ghost rs: seq<seq<Entry>>)
    returns (removed: Option<Entry>, reason: Option<Reason>)
    requires j < |programs| && RostersMirror(programs, rs)
    requires forall p, q :: 0 <= p < |programs| && 0 <= q < |programs| && p != q ==> programs[p] != programs[q]
    requires 1 <= student.currentProposal <= |student.preferences|
    modifies programs[j]
    ensures var v := NusSpec.Consider(programs[j].Rules(), rs[j], student.View(),
                                      student.preferences[student.currentProposal - 1].semester);
      removed == v.removed && reason == v.reason && RostersMirror(programs, rs[j := v.roster])
  {
    ghost var v := NusSpec.Consider(programs[j].Rules(), rs[j], student.View(),
                                    student.preferences[student.currentProposal - 1].semester);
    ghost var rs' := rs[j := v.roster];
    assert RosterMirrors(programs, rs, j);
    removed, reason := programs[j].Consider(student);
    forall p2 | 0 <= p2 < |programs| ensures RosterMirrors(programs, rs', p2) {
      assert old(RosterMirrors(programs, rs, p2));
    }
  }

  /** The `for programID, program in programs.items()` loop of one proposal: each
      programme of the proposed school considers the student in turn; one that keeps
      it without popping anyone ends the loop; one that hands back an entry logs a
      rejection row, and ends the loop when that entry is another student's. */
  method TryPrograms(ids: seq<string>, programs: seq<Program>, student: Student, school: string,
                     ghost rosters: seq<seq<Entry>>)
    returns (accepted: bool, displaced: Option<Entry>, events: seq<Event>)
    requires |ids| == |programs| && RostersMirror(programs, rosters)
    requires forall p, q :: 0 <= p < |programs| && 0 <= q < |programs| && p != q ==> programs[p] != programs[q]
    requires 1 <= student.currentProposal <= |student.preferences|
    modifies programs
    ensures var t := TryFrom(Listings(ids, programs), rosters, student.View(),
                             student.preferences[student.currentProposal - 1].semester, school, 0);
      RostersMirror(programs, t.rosters) && accepted == t.accepted && displaced == t.displaced && events == t.events
  {
    ghost var progs := Listings(ids, programs);
    ghost var a := student.View();
    ghost var wanted := student.preferences[student.currentProposal - 1].semester;
    ghost var rs := rosters;
    accepted, displaced, events := false, None, [];
    var j := 0;
    assert events + TryFrom(progs, rs, a, wanted, school, 0).events == TryFrom(progs, rs, a, wanted, school, 0).events;
    while j < |programs| && !accepted
      invariant j <= |programs| && RostersMirror(programs, rs)
      invariant Continues(progs, rosters, a, wanted, school, rs, j, accepted, displaced, events)
      decreases |programs| - j
    {
      accepted, displaced, events, rs := Offer(ids, programs, student, school, j, progs, rosters, rs, events);
      j := j + 1;
    }
    assert events + [] == events;
  }

  /** One turn of that loop, at programme `j`: a programme of another school is passed
      over; otherwise it considers the student, and what it hands back is logged. */
  method Offer(ids: seq<string>, programs: seq<Program>, student: Student, school: string, j: nat,
               ghost progs: seq<Listing>, ghost rosters: seq<seq<Entry>>, ghost rs: seq<seq<Entry>>,
               events: seq<Event>)
    returns (accepted: bool, displaced: Option<Entry>, events': seq<Event>, ghost rs': seq<seq<Entry>>)
    requires |ids| == |programs| && j < |programs| && progs == Listings(ids, programs)
    requires RostersMirror(programs, rs) && |rosters| == |programs|
    requires forall p, q :: 0 <= p < |programs| && 0 <= q < |programs| && p != q ==> programs[p] != programs[q]
    requires 1 <= student.currentProposal <= |student.preferences|
    requires Continues(progs, rosters, student.View(), student.preferences[student.currentProposal - 1].semester,
                       school, rs, j, false, None, events)
    modifies programs[j]
    ensures RostersMirror(programs, rs')
    ensures Continues(progs, rosters, student.View(), student.preferences[student.currentProposal - 1].semester,
                      school, rs', j + 1, accepted, displaced, events')
  {
    ghost var a := student.View();
    ghost var wanted := student.preferences[student.currentProposal - 1].semester;
    ContinuesStep(progs, rosters, a, wanted, school, rs, j, events);
    accepted, displaced, events', rs' := false, None, events, rs;
    if programs[j].schoolName == school {
      ghost var v := NusSpec.Consider(progs[j].terms, rs[j], a, wanted);
      var removed, reason := ConsiderAt(programs, j, student, rs);
      rs' := rs[j := v.roster];
      if removed.None? {
        accepted := true;
      } else {
        var row := Event(removed.value.name, removed.value.key, RejectedBy, None,
                         school + " ProgramID: " + ids[j], reason);
        assert row == Rejection(removed.value, school, progs[j].id, v.reason);
        events' := events + [row];
        if removed.value.name != student.name {
          accepted, displaced := true, removed;
        }
      }
    }
  }
}
