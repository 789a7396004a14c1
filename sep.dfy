/**
 * The plain student-exchange matcher: the `Student` and `School` classes whose
 * fields the algorithm updates in place, and `deferred_acceptance` itself.
 * Each step of the loop is proved to follow `SepSpec.Step`, so every property
 * proved there about the state machine holds of the objects when the loop ends.
 */
module Sep {
  import opened Base
  import opened Text
  import opened Roster
  import opened SepSpec

  /** A student: a name, a GPA, a ranked list of school names, and a cursor to the
      next school to propose to. */
  class Student {
    const name: string
    const gpa: int
    const preferences: seq<string>
    var currentProposal: nat

    /** Every preference is stored with surrounding white space stripped. */
    constructor (name: string, gpa: int, preferences: seq<string>)
      ensures this.name == name && this.gpa == gpa
      ensures |this.preferences| == |preferences|
      ensures forall j :: 0 <= j < |preferences| ==> this.preferences[j] == Strip(preferences[j])
      ensures currentProposal == 0
    {
      this.name := name;
      this.gpa := gpa;
      this.preferences := seq(|preferences|, j requires 0 <= j < |preferences| => Strip(preferences[j]));
      currentProposal := 0;
    }

    /** The next school on the list, moving the cursor past it; nothing once the
        list is used up, and then the cursor stays where it is. */
    method Propose() returns (school: Option<string>)
      modifies this
      ensures old(currentProposal) < |preferences| ==>
        school == Some(preferences[old(currentProposal)]) && currentProposal == old(currentProposal) + 1
      ensures old(currentProposal) >= |preferences| ==>
        school == None && currentProposal == old(currentProposal)
    {
      if currentProposal < |preferences| {
        school := Some(preferences[currentProposal]);
        currentProposal := currentProposal + 1;
      } else {
        school := None;
      }
    }

    /** What the matcher reads of this student. */
    function View(): Applicant {
      Applicant(name, gpa, preferences)
    }
  }

  /** A school: a name, a quota and its occupants as `(gpa, name)` pairs. */
  class School {
    const name: string
    const quota: nat
    var acceptedStudents: seq<Entry>

    constructor (name: string, quota: nat)
      ensures this.name == name && this.quota == quota && acceptedStudents == []
    {
      this.name := name;
      this.quota := quota;
      acceptedStudents := [];
    }

    /** Tentatively admit `student`: append its entry, sort by GPA from high to low
        (stably, so among equal GPAs the earlier entry stays ahead), and pop the
        last entry when the list is over the quota.  The occupants stay sorted and
        within the quota, something is popped exactly when the school was full,
        the popped entry has the lowest GPA of all, and nothing is lost. */
    method Consider(student: Student) returns (removed: Option<Entry>)
      modifies this
      ensures Admission(acceptedStudents, removed) == Admit(old(acceptedStudents), quota, Entry(student.gpa, student.name))
      ensures SortedDesc(acceptedStudents)
      ensures |old(acceptedStudents)| <= quota ==> |acceptedStudents| <= quota
      ensures removed.None? <==> |old(acceptedStudents)| < quota
      ensures multiset(acceptedStudents) + AsMultiset(removed)
           == multiset(old(acceptedStudents)) + multiset{Entry(student.gpa, student.name)}
      ensures removed.Some? ==> forall p :: 0 <= p < |acceptedStudents| ==> removed.value.key <= acceptedStudents[p].key
    {
      var e := Entry(student.gpa, student.name);
      ghost var before := acceptedStudents;
      AdmitContract(before, quota, e);
      acceptedStudents := acceptedStudents + [e];
      acceptedStudents := SortDesc(acceptedStudents);
      if |acceptedStudents| > quota {
        removed := Some(acceptedStudents[|acceptedStudents| - 1]);
        acceptedStudents := acceptedStudents[..|acceptedStudents| - 1];
        AdmitEvictsNewestMinimum(before, quota, e);
        assert forall p :: 0 <= p < |acceptedStudents| ==> acceptedStudents[p] in acceptedStudents;
      } else {
        removed := None;
      }
    }
  }

  /** What `deferred_acceptance` returns: the two result dictionaries, or the
      `KeyError` it raises for a preference that names no school. */
  datatype Outcome =
    | Matched(assignments: map<string, Option<string>>, enrollments: map<string, seq<string>>)
    | Raised(key: string)

  function Views(students: seq<Student>): (apps: seq<Applicant>)
    ensures |apps| == |students| && forall i :: 0 <= i < |students| ==> apps[i] == students[i].View()
  {
    seq(|students|, i requires 0 <= i < |students| => students[i].View())
  }

  function Seats(schools: seq<School>): (seats: seq<Seat>)
    ensures |seats| == |schools|
    ensures forall k :: 0 <= k < |schools| ==> seats[k] == Seat(schools[k].name, schools[k].quota)
  {
    seq(|schools|, k requires 0 <= k < |schools| => Seat(schools[k].name, schools[k].quota))
  }

  function Rosters(schools: seq<School>): (rosters: seq<seq<Entry>>)
    reads schools
    ensures |rosters| == |schools|
    ensures forall k :: 0 <= k < |schools| ==> rosters[k] == schools[k].acceptedStudents
  {
    seq(|schools|, k requires 0 <= k < |schools| reads schools => schools[k].acceptedStudents)
  }

  /** The objects are in the state `run` describes: the same cursors, the same
      rosters, and the queue holding the same students in the same order. */
  ghost predicate Mirrors(students: seq<Student>, schools: seq<School>, queue: seq<Student>, run: Run)
    reads students, schools
  {
    && CursorsMirror(students, run.cursors)
    && RostersMirror(schools, run.rosters)
    && QueueMirrors(students, queue, run.queue)
  }

  ghost predicate CursorsMirror(students: seq<Student>, cursors: seq<nat>)
    reads students
  {
    |cursors| == |students| && forall i :: 0 <= i < |students| ==> CursorMirrors(students, cursors, i)
  }

  ghost predicate RostersMirror(schools: seq<School>, rosters: seq<seq<Entry>>)
    reads schools
  {
    |rosters| == |schools| && forall k :: 0 <= k < |schools| ==> RosterMirrors(schools, rosters, k)
  }

  ghost predicate CursorMirrors(students: seq<Student>, cursors: seq<nat>, i: nat)
    reads students
  {
    i < |students| && i < |cursors| && students[i].currentProposal == cursors[i]
  }

  ghost predicate RosterMirrors(schools: seq<School>, rosters: seq<seq<Entry>>, k: nat)
    reads schools
  {
    k < |schools| && k < |rosters| && schools[k].acceptedStudents == rosters[k]
  }

  /** The queue of objects lists the students whose indices `indices` lists. */
  predicate QueueMirrors(students: seq<Student>, queue: seq<Student>, indices: seq<nat>) {
    && |queue| == |indices|
    && (forall q :: 0 <= q < |queue| ==> indices[q] < |students| && queue[q] == students[indices[q]])
  }

  /** Popping the front of both queues keeps them in step. */
  lemma {:induction false} QueuePop(students: seq<Student>, queue: seq<Student>, indices: seq<nat>)
    requires QueueMirrors(students, queue, indices) && queue != []
    ensures indices[0] < |students| && queue[0] == students[indices[0]]
    ensures QueueMirrors(students, queue[1..], indices[1..])
  {
    forall q | 0 <= q < |queue| - 1 ensures queue[1..][q] == students[indices[1..][q]] {
      assert queue[1..][q] == queue[q + 1];
    }
  }

  /** Appending student `o` to both queues keeps them in step. */
  lemma {:induction false} QueuePush(students: seq<Student>, queue: seq<Student>, indices: seq<nat>, o: nat)
    requires QueueMirrors(students, queue, indices) && o < |students|
    ensures QueueMirrors(students, queue + [students[o]], indices + [o])
  {
  }

  /** Objects with different names are different objects. */
  predicate Separate(students: seq<Student>, schools: seq<School>) {
    && (forall i, j :: 0 <= i < |students| && 0 <= j < |students| && i != j ==> students[i] != students[j])
    && (forall k, l :: 0 <= k < |schools| && 0 <= l < |schools| && k != l ==> schools[k] != schools[l])
  }

  lemma {:induction false} NamesSeparate(students: seq<Student>, schools: seq<School>)
    requires WellFormed(Views(students), Seats(schools))
    ensures Separate(students, schools)
  {
    forall i, j | 0 <= i < |students| && 0 <= j < |students| && i != j ensures students[i] != students[j] {
      assert Names(Views(students))[i] != Names(Views(students))[j];
    }
    forall k, l | 0 <= k < |schools| && 0 <= l < |schools| && k != l ensures schools[k] != schools[l] {
      assert SeatNames(Seats(schools))[k] != SeatNames(Seats(schools))[l];
    }
  }

  /** The students' names, in input order. */
  function StudentNames(students: seq<Student>): (names: seq<string>)
    ensures names == Names(Views(students))
  {
    seq(|students|, i requires 0 <= i < |students| => students[i].name)
  }

  /** The school names, in input order. */
  function SchoolNames(schools: seq<School>): (names: seq<string>)
    ensures names == SeatNames(Seats(schools))
  {
    seq(|schools|, k requires 0 <= k < |schools| => schools[k].name)
  }

  /** What `deferred_acceptance` raises: `KeyError` for a preference of some
      student that names no school. */
  predicate RaisedFor(students: seq<Student>, schools: seq<School>, key: string) {
    exists i, j :: 0 <= i < |students| && 0 <= j < |students[i].preferences| &&
      students[i].preferences[j] == key && key !in SchoolNames(schools)
  }

  /** What the returned matching satisfies: the schools' rosters are sorted and
      within quota and form a weakly stable matching; the assignment map sends
      every student name (and nothing else) to the one school listing it, if any, and
      a student left unassigned was turned down by every school on its list; the
      enrollment map sends every school name (and nothing else) to the names on
      its roster, in roster order. */
  ghost predicate MatchedWell(students: seq<Student>, schools: seq<School>,
                              assignments: map<string, Option<string>>, enrollments: map<string, seq<string>>)
    reads students, schools
  {
    && (forall k :: 0 <= k < |schools| ==>
          SortedDesc(schools[k].acceptedStudents) && |schools[k].acceptedStudents| <= schools[k].quota)
    && WeaklyStable(Views(students), Seats(schools), Rosters(schools))
    && OnOneRoster(Rosters(schools))
    && assignments.Keys == (set n | n in StudentNames(students))
    && (forall i :: 0 <= i < |students| ==>
          assignments[students[i].name] == AssignedTo(Seats(schools), Rosters(schools), students[i].name))
    && (forall i :: 0 <= i < |students| && assignments[students[i].name].None? ==>
          students[i].currentProposal == |students[i].preferences|)
    && enrollments.Keys == (set n | n in SchoolNames(schools))
    && (forall k :: 0 <= k < |schools| ==>
          enrollments[schools[k].name] == RosterNames(schools[k].acceptedStudents))
  }

  /**
   * Student-proposing deferred acceptance.  `students` and `schools` are the
   * values of the two dictionaries in insertion order (their keys are the
   * names), as freshly constructed.  It either returns the two result maps of a
   * weakly stable matching or raises `KeyError` for a preference that names no
   * school.
   */
  method DeferredAcceptance(students: seq<Student>, schools: seq<School>) returns (result: Outcome)
    requires WellFormed(Views(students), Seats(schools))
    requires forall i :: 0 <= i < |students| ==> students[i].currentProposal == 0
    requires forall k :: 0 <= k < |schools| ==> schools[k].acceptedStudents == []
    modifies students, schools
    ensures result.Raised? ==> RaisedFor(students, schools, result.key)
    ensures result.Matched? ==> MatchedWell(students, schools, result.assignments, result.enrollments)
  {
    ghost var apps, seats := Views(students), Seats(schools);
    var names, schoolNames := StudentNames(students), SchoolNames(schools);
    NamesSeparate(students, schools);
    var queue := students;
    ghost var run := Start(apps, seats);
    StartInv(apps, seats);
    while queue != []
      invariant Inv(apps, seats, run)
      invariant Mirrors(students, schools, queue, run)
      decreases Pending(apps, run.cursors), |run.queue|
    {
      StepKeepsInv(apps, seats, run);
      PopsFound(apps, seats, run);
      var raised;
      queue, raised := Serve(students, schools, names, schoolNames, queue, run);
      if raised.Some? {
        ghost var i := run.queue[0];
        assert students[i].preferences[run.cursors[i]] == raised.value;
        return Raised(raised.value);
      }
      run := Step(apps, seats, run).run;
    }
    var assignments, enrollments := Collect(students, schools, names, run);
    result := Matched(assignments, enrollments);
  }

  /** The end of `deferred_acceptance`, once the queue is empty: the two result
      maps built from the schools' rosters. */
  method Collect(students: seq<Student>, schools: seq<School>, names: seq<string>, ghost run: Run)
    returns (assignments: map<string, Option<string>>, enrollments: map<string, seq<string>>)
    requires Inv(Views(students), Seats(schools), run) && run.queue == []
    requires CursorsMirror(students, run.cursors) && RostersMirror(schools, run.rosters)
    requires names == StudentNames(students)
    ensures MatchedWell(students, schools, assignments, enrollments)
  {
    ghost var apps, seats := Views(students), Seats(schools);
    forall k | 0 <= k < |schools| ensures schools[k].acceptedStudents == run.rosters[k] {
      assert RosterMirrors(schools, run.rosters, k);
    }
    assert Rosters(schools) == run.rosters;
    FinalStable(apps, seats, run);
    RostersApart(apps, seats, run);
    AssignmentsFinal(apps, seats, run);
    forall i | 0 <= i < |students|
      ensures Holder(run.rosters, apps[i].name).None? ==> students[i].currentProposal == |apps[i].preferences|
    {
      FinalPlacement(apps, seats, run, i);
      assert CursorMirrors(students, run.cursors, i);
    }
    assignments, enrollments := BuildResult(names, Seats(schools), Rosters(schools));
    forall k | 0 <= k < |schools| ensures enrollments[schools[k].name] == RosterNames(run.rosters[k]) {
      EnrolledAt(seats, run.rosters, k);
    }
  }

  /** One iteration of the loop: pop the first queued student and let it propose;
      a proposal to a school name that is not a key of the dictionary raises
      `KeyError`; otherwise that school considers the student, and the student it
      turns away goes to the back of the queue.  The objects then mirror `Step`'s
      next state. */
  method Serve(students: seq<Student>, schools: seq<School>, names: seq<string>, schoolNames: seq<string>,
               queue: seq<Student>, ghost run: Run)
    returns (queue': seq<Student>, raised: Option<string>)
    requires Shaped(Views(students), Seats(schools), run) && run.queue != []
    requires var t := Target(Views(students), Seats(schools), run);
      t.Some? ==> PopFound(Views(students), Seats(schools), run, t.value)
    requires Separate(students, schools) && Mirrors(students, schools, queue, run)
    requires names == StudentNames(students) && schoolNames == SchoolNames(schools)
    modifies students, schools
    ensures var out := Step(Views(students), Seats(schools), run);
      && (raised.Some? <==> out.KeyError?)
      && (raised.Some? ==> raised.value == out.key)
      && (out.Next? ==> Mirrors(students, schools, queue', out.run))
  {
    ghost var apps, seats := Views(students), Seats(schools);
    ghost var i := run.queue[0];
    ghost var c := run.cursors[i];
    ghost var next, kk := run, 0;
    if Target(apps, seats, run).Some? {
      kk := Target(apps, seats, run).value;
      next := StepEquation(apps, seats, run, kk);
    }
    QueuePop(students, queue, run.queue);
    var student := queue[0];
    queue' := queue[1..];
    assert CursorMirrors(students, run.cursors, i);
    var choice := student.Propose();
    if choice.None? {
      raised := None;
      forall i2 | 0 <= i2 < |students| ensures CursorMirrors(students, run.cursors, i2) {
        assert old(CursorMirrors(students, run.cursors, i2));
      }
      forall k2 | 0 <= k2 < |schools| ensures RosterMirrors(schools, run.rosters, k2) {
        assert old(RosterMirrors(schools, run.rosters, k2));
      }
      return;
    }
    var k := IndexOf(schoolNames, choice.value);
    if k.None? {
      raised := Some(choice.value);
      return;
    }
    forall i2 | 0 <= i2 < |students| ensures CursorMirrors(students, next.cursors, i2) {
      assert old(CursorMirrors(students, run.cursors, i2));
    }
    assert kk == k.value;
    queue' := Place(students, schools, names, queue', run.queue[1..], student, k.value, run.rosters);
    assert next.queue == run.queue[1..] + Requeued(apps, seats, run, kk);
    raised := None;
  }

  /** The second half of an iteration: school `k` considers `student`, and the
      student it pops, looked up by name, joins the back of the queue. */
  method Place(students: seq<Student>, schools: seq<School>, names: seq<string>, queue: seq<Student>,
               ghost indices: seq<nat>, student: Student, k: nat, ghost rosters: seq<seq<Entry>>)
    returns (queue': seq<Student>)
    requires k < |schools| && Separate(students, schools) && RostersMirror(schools, rosters)
    requires QueueMirrors(students, queue, indices)
    requires names == StudentNames(students)
    requires var a := Admit(rosters[k], schools[k].quota, Entry(student.gpa, student.name));
      a.removed.Some? ==> IndexOf(names, a.removed.value.name).Some?
    modifies schools[k]
    ensures var a := Admit(rosters[k], schools[k].quota, Entry(student.gpa, student.name));
      && RostersMirror(schools, rosters[k := a.kept])
      && QueueMirrors(students, queue', indices +
           match a.removed case None => [] case Some(x) => [IndexOf(names, x.name).value])
  {
    ghost var admitted := Admit(rosters[k], schools[k].quota, Entry(student.gpa, student.name));
    assert RosterMirrors(schools, rosters, k);
    var removed := schools[k].Consider(student);
    ghost var rosters' := rosters[k := admitted.kept];
    forall k2 | 0 <= k2 < |schools| ensures RosterMirrors(schools, rosters', k2) {
      assert old(RosterMirrors(schools, rosters, k2));
    }
    queue' := queue;
    if removed.Some? {
      var o := IndexOf(names, removed.value.name);
      QueuePush(students, queue, indices, o.value);
      queue' := queue + [students[o.value]];
    } else {
      assert indices + [] == indices;
    }
  }

  /** The two result dictionaries: every student name starts unassigned and every
      school with an empty list; then, school by school in order, each occupant is
      assigned that school and appended to its list. */
  method BuildResult(names: seq<string>, seats: seq<Seat>, rosters: seq<seq<Entry>>)
    returns (assignments: map<string, Option<string>>, enrollments: map<string, seq<string>>)
    requires |seats| == |rosters| && Distinct(SeatNames(seats))
    ensures assignments == Assignments(names, seats, rosters)
    ensures enrollments == Enrolled(seats, rosters)
  {
    assignments := map n | n in names :: None;
    enrollments := map n | n in SeatNames(seats) :: [];
    AssignmentsNone(names, seats);
    EnrolledNone(seats);
    assert rosters[..0] == [];
    for k := 0 to |rosters|
      invariant assignments == Assignments(names, seats, rosters[..k])
      invariant enrollments == Enrolled(seats, rosters[..k])
    {
      ghost var step := rosters[..k + 1];
      assert step == rosters[..k] + [rosters[k]];
      assignments, enrollments := EnrollRoster(names, seats, rosters[..k], rosters[k], assignments, enrollments);
      assert assignments == Assignments(names, seats, step);
      assert enrollments == Enrolled(seats, step);
    }
    assert rosters[..|rosters|] == rosters;
  }

  /** The inner loop of the result: the occupants of school `|done|`, in roster
      order, are each assigned that school and appended to its list. */
  method EnrollRoster(names: seq<string>, seats: seq<Seat>, done: seq<seq<Entry>>, roster: seq<Entry>,
                      assignments0: map<string, Option<string>>, enrollments0: map<string, seq<string>>)
    returns (assignments: map<string, Option<string>>, enrollments: map<string, seq<string>>)
    requires |done| < |seats| && Distinct(SeatNames(seats))
    requires assignments0 == Assignments(names, seats, done)
    requires enrollments0 == Enrolled(seats, done)
    ensures assignments == Assignments(names, seats, done + [roster])
    ensures enrollments == Enrolled(seats, done + [roster])
  {
    var school := seats[|done|].name;
    assignments, enrollments := assignments0, enrollments0;
    AssignmentsEmptyLast(names, seats, done);
    EnrolledEmptyLast(seats, done);
    assert roster[..0] == [];
    for p := 0 to |roster|
      invariant assignments == Assignments(names, seats, done + [roster[..p]])
      invariant enrollments == Enrolled(seats, done + [roster[..p]])
    {
      var studentName := roster[p].name;
      ghost var step := done + [roster[..p + 1]];
      assert step == done + [roster[..p] + [roster[p]]] by {
        assert roster[..p + 1] == roster[..p] + [roster[p]];
      }
      AssignmentsAppend(names, seats, done, roster[..p], roster[p]);
      EnrolledAppend(seats, done, roster[..p], roster[p]);
      assignments := assignments[studentName := Some(school)];
      enrollments := enrollments[school := enrollments[school] + [studentName]];
      assert assignments == Assignments(names, seats, step);
      assert enrollments == Enrolled(seats, step);
    }
    assert roster[..|roster|] == roster;
  }

  /** Distinct school names: only school `k` is called `seats[k].name`. */
  lemma {:induction false} DistinctNamesAt(seats: seq<Seat>, k: nat)
    requires Distinct(SeatNames(seats)) && k < |seats|
    ensures forall k2 :: 0 <= k2 < |seats| && k2 != k ==> seats[k2].name != seats[k].name
  {
    forall k2 | 0 <= k2 < |seats| && k2 != k ensures seats[k2].name != seats[k].name {
      assert SeatNames(seats)[k2] != SeatNames(seats)[k];
    }
  }
}
