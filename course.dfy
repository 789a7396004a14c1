/** Teacher-to-course allocation (`teacher_course_matching` in utils/course.py).

    Both tables are keyed by name, so they are modelled as sequences of objects with
    distinct names, in the tables' insertion order.

    The allocation runs in two phases:
    - A greedy phase. Teachers, taken in ascending order of how many courses they are
      willing to teach, split each preferred course's class count with the course.
    - A repair phase. Each course left with no teacher at all takes one class over from a
      teacher who lists it, out of one of that teacher's other allocations.

    The two result tables, `teacher_assignments` and `course_assignments`, are built from
    the courses' lists between the phases, and the repair phase updates them alongside the
    courses. */
module Courses {

  import opened Base

  /** One entry of a course's `assigned_teachers` list and of `course_assignments`:
      `(teacher_name, lang, num_classes)`. */
  datatype Allot = Allot(teacher: string, lang: string, classes: int)

  /** One entry of a teacher's list in `teacher_assignments`: `(course_name, lang, num_classes)`. */
  datatype Duty = Duty(course: string, lang: string, classes: int)

  class Teacher {
    const name: string
    const lang: string
    const requiredClasses: int
    const preferredCourses: seq<string>
    var assignedClasses: int

    constructor (name: string, lang: string, requiredClasses: int, preferredCourses: seq<string>)
      ensures this.name == name && this.lang == lang && this.requiredClasses == requiredClasses
      ensures this.preferredCourses == preferredCourses && assignedClasses == 0
    {
      this.name := name;
      this.lang := lang;
      this.requiredClasses := requiredClasses;
      this.preferredCourses := preferredCourses;
      assignedClasses := 0;
    }
  }

  class Course {
    const name: string
    var requiredClasses: int
    var assignedTeachers: seq<Allot>

    constructor (name: string, requiredClasses: int)
      ensures this.name == name && this.requiredClasses == requiredClasses && assignedTeachers == []
    {
      this.name := name;
      this.requiredClasses := requiredClasses;
      assignedTeachers := [];
    }
  }

  // ---------------------------------------------------------------------------
  // The processing order: `sorted(teachers.values(), key=len(preferred_courses))`.

  /** How many courses a teacher is willing to teach. */
  function Width(t: Teacher): nat
  {
    |t.preferredCourses|
  }

  predicate Ascending(s: seq<Teacher>)
  {
    forall i, j :: 0 <= i < j < |s| ==> Width(s[i]) <= Width(s[j])
  }

  /** Places `t` after every leading teacher whose width is at most `Width(t)`. */
  function Place(s: seq<Teacher>, t: Teacher): (r: seq<Teacher>)
    ensures |r| == |s| + 1 && multiset(r) == multiset(s) + multiset{t}
  {
    if s == [] then [t]
    else
      assert s == [s[0]] + s[1..];
      if Width(s[0]) <= Width(t) then [s[0]] + Place(s[1..], t)
      else [t] + s
  }

  /** A lower bound on the widths of `s` and of `t` bounds the widths of `Place(s, t)`. */
  lemma {:induction false} PlaceAbove(s: seq<Teacher>, t: Teacher, w: nat)
    requires w <= Width(t) && forall i :: 0 <= i < |s| ==> w <= Width(s[i])
    ensures forall i :: 0 <= i < |s| + 1 ==> w <= Width(Place(s, t)[i])
  {
    if s != [] && Width(s[0]) <= Width(t) {
      PlaceAbove(s[1..], t, w);
      assert forall i :: 1 <= i < |s| + 1 ==> Place(s, t)[i] == Place(s[1..], t)[i - 1];
    }
  }

  lemma {:induction false} PlaceAscending(s: seq<Teacher>, t: Teacher)
    requires Ascending(s)
    ensures Ascending(Place(s, t))
  {
    if s != [] && Width(s[0]) <= Width(t) {
      var rest := s[1..];
      assert Ascending(rest) by {
        forall i, j | 0 <= i < j < |rest| ensures Width(rest[i]) <= Width(rest[j]) {
          assert rest[i] == s[i + 1] && rest[j] == s[j + 1];
        }
      }
      PlaceAscending(rest, t);
      var p := Place(rest, t);
      assert forall i :: 0 <= i < |rest| ==> Width(s[0]) <= Width(rest[i]) by {
        forall i | 0 <= i < |rest| ensures Width(s[0]) <= Width(rest[i]) {
          assert rest[i] == s[i + 1];
        }
      }
      PlaceAbove(rest, t, Width(s[0]));
      var r := [s[0]] + p;
      forall i, j | 0 <= i < j < |r| ensures Width(r[i]) <= Width(r[j]) {
        assert r[j] == p[j - 1];
        if i > 0 {
          assert r[i] == p[i - 1];
        }
      }
    }
  }

  /** The stable ascending sort by width: insertion sort, each later teacher going behind
      the earlier ones of the same width. */
  function ByWidth(s: seq<Teacher>): (r: seq<Teacher>)
    ensures |r| == |s| && multiset(r) == multiset(s) && Ascending(r)
  {
    if s == [] then []
    else
      assert s == s[..|s| - 1] + [s[|s| - 1]];
      var t := ByWidth(s[..|s| - 1]);
      PlaceAscending(t, s[|s| - 1]);
      Place(t, s[|s| - 1])
  }

  /** The teachers of width `v`, in order. */
  function WithWidth(s: seq<Teacher>, v: nat): seq<Teacher>
  {
    if s == [] then [] else (if Width(s[0]) == v then [s[0]] else []) + WithWidth(s[1..], v)
  }

  lemma {:induction false} WithWidthAppend(a: seq<Teacher>, b: seq<Teacher>, v: nat)
    ensures WithWidth(a + b, v) == WithWidth(a, v) + WithWidth(b, v)
  {
    if a != [] {
      assert (a + b)[1..] == a[1..] + b;
      WithWidthAppend(a[1..], b, v);
    } else {
      assert a + b == b;
    }
  }

  lemma {:induction false} WithWidthNone(s: seq<Teacher>, v: nat)
    requires forall i :: 0 <= i < |s| ==> Width(s[i]) != v
    ensures WithWidth(s, v) == []
  {
    if s != [] {
      WithWidthNone(s[1..], v);
    }
  }

  lemma {:induction false} WithWidthCons(x: Teacher, s: seq<Teacher>, v: nat)
    ensures WithWidth([x] + s, v) == (if Width(x) == v then [x] else []) + WithWidth(s, v)
  {
    assert ([x] + s)[1..] == s;
  }

  lemma {:induction false} WithWidthPlace(s: seq<Teacher>, t: Teacher, v: nat)
    requires Ascending(s)
    ensures WithWidth(Place(s, t), v) == WithWidth(s, v) + (if Width(t) == v then [t] else [])
  {
    if s == [] {
    } else if Width(s[0]) <= Width(t) {
      var rest := s[1..];
      assert Ascending(rest) by {
        forall i, j | 0 <= i < j < |rest| ensures Width(rest[i]) <= Width(rest[j]) {
          assert rest[i] == s[i + 1] && rest[j] == s[j + 1];
        }
      }
      WithWidthPlace(rest, t, v);
      WithWidthCons(s[0], Place(rest, t), v);
      assert s == [s[0]] + rest;
      WithWidthCons(s[0], rest, v);
    } else {
      if Width(t) == v {
        forall i | 0 <= i < |s| ensures Width(s[i]) != v {
          assert Width(s[0]) <= Width(s[i]);
        }
        WithWidthNone(s, v);
      }
      WithWidthCons(t, s, v);
    }
  }

  /** Stability: teachers of equal width keep their input order. */
  lemma {:induction false} ByWidthStable(s: seq<Teacher>, v: nat)
    ensures WithWidth(ByWidth(s), v) == WithWidth(s, v)
  {
    if s != [] {
      var init, last := s[..|s| - 1], s[|s| - 1];
      var t := ByWidth(init);
      var tail := if Width(last) == v then [last] else [];
      assert s == init + [last];
      calc {
        WithWidth(ByWidth(s), v);
        WithWidth(Place(t, last), v);
        { WithWidthPlace(t, last, v); }
        WithWidth(t, v) + tail;
        { ByWidthStable(init, v); }
        WithWidth(init, v) + tail;
        { assert WithWidth([last], v) == tail; }
        WithWidth(init, v) + WithWidth([last], v);
        { WithWidthAppend(init, [last], v); }
        WithWidth(s, v);
      }
    }
  }

  // ---------------------------------------------------------------------------
  // Class counts over the allocation lists.

  /** The classes a list of allocations hands out. */
  function Total(s: seq<Allot>): int
  {
    if s == [] then 0 else Total(s[..|s| - 1]) + s[|s| - 1].classes
  }

  /** The classes a list of allocations hands to the teacher called `name`. */
  function Given(s: seq<Allot>, name: string): int
  {
    if s == [] then 0
    else Given(s[..|s| - 1], name) + (if s[|s| - 1].teacher == name then s[|s| - 1].classes else 0)
  }

  /** The classes the teacher called `name` holds over all courses' lists. */
  function Load(lists: seq<seq<Allot>>, name: string): int
  {
    if lists == [] then 0 else Load(lists[..|lists| - 1], name) + Given(lists[|lists| - 1], name)
  }

  /** What `teacher_assignments[name]` holds once built from the courses' lists: the
      teacher's allocations on course `names[k]`, course after course. */
  function DutiesIn(course: string, s: seq<Allot>, name: string): seq<Duty>
  {
    if s == [] then []
    else
      var a := s[|s| - 1];
      DutiesIn(course, s[..|s| - 1], name) + (if a.teacher == name then [Duty(course, a.lang, a.classes)] else [])
  }

  function Duties(names: seq<string>, lists: seq<seq<Allot>>, name: string): seq<Duty>
    requires |names| == |lists|
  {
    if lists == [] then []
    else
      var m := |lists| - 1;
      Duties(names[..m], lists[..m], name) + DutiesIn(names[m], lists[m], name)
  }

  lemma {:induction false} RemoveFirstCounts(s: seq<Allot>, a: Allot, name: string)
    requires a in s
    ensures Total(RemoveFirst(s, a)) + a.classes == Total(s)
    ensures Given(RemoveFirst(s, a), name) + (if a.teacher == name then a.classes else 0) == Given(s, name)
  {
    var r := RemoveFirst(s, a);
    if s[0] == a {
      FrontCounts(s, name);
    } else {
      RemoveFirstCounts(s[1..], a, name);
      FrontCounts(s, name);
      FrontCounts(r, name);
      assert r[0] == s[0] && r[1..] == RemoveFirst(s[1..], a);
    }
  }

  /** `Total` and `Given`, peeled from the front. */
  lemma {:induction false} FrontCounts(s: seq<Allot>, name: string)
    requires s != []
    ensures Total(s) == s[0].classes + Total(s[1..])
    ensures Given(s, name) == (if s[0].teacher == name then s[0].classes else 0) + Given(s[1..], name)
  {
    if |s| > 1 {
      var init := s[..|s| - 1];
      FrontCounts(init, name);
      assert init[1..] == s[1..][..|s[1..]| - 1];
    }
  }

  lemma {:induction false} RemoveFirstDuties(course: string, s: seq<Allot>, a: Allot, name: string)
    requires a in s
    ensures multiset(DutiesIn(course, RemoveFirst(s, a), name))
            + (if a.teacher == name then multiset{Duty(course, a.lang, a.classes)} else multiset{})
            == multiset(DutiesIn(course, s, name))
  {
    var r := RemoveFirst(s, a);
    var head := if s[0].teacher == name then [Duty(course, s[0].lang, s[0].classes)] else [];
    var extra := if a.teacher == name then multiset{Duty(course, a.lang, a.classes)} else multiset{};
    assert multiset(DutiesIn(course, s, name)) == multiset(head) + multiset(DutiesIn(course, s[1..], name)) by {
      FrontDuties(course, s, name);
    }
    if s[0] != a {
      var rest := RemoveFirst(s[1..], a);
      assert multiset(DutiesIn(course, r, name)) == multiset(head) + multiset(DutiesIn(course, rest, name)) by {
        FrontDuties(course, r, name);
        assert r[0] == s[0] && r[1..] == rest;
      }
      RemoveFirstDuties(course, s[1..], a, name);
      Regroup(multiset(DutiesIn(course, r, name)), multiset(head), multiset(DutiesIn(course, rest, name)),
              extra, multiset(DutiesIn(course, s[1..], name)));
    }
  }

  /** `DutiesIn`, peeled from the front. */
  lemma {:induction false} FrontDuties(course: string, s: seq<Allot>, name: string)
    requires s != []
    ensures DutiesIn(course, s, name)
            == (if s[0].teacher == name then [Duty(course, s[0].lang, s[0].classes)] else [])
               + DutiesIn(course, s[1..], name)
  {
    if |s| > 1 {
      var init := s[..|s| - 1];
      FrontDuties(course, init, name);
      assert init[1..] == s[1..][..|s[1..]| - 1];
    }
  }

  /** Replacing one course's list changes a teacher's load by the difference of what the
      two lists give that teacher. */
  lemma {:induction false} LoadUpdate(lists: seq<seq<Allot>>, k: nat, x: seq<Allot>, name: string)
    requires k < |lists|
    ensures Load(lists[k := x], name) + Given(lists[k], name) == Load(lists, name) + Given(x, name)
  {
    var m := |lists| - 1;
    assert lists[k := x][..m] == if k == m then lists[..m] else lists[..m][k := x];
    if k < m {
      LoadUpdate(lists[..m], k, x, name);
    }
  }

  /** Replacing one course's list changes a teacher's duties by the difference of what the
      two lists give that teacher on that course. */
  lemma {:induction false} DutiesUpdate(names: seq<string>, lists: seq<seq<Allot>>, k: nat, x: seq<Allot>, name: string)
    requires |names| == |lists| && k < |lists|
    ensures multiset(Duties(names, lists[k := x], name)) + multiset(DutiesIn(names[k], lists[k], name))
            == multiset(Duties(names, lists, name)) + multiset(DutiesIn(names[k], x, name))
  {
    var m := |lists| - 1;
    var after := lists[k := x];
    DutiesLast(names, lists, name);
    DutiesLast(names, after, name);
    if k < m {
      assert after[..m] == lists[..m][k := x] && after[m] == lists[m];
      DutiesUpdate(names[..m], lists[..m], k, x, name);
      assert names[..m][k] == names[k] && lists[..m][k] == lists[k];
      MultisetShuffle(multiset(Duties(names[..m], after[..m], name)), multiset(DutiesIn(names[k], lists[k], name)),
                      multiset(Duties(names[..m], lists[..m], name)), multiset(DutiesIn(names[k], x, name)),
                      multiset(DutiesIn(names[m], lists[m], name)));
    } else {
      assert after[..m] == lists[..m] && after[m] == x;
    }
  }

  /** `Duties`, peeled from the back, as multisets. */
  lemma DutiesLast(names: seq<string>, lists: seq<seq<Allot>>, name: string)
    requires |names| == |lists| && lists != []
    ensures var m := |lists| - 1;
            multiset(Duties(names, lists, name))
            == multiset(Duties(names[..m], lists[..m], name)) + multiset(DutiesIn(names[m], lists[m], name))
  {
  }

  lemma {:induction false} Regroup(x: multiset<Duty>, h: multiset<Duty>, y: multiset<Duty>, e: multiset<Duty>, z: multiset<Duty>)
    requires x == h + y && y + e == z
    ensures x + e == h + z
  {
    assert forall d :: (x + e)[d] == h[d] + (y + e)[d];
  }

  lemma {:induction false} MultisetShuffle(changed: multiset<Duty>, was: multiset<Duty>, before: multiset<Duty>, now: multiset<Duty>, last: multiset<Duty>)
    requires changed + was == before + now
    ensures (changed + last) + was == (before + last) + now
  {
    assert forall y :: ((changed + last) + was)[y] == (changed + was)[y] + last[y];
  }

  /** Every duty of a teacher comes from an allocation of that teacher on the course it names. */
  lemma {:induction false} DutySource(names: seq<string>, lists: seq<seq<Allot>>, name: string, x: Duty)
    returns (k: nat)
    requires |names| == |lists| && x in multiset(Duties(names, lists, name))
    ensures k < |lists| && names[k] == x.course && Allot(name, x.lang, x.classes) in lists[k]
  {
    var m := |lists| - 1;
    if x in multiset(DutiesIn(names[m], lists[m], name)) {
      k := m;
      DutyInSource(names[m], lists[m], name, x);
    } else {
      k := DutySource(names[..m], lists[..m], name, x);
    }
  }

  lemma {:induction false} DutyInSource(course: string, s: seq<Allot>, name: string, x: Duty)
    requires x in multiset(DutiesIn(course, s, name))
    ensures course == x.course && Allot(name, x.lang, x.classes) in s
  {
    var a := s[|s| - 1];
    if !(x in multiset(DutiesIn(course, s[..|s| - 1], name))) {
      assert a.teacher == name && x == Duty(course, a.lang, a.classes);
      assert a == s[|s| - 1];
    } else {
      DutyInSource(course, s[..|s| - 1], name, x);
    }
  }

  // ---------------------------------------------------------------------------
  // The objects' state, read into values.

  function CourseNames(courses: seq<Course>): (names: seq<string>)
    ensures |names| == |courses| && forall k :: 0 <= k < |courses| ==> names[k] == courses[k].name
  {
    seq(|courses|, k requires 0 <= k < |courses| => courses[k].name)
  }

  function TeacherNames(order: seq<Teacher>): (names: seq<string>)
    ensures |names| == |order| && forall i :: 0 <= i < |order| ==> names[i] == order[i].name
  {
    seq(|order|, i requires 0 <= i < |order| => order[i].name)
  }

  /** The courses' `assigned_teachers` lists. */
  function Lists(courses: seq<Course>): (lists: seq<seq<Allot>>)
    reads courses
    ensures |lists| == |courses| && forall k :: 0 <= k < |courses| ==> lists[k] == courses[k].assignedTeachers
  {
    seq(|courses|, k requires 0 <= k < |courses| reads courses => courses[k].assignedTeachers)
  }

  /** The courses' remaining `required_classes`. */
  function Needs(courses: seq<Course>): (needs: seq<int>)
    reads courses
    ensures |needs| == |courses| && forall k :: 0 <= k < |courses| ==> needs[k] == courses[k].requiredClasses
  {
    seq(|courses|, k requires 0 <= k < |courses| reads courses => courses[k].requiredClasses)
  }

  /** The teachers' `assigned_classes`. */
  function Loads(order: seq<Teacher>): (loads: seq<int>)
    reads order
    ensures |loads| == |order| && forall i :: 0 <= i < |order| ==> loads[i] == order[i].assignedClasses
  {
    seq(|order|, i requires 0 <= i < |order| reads order => order[i].assignedClasses)
  }

  // ---------------------------------------------------------------------------
  // The bookkeeping both phases keep.

  /** Each course's initial requirement is what remains plus what its list hands out. */
  ghost predicate Conserved(init: seq<int>, needs: seq<int>, lists: seq<seq<Allot>>)
  {
    |needs| == |init| && |lists| == |init|
    && forall k :: 0 <= k < |init| ==> needs[k] + Total(lists[k]) == init[k]
  }

  /** Every recorded allocation is of at least one class. */
  ghost predicate Positive(lists: seq<seq<Allot>>)
  {
    forall k, j :: 0 <= k < |lists| && 0 <= j < |lists[k]| ==> lists[k][j].classes >= 1
  }

  /** `a` was recorded on `course` for a teacher who lists that course, in that teacher's language. */
  ghost predicate SignedBy(order: seq<Teacher>, course: string, a: Allot)
  {
    exists i :: 0 <= i < |order| && order[i].name == a.teacher && order[i].lang == a.lang
                && course in order[i].preferredCourses
  }

  ghost predicate Signed(order: seq<Teacher>, names: seq<string>, lists: seq<seq<Allot>>)
  {
    |lists| == |names|
    && forall k, j :: 0 <= k < |lists| && 0 <= j < |lists[k]| ==> SignedBy(order, names[k], lists[k][j])
  }

  /** Each teacher's `assigned_classes` is the sum of that teacher's allocations. */
  ghost predicate Loaded(order: seq<Teacher>, loads: seq<int>, lists: seq<seq<Allot>>)
  {
    |loads| == |order| && forall i :: 0 <= i < |order| ==> loads[i] == Load(lists, order[i].name)
  }

  ghost predicate Books(order: seq<Teacher>, names: seq<string>, init: seq<int>, needs: seq<int>,
                        lists: seq<seq<Allot>>, loads: seq<int>)
  {
    Conserved(init, needs, lists) && Positive(lists) && Signed(order, names, lists) && Loaded(order, loads, lists)
  }

  /** A teacher's `assigned_classes` never passes its `required_classes` (a teacher who
      needs nothing gets nothing). */
  ghost predicate Within(order: seq<Teacher>, loads: seq<int>)
  {
    |loads| == |order| && forall i :: 0 <= i < |order| ==> 0 <= loads[i] && (loads[i] == 0 || loads[i] <= order[i].requiredClasses)
  }

  /** A course's remaining requirement never goes negative, unless it started negative
      and was never touched. */
  ghost predicate Floor(init: seq<int>, needs: seq<int>)
  {
    |needs| == |init| && forall k :: 0 <= k < |init| ==> needs[k] >= 0 || needs[k] == init[k]
  }

  /** What the greedy phase keeps after every allocation. */
  ghost predicate Greedy(order: seq<Teacher>, names: seq<string>, init: seq<int>, needs: seq<int>,
                         lists: seq<seq<Allot>>, loads: seq<int>)
  {
    Books(order, names, init, needs, lists, loads) && Within(order, loads) && Floor(init, needs)
  }

  lemma {:induction false} LoadEmpty(lists: seq<seq<Allot>>, name: string)
    requires forall k :: 0 <= k < |lists| ==> lists[k] == []
    ensures Load(lists, name) == 0
  {
    if lists != [] {
      LoadEmpty(lists[..|lists| - 1], name);
    }
  }

  /** Before the first allocation the books balance. */
  lemma {:induction false} Opening(order: seq<Teacher>, names: seq<string>, init: seq<int>, loads: seq<int>, lists: seq<seq<Allot>>)
    requires |lists| == |names| == |init| && |loads| == |order|
    requires forall k :: 0 <= k < |lists| ==> lists[k] == []
    requires forall i :: 0 <= i < |order| ==> loads[i] == 0
    ensures Greedy(order, names, init, init, lists, loads)
  {
    forall i | 0 <= i < |order| ensures loads[i] == Load(lists, order[i].name) {
      LoadEmpty(lists, order[i].name);
    }
  }

  /** One allocation of the greedy phase: teacher `i` takes `n` classes of course `k`,
      `n` being the smaller of what the teacher still needs and what the course still needs. */
  lemma {:induction false} GrantKeeps(order: seq<Teacher>, names: seq<string>, init: seq<int>, needs: seq<int>,
                   lists: seq<seq<Allot>>, loads: seq<int>, i: nat, k: nat, n: int)
    requires Greedy(order, names, init, needs, lists, loads)
    requires Distinct(TeacherNames(order))
    requires i < |order| && k < |names| && names[k] in order[i].preferredCourses
    requires loads[i] < order[i].requiredClasses && needs[k] > 0
    requires n == if order[i].requiredClasses - loads[i] <= needs[k] then order[i].requiredClasses - loads[i] else needs[k]
    ensures n >= 1
    ensures var a := Allot(order[i].name, order[i].lang, n);
            var lists' := lists[k := lists[k] + [a]];
            var needs' := needs[k := needs[k] - n];
            var loads' := loads[i := loads[i] + n];
            Greedy(order, names, init, needs', lists', loads')
  {
    GrantBooks(order, names, init, needs, lists, loads, i, k, n);
  }

  /** The allocation keeps the books: the course's total rises by what its requirement
      falls, and the new entry is positive and signed. */
  lemma {:induction false} GrantBooks(order: seq<Teacher>, names: seq<string>, init: seq<int>, needs: seq<int>,
                   lists: seq<seq<Allot>>, loads: seq<int>, i: nat, k: nat, n: int)
    requires Books(order, names, init, needs, lists, loads) && Distinct(TeacherNames(order))
    requires i < |order| && k < |names| && names[k] in order[i].preferredCourses && n >= 1
    ensures Books(order, names, init, needs[k := needs[k] - n],
                  lists[k := lists[k] + [Allot(order[i].name, order[i].lang, n)]], loads[i := loads[i] + n])
  {
    var a := Allot(order[i].name, order[i].lang, n);
    GrantConserved(init, needs, lists, k, a);
    assert SignedBy(order, names[k], a);
    GrantSigned(order, names, lists, k, a);
    GrantLoaded(order, lists, loads, i, k, n);
  }

  lemma {:induction false} GrantConserved(init: seq<int>, needs: seq<int>, lists: seq<seq<Allot>>, k: nat, a: Allot)
    requires Conserved(init, needs, lists) && k < |lists|
    ensures Conserved(init, needs[k := needs[k] - a.classes], lists[k := lists[k] + [a]])
  {
    var lists' := lists[k := lists[k] + [a]];
    assert lists[k] + [a] == lists'[k];
    assert (lists[k] + [a])[..|lists[k]|] == lists[k];
    assert Total(lists'[k]) == Total(lists[k]) + a.classes;
  }

  lemma {:induction false} GrantSigned(order: seq<Teacher>, names: seq<string>, lists: seq<seq<Allot>>, k: nat, a: Allot)
    requires Positive(lists) && Signed(order, names, lists) && k < |lists|
    requires a.classes >= 1 && SignedBy(order, names[k], a)
    ensures Positive(lists[k := lists[k] + [a]]) && Signed(order, names, lists[k := lists[k] + [a]])
  {
  }

  /** The allocation raises the count of teacher `i` alone, by the classes it hands out. */
  lemma {:induction false} GrantLoaded(order: seq<Teacher>, lists: seq<seq<Allot>>, loads: seq<int>, i: nat, k: nat, n: int)
    requires Distinct(TeacherNames(order)) && Loaded(order, loads, lists) && i < |order| && k < |lists|
    ensures Loaded(order, loads[i := loads[i] + n], lists[k := lists[k] + [Allot(order[i].name, order[i].lang, n)]])
  {
    var a := Allot(order[i].name, order[i].lang, n);
    var lists' := lists[k := lists[k] + [a]];
    var loads' := loads[i := loads[i] + n];
    forall i' | 0 <= i' < |order| ensures loads'[i'] == Load(lists', order[i'].name) {
      LoadUpdate(lists, k, lists[k] + [a], order[i'].name);
      assert Given(lists[k] + [a], order[i'].name)
             == Given(lists[k], order[i'].name) + (if a.teacher == order[i'].name then n else 0);
      if i' != i {
        assert TeacherNames(order)[i'] != TeacherNames(order)[i];
      }
    }
  }

  // ---------------------------------------------------------------------------
  // The greedy phase (utils/course.py, lines 25-38), as values.

  /** What the greedy phase changes: the courses' remaining requirements and lists, and the
      teachers' counts. */
  datatype Tally = Tally(needs: seq<int>, lists: seq<seq<Allot>>, loads: seq<int>)

  /** Before the greedy phase: every requirement as given, no list entries, no classes counted. */
  function Start(init: seq<int>, n: nat): (r: Tally)
    ensures |r.needs| == |r.lists| == |init| && |r.loads| == n
  {
    Tally(init, seq(|init|, k => []), seq(n, i => 0))
  }

  /** Lines 31-34: the classes teacher `i` takes of course `k`, the smaller of what is left
      of each. */
  function Share(order: seq<Teacher>, s: Tally, i: nat, k: nat): int
    requires i < |order| == |s.loads| && k < |s.needs|
  {
    if order[i].requiredClasses - s.loads[i] <= s.needs[k] then order[i].requiredClasses - s.loads[i] else s.needs[k]
  }

  /** Lines 35-37: teacher `i` takes its share of course `k`. */
  function Granted(order: seq<Teacher>, s: Tally, i: nat, k: nat): (r: Tally)
    requires i < |order| == |s.loads| && k < |s.needs| == |s.lists|
    ensures |r.needs| == |s.needs| && |r.lists| == |s.lists| && |r.loads| == |s.loads|
  {
    Tally(s.needs[k := s.needs[k] - Share(order, s, i, k)],
          s.lists[k := s.lists[k] + [Allot(order[i].name, order[i].lang, Share(order, s, i, k))]],
          s.loads[i := s.loads[i] + Share(order, s, i, k)])
  }

  /** The share written out. */
  lemma GrantedIs(order: seq<Teacher>, s: Tally, i: nat, k: nat, n: int)
    requires i < |order| == |s.loads| && k < |s.needs| == |s.lists|
    requires n == if order[i].requiredClasses - s.loads[i] <= s.needs[k] then order[i].requiredClasses - s.loads[i] else s.needs[k]
    ensures Granted(order, s, i, k)
         == Tally(s.needs[k := s.needs[k] - n], s.lists[k := s.lists[k] + [Allot(order[i].name, order[i].lang, n)]], s.loads[i := s.loads[i] + n])
  {
  }

  /** Lines 28-37: teacher `i` goes on from its `p`-th preferred course, stopping once its
      requirement is met; a course missing from the table or needing no more classes is
      passed over. */
  function Turn(order: seq<Teacher>, names: seq<string>, s: Tally, i: nat, p: nat): (r: Tally)
    requires i < |order| == |s.loads| && |s.needs| == |names| == |s.lists| && p <= |order[i].preferredCourses|
    ensures |r.needs| == |names| && |r.lists| == |names| && |r.loads| == |order|
    decreases |order[i].preferredCourses| - p
  {
    if p == |order[i].preferredCourses| || s.loads[i] >= order[i].requiredClasses then s
    else match IndexOf(names, order[i].preferredCourses[p])
      case None => Turn(order, names, s, i, p + 1)
      case Some(k) =>
        if s.needs[k] > 0 then Turn(order, names, Granted(order, s, i, k), i, p + 1)
        else Turn(order, names, s, i, p + 1)
  }

  /** A turn at a course with classes left goes on from the allocation. */
  lemma TurnGrant(order: seq<Teacher>, names: seq<string>, s: Tally, i: nat, p: nat, k: nat)
    requires i < |order| == |s.loads| && |s.needs| == |names| == |s.lists| && p < |order[i].preferredCourses|
    requires s.loads[i] < order[i].requiredClasses
    requires IndexOf(names, order[i].preferredCourses[p]) == Some(k) && s.needs[k] > 0
    ensures Turn(order, names, s, i, p) == Turn(order, names, Granted(order, s, i, k), i, p + 1)
  {
  }

  /** A turn at a course missing from the table or with nothing left passes it over. */
  lemma TurnPass(order: seq<Teacher>, names: seq<string>, s: Tally, i: nat, p: nat)
    requires i < |order| == |s.loads| && |s.needs| == |names| == |s.lists| && p < |order[i].preferredCourses|
    requires s.loads[i] < order[i].requiredClasses
    requires IndexOf(names, order[i].preferredCourses[p]).None? || s.needs[IndexOf(names, order[i].preferredCourses[p]).value] <= 0
    ensures Turn(order, names, s, i, p) == Turn(order, names, s, i, p + 1)
  {
  }

  /** Lines 27-37: the teachers from the `i`-th, in processing order. */
  function Sweep(order: seq<Teacher>, names: seq<string>, s: Tally, i: nat): (r: Tally)
    requires |s.loads| == |order| && |s.needs| == |names| == |s.lists| && i <= |order|
    ensures |r.needs| == |names| && |r.lists| == |names| && |r.loads| == |order|
    decreases |order| - i
  {
    if i == |order| then s else Sweep(order, names, Turn(order, names, s, i, 0), i + 1)
  }

  /** Course `c` has nothing left to hand out, or is not in the table. */
  predicate Spent(names: seq<string>, needs: seq<int>, c: string)
    requires |needs| == |names|
  {
    match IndexOf(names, c)
    case None => true
    case Some(k) => needs[k] <= 0
  }

  /** What the greedy phase promises teacher `i`: it has its required classes, or none of
      the courses it is willing to teach has any left. */
  predicate Sated(order: seq<Teacher>, names: seq<string>, s: Tally, i: nat)
    requires i < |order| == |s.loads| && |s.needs| == |names|
  {
    s.loads[i] >= order[i].requiredClasses || forall c :: c in order[i].preferredCourses ==> Spent(names, s.needs, c)
  }

  /** A turn only lowers requirements, and touches no other teacher's count. */
  lemma {:induction false} TurnShrinks(order: seq<Teacher>, names: seq<string>, s: Tally, i: nat, p: nat)
    requires i < |order| == |s.loads| && |s.needs| == |names| == |s.lists| && p <= |order[i].preferredCourses|
    ensures var r := Turn(order, names, s, i, p);
            && (forall k :: 0 <= k < |names| ==> r.needs[k] <= s.needs[k])
            && (forall j :: 0 <= j < |order| && j != i ==> r.loads[j] == s.loads[j])
    decreases |order[i].preferredCourses| - p
  {
    if p == |order[i].preferredCourses| || s.loads[i] >= order[i].requiredClasses {
    } else {
      match IndexOf(names, order[i].preferredCourses[p])
      case None =>
        TurnShrinks(order, names, s, i, p + 1);
      case Some(k) =>
        if s.needs[k] > 0 {
          var g := Granted(order, s, i, k);
          assert Share(order, s, i, k) >= 1;
          assert Turn(order, names, s, i, p) == Turn(order, names, g, i, p + 1);
          assert forall k' :: 0 <= k' < |names| ==> g.needs[k'] <= s.needs[k'];
          assert forall j :: 0 <= j < |order| && j != i ==> g.loads[j] == s.loads[j];
          TurnShrinks(order, names, g, i, p + 1);
        } else {
          TurnShrinks(order, names, s, i, p + 1);
        }
    }
  }

  /** A spent course stays spent while requirements only fall. */
  lemma SpentStays(names: seq<string>, needs: seq<int>, needs': seq<int>, c: string)
    requires |needs| == |names| == |needs'| && Spent(names, needs, c)
    requires forall k :: 0 <= k < |names| ==> needs'[k] <= needs[k]
    ensures Spent(names, needs', c)
  {
  }

  /** After teacher `i`'s turn from its `p`-th preferred course, it has its required classes
      or every course from the `p`-th on is spent. */
  lemma {:induction false} TurnSated(order: seq<Teacher>, names: seq<string>, s: Tally, i: nat, p: nat)
    requires i < |order| == |s.loads| && |s.needs| == |names| == |s.lists| && p <= |order[i].preferredCourses|
    ensures var r := Turn(order, names, s, i, p);
            || r.loads[i] >= order[i].requiredClasses
            || forall q :: p <= q < |order[i].preferredCourses| ==> Spent(names, r.needs, order[i].preferredCourses[q])
    decreases |order[i].preferredCourses| - p, 1
  {
    var prefs := order[i].preferredCourses;
    if p == |prefs| || s.loads[i] >= order[i].requiredClasses {
    } else {
      var r := Turn(order, names, s, i, p);
      match IndexOf(names, prefs[p])
      case None =>
        TurnSated(order, names, s, i, p + 1);
        assert Spent(names, r.needs, prefs[p]);
      case Some(k) =>
        if s.needs[k] > 0 {
          GrantSated(order, names, s, i, p, k);
        } else {
          TurnShrinks(order, names, s, i, p + 1);
          TurnSated(order, names, s, i, p + 1);
          assert Spent(names, r.needs, prefs[p]);
        }
    }
  }

  /** `TurnSated` when the `p`-th preferred course is course `k` and has classes left. */
  lemma {:induction false} GrantSated(order: seq<Teacher>, names: seq<string>, s: Tally, i: nat, p: nat, k: nat)
    requires i < |order| == |s.loads| && |s.needs| == |names| == |s.lists| && p < |order[i].preferredCourses|
    requires s.loads[i] < order[i].requiredClasses && IndexOf(names, order[i].preferredCourses[p]) == Some(k)
    requires s.needs[k] > 0
    ensures var r := Turn(order, names, s, i, p);
            || r.loads[i] >= order[i].requiredClasses
            || forall q :: p <= q < |order[i].preferredCourses| ==> Spent(names, r.needs, order[i].preferredCourses[q])
    decreases |order[i].preferredCourses| - p, 0
  {
    var prefs := order[i].preferredCourses;
    var g := Granted(order, s, i, k);
    var r := Turn(order, names, s, i, p);
    assert r == Turn(order, names, g, i, p + 1);
    if g.loads[i] >= order[i].requiredClasses {
      assert r == g;
    } else {
      assert g.needs[k] == 0;
      TurnShrinks(order, names, g, i, p + 1);
      TurnSated(order, names, g, i, p + 1);
      assert Spent(names, r.needs, prefs[p]);
    }
  }

  /** A teacher's whole turn leaves it sated, and keeps every other teacher as sated as it was. */
  lemma {:induction false} TurnKeeps(order: seq<Teacher>, names: seq<string>, s: Tally, i: nat, j: nat)
    requires i < |order| == |s.loads| && |s.needs| == |names| == |s.lists| && j < |order|
    requires j != i ==> Sated(order, names, s, j)
    ensures Sated(order, names, Turn(order, names, s, i, 0), j)
  {
    var r := Turn(order, names, s, i, 0);
    TurnShrinks(order, names, s, i, 0);
    if j == i {
      TurnSated(order, names, s, i, 0);
      if r.loads[i] < order[i].requiredClasses {
        forall c | c in order[i].preferredCourses ensures Spent(names, r.needs, c) {
          var q :| 0 <= q < |order[i].preferredCourses| && order[i].preferredCourses[q] == c;
        }
      }
    } else if s.loads[j] < order[j].requiredClasses {
      forall c | c in order[j].preferredCourses ensures Spent(names, r.needs, c) {
        SpentStays(names, s.needs, r.needs, c);
      }
    }
  }

  /** From the `i`-th teacher on, with every earlier teacher sated, the greedy phase leaves
      every teacher sated. */
  lemma {:induction false} SweepSated(order: seq<Teacher>, names: seq<string>, s: Tally, i: nat)
    requires |s.loads| == |order| && |s.needs| == |names| == |s.lists| && i <= |order|
    requires forall j :: 0 <= j < i ==> Sated(order, names, s, j)
    ensures forall j :: 0 <= j < |order| ==> Sated(order, names, Sweep(order, names, s, i), j)
    decreases |order| - i
  {
    if i < |order| {
      var t := Turn(order, names, s, i, 0);
      forall j | 0 <= j < i + 1 ensures Sated(order, names, t, j) {
        TurnKeeps(order, names, s, i, j);
      }
      SweepSated(order, names, t, i + 1);
    }
  }

  /** The greedy phase from any start leaves every teacher with its required classes, or
      with every course it is willing to teach spent. */
  lemma GreedySated(order: seq<Teacher>, names: seq<string>, s: Tally)
    requires |s.loads| == |order| && |s.needs| == |names| == |s.lists|
    ensures forall j :: 0 <= j < |order| ==> Sated(order, names, Sweep(order, names, s, 0), j)
  {
    SweepSated(order, names, s, 0);
  }

  // ---------------------------------------------------------------------------
  // The objects against the values.

  /** The courses hold the remaining requirements `needs` and the lists `lists`. */
  ghost predicate CoursesHold(courses: seq<Course>, needs: seq<int>, lists: seq<seq<Allot>>)
    reads courses
  {
    |needs| == |courses| && |lists| == |courses|
    && forall k :: 0 <= k < |courses| ==> courses[k].requiredClasses == needs[k] && courses[k].assignedTeachers == lists[k]
  }

  /** The teachers hold the counts `loads`. */
  ghost predicate TeachersHold(order: seq<Teacher>, loads: seq<int>)
    reads order
  {
    |loads| == |order| && forall i :: 0 <= i < |order| ==> order[i].assignedClasses == loads[i]
  }

  /** No object appears twice. */
  predicate Apart(order: seq<Teacher>, courses: seq<Course>)
  {
    && (forall i, j :: 0 <= i < |order| && 0 <= j < |order| && i != j ==> order[i] != order[j])
    && (forall k, l :: 0 <= k < |courses| && 0 <= l < |courses| && k != l ==> courses[k] != courses[l])
  }

  /** Objects with different names are different objects. */
  lemma {:induction false} ApartByName(order: seq<Teacher>, courses: seq<Course>)
    requires Distinct(TeacherNames(order)) && Distinct(CourseNames(courses))
    ensures Apart(order, courses)
  {
    forall i, j | 0 <= i < |order| && 0 <= j < |order| && i != j ensures order[i] != order[j] {
      if i < j {
        assert TeacherNames(order)[i] != TeacherNames(order)[j];
      } else {
        assert TeacherNames(order)[j] != TeacherNames(order)[i];
      }
    }
    forall k, l | 0 <= k < |courses| && 0 <= l < |courses| && k != l ensures courses[k] != courses[l] {
      if k < l {
        assert CourseNames(courses)[k] != CourseNames(courses)[l];
      } else {
        assert CourseNames(courses)[l] != CourseNames(courses)[k];
      }
    }
  }

  /** The objects, read into values. */
  lemma {:induction false} HoldsRead(order: seq<Teacher>, courses: seq<Course>, needs: seq<int>, lists: seq<seq<Allot>>, loads: seq<int>)
    requires CoursesHold(courses, needs, lists) && TeachersHold(order, loads)
    ensures Needs(courses) == needs && Lists(courses) == lists && Loads(order) == loads
  {
  }

  // ---------------------------------------------------------------------------
  // The greedy phase (utils/course.py, lines 25-38).

  /** Course `k` hands classes to teacher `i`: as many as the smaller of the two still needs. */
  method Grant(order: seq<Teacher>, i: nat, courses: seq<Course>, k: nat, ghost init: seq<int>,
               ghost needs: seq<int>, ghost lists: seq<seq<Allot>>, ghost loads: seq<int>)
    returns (ghost needs': seq<int>, ghost lists': seq<seq<Allot>>, ghost loads': seq<int>)
    requires i < |order| && k < |courses| && Apart(order, courses) && Distinct(TeacherNames(order))
    requires Greedy(order, CourseNames(courses), init, needs, lists, loads)
    requires CoursesHold(courses, needs, lists) && TeachersHold(order, loads)
    requires courses[k].name in order[i].preferredCourses
    requires order[i].assignedClasses < order[i].requiredClasses && courses[k].requiredClasses > 0
    modifies order[i], courses[k]
    ensures Tally(needs', lists', loads') == Granted(order, Tally(needs, lists, loads), i, k)
    ensures Greedy(order, CourseNames(courses), init, needs', lists', loads')
    ensures CoursesHold(courses, needs', lists') && TeachersHold(order, loads')
  {
    GrantKeeps(order, CourseNames(courses), init, needs, lists, loads, i, k, Share(order, Tally(needs, lists, loads), i, k));
    GrantedIs(order, Tally(needs, lists, loads), i, k, Share(order, Tally(needs, lists, loads), i, k));
    needs', lists', loads' := Hand(order, i, courses, k, needs, lists, loads);
  }

  /** The objects' side of `Grant`. */
  method Hand(order: seq<Teacher>, i: nat, courses: seq<Course>, k: nat,
              ghost needs: seq<int>, ghost lists: seq<seq<Allot>>, ghost loads: seq<int>)
    returns (ghost needs': seq<int>, ghost lists': seq<seq<Allot>>, ghost loads': seq<int>)
    requires i < |order| && k < |courses| && Apart(order, courses)
    requires CoursesHold(courses, needs, lists) && TeachersHold(order, loads)
    modifies order[i], courses[k]
    ensures Tally(needs', lists', loads') == Granted(order, Tally(needs, lists, loads), i, k)
    ensures CoursesHold(courses, needs', lists') && TeachersHold(order, loads')
  {
    var teacher, course := order[i], courses[k];
    var n := if teacher.requiredClasses - teacher.assignedClasses <= course.requiredClasses
             then teacher.requiredClasses - teacher.assignedClasses else course.requiredClasses;
    var a := Allot(teacher.name, teacher.lang, n);
    needs', lists', loads' := needs[k := needs[k] - n], lists[k := lists[k] + [a]], loads[i := loads[i] + n];
    GrantedIs(order, Tally(needs, lists, loads), i, k, n);
    Book(courses, k, a, needs, lists);
    Count(order, i, n, loads);
  }

  /** The course's side of an allocation: the entry appended to its list and the classes
      taken off its requirement. */
  method Book(courses: seq<Course>, k: nat, a: Allot, ghost needs: seq<int>, ghost lists: seq<seq<Allot>>)
    requires k < |courses| && Apart([], courses) && CoursesHold(courses, needs, lists)
    modifies courses[k]
    ensures CoursesHold(courses, needs[k := needs[k] - a.classes], lists[k := lists[k] + [a]])
  {
    var course := courses[k];
    course.assignedTeachers := course.assignedTeachers + [a];
    course.requiredClasses := course.requiredClasses - a.classes;
  }

  /** The teacher's side of an allocation. */
  method Count(order: seq<Teacher>, i: nat, n: int, ghost loads: seq<int>)
    requires i < |order| && Apart(order, []) && TeachersHold(order, loads)
    modifies order[i]
    ensures TeachersHold(order, loads[i := loads[i] + n])
  {
    var teacher := order[i];
    teacher.assignedClasses := teacher.assignedClasses + n;
  }

  /** Where teacher `i`'s turn stands after `p` of its preferred courses: the objects hold the
      books, which still meet `Greedy`, and the rest of the turn from them comes to the whole
      turn from the books at its start. */
  ghost predicate TurnAt(order: seq<Teacher>, i: nat, courses: seq<Course>, init: seq<int>, start: Tally,
                         needs: seq<int>, lists: seq<seq<Allot>>, loads: seq<int>, p: nat)
    reads order, courses
  {
    var names := CourseNames(courses);
    && i < |order| && p <= |order[i].preferredCourses|
    && |start.loads| == |order| && |start.needs| == |names| == |start.lists|
    && Greedy(order, names, init, needs, lists, loads)
    && CoursesHold(courses, needs, lists) && TeachersHold(order, loads)
    && Turn(order, names, start, i, 0) == Turn(order, names, Tally(needs, lists, loads), i, p)
  }

  /** Lines 30-37 for teacher `i`'s `p`-th preferred course: the course hands it classes if it
      is in the table and needs any, and is passed over otherwise. */
  method Visit(order: seq<Teacher>, i: nat, courses: seq<Course>, ghost init: seq<int>, ghost start: Tally,
               ghost needs: seq<int>, ghost lists: seq<seq<Allot>>, ghost loads: seq<int>, p: nat)
    returns (ghost needs': seq<int>, ghost lists': seq<seq<Allot>>, ghost loads': seq<int>)
    requires Apart(order, courses) && Distinct(TeacherNames(order))
    requires TurnAt(order, i, courses, init, start, needs, lists, loads, p)
    requires p < |order[i].preferredCourses| && order[i].assignedClasses < order[i].requiredClasses
    modifies order[i], courses
    ensures TurnAt(order, i, courses, init, start, needs', lists', loads', p + 1)
  {
    var teacher := order[i];
    var names := CourseNames(courses);
    var k := IndexOf(names, teacher.preferredCourses[p]);
    if k.Some? && courses[k.value].requiredClasses > 0 {
      TurnGrant(order, names, Tally(needs, lists, loads), i, p, k.value);
      needs', lists', loads' := Grant(order, i, courses, k.value, init, needs, lists, loads);
    } else {
      TurnPass(order, names, Tally(needs, lists, loads), i, p);
      needs', lists', loads' := needs, lists, loads;
    }
  }

  /** Where the turn stops, at the end of the list or once the requirement is met, the books
      are the whole turn's. */
  lemma TurnEnds(order: seq<Teacher>, i: nat, courses: seq<Course>, init: seq<int>, start: Tally,
                 needs: seq<int>, lists: seq<seq<Allot>>, loads: seq<int>, p: nat)
    requires TurnAt(order, i, courses, init, start, needs, lists, loads, p)
    requires p == |order[i].preferredCourses| || order[i].assignedClasses >= order[i].requiredClasses
    ensures Tally(needs, lists, loads) == Turn(order, CourseNames(courses), start, i, 0)
    ensures Greedy(order, CourseNames(courses), init, needs, lists, loads)
    ensures CoursesHold(courses, needs, lists) && TeachersHold(order, loads)
  {
  }

  /** One teacher's turn (lines 28-38): its preferred courses in order, until its requirement
      is met. A course missing from the table, or needing no more classes, is passed over. */
  method AllocateTeacher(order: seq<Teacher>, i: nat, courses: seq<Course>, ghost init: seq<int>,
                         ghost needs: seq<int>, ghost lists: seq<seq<Allot>>, ghost loads: seq<int>)
    returns (ghost needs': seq<int>, ghost lists': seq<seq<Allot>>, ghost loads': seq<int>)
    requires i < |order| && Apart(order, courses) && Distinct(TeacherNames(order))
    requires Greedy(order, CourseNames(courses), init, needs, lists, loads)
    requires CoursesHold(courses, needs, lists) && TeachersHold(order, loads)
    modifies order[i], courses
    ensures Tally(needs', lists', loads') == Turn(order, CourseNames(courses), Tally(needs, lists, loads), i, 0)
    ensures Greedy(order, CourseNames(courses), init, needs', lists', loads')
    ensures CoursesHold(courses, needs', lists') && TeachersHold(order, loads')
  {
    var p;
    needs', lists', loads', p := Walk(order, i, courses, init, Tally(needs, lists, loads), needs, lists, loads);
    TurnEnds(order, i, courses, init, Tally(needs, lists, loads), needs', lists', loads', p);
  }

  /** The loop of lines 30-38 over teacher `i`'s preferred courses, from the books at the
      start of its turn: it stops after `p` courses, at the end of the list or once the
      teacher's requirement is met. */
  method Walk(order: seq<Teacher>, i: nat, courses: seq<Course>, ghost init: seq<int>, ghost start: Tally,
              ghost needs: seq<int>, ghost lists: seq<seq<Allot>>, ghost loads: seq<int>)
    returns (ghost needs': seq<int>, ghost lists': seq<seq<Allot>>, ghost loads': seq<int>, p: nat)
    requires Apart(order, courses) && Distinct(TeacherNames(order))
    requires TurnAt(order, i, courses, init, start, needs, lists, loads, 0)
    modifies order[i], courses
    ensures TurnAt(order, i, courses, init, start, needs', lists', loads', p)
    ensures p == |order[i].preferredCourses| || order[i].assignedClasses >= order[i].requiredClasses
  {
    var teacher := order[i];
    needs', lists', loads' := needs, lists, loads;
    p := 0;
    while p < |teacher.preferredCourses| && teacher.assignedClasses < teacher.requiredClasses
      invariant TurnAt(order, i, courses, init, start, needs', lists', loads', p)
      decreases |teacher.preferredCourses| - p
    {
      needs', lists', loads' := Visit(order, i, courses, init, start, needs', lists', loads', p);
      p := p + 1;
    }
  }

  /** The greedy phase over the teachers in processing order, from untouched objects.
      The ghost results are the courses' starting requirements and the books at the end. */
  method Allocate(order: seq<Teacher>, courses: seq<Course>)
    returns (ghost init: seq<int>, ghost needs: seq<int>, ghost lists: seq<seq<Allot>>, ghost loads: seq<int>)
    requires Distinct(TeacherNames(order)) && Distinct(CourseNames(courses))
    requires forall i :: 0 <= i < |order| ==> order[i].assignedClasses == 0
    requires forall k :: 0 <= k < |courses| ==> courses[k].assignedTeachers == []
    modifies order, courses
    ensures |init| == |courses| && forall k :: 0 <= k < |courses| ==> init[k] == old(courses[k].requiredClasses)
    ensures CoursesHold(courses, needs, lists) && TeachersHold(order, loads)
    ensures Greedy(order, CourseNames(courses), init, needs, lists, loads)
    ensures Tally(needs, lists, loads) == Sweep(order, CourseNames(courses), Start(init, |order|), 0)
    ensures forall i :: 0 <= i < |order| ==> Sated(order, CourseNames(courses), Tally(needs, lists, loads), i)
  {
    ApartByName(order, courses);
    init, lists, loads := Needs(courses), Lists(courses), Loads(order);
    Opening(order, CourseNames(courses), init, loads, lists);
    needs := init;
    assert Tally(needs, lists, loads) == Start(init, |order|);
    for i := 0 to |order|
      invariant Greedy(order, CourseNames(courses), init, needs, lists, loads)
      invariant CoursesHold(courses, needs, lists) && TeachersHold(order, loads)
      invariant forall k :: 0 <= k < |courses| ==> init[k] == old(courses[k].requiredClasses)
      invariant Sweep(order, CourseNames(courses), Start(init, |order|), 0) == Sweep(order, CourseNames(courses), Tally(needs, lists, loads), i)
    {
      needs, lists, loads := AllocateTeacher(order, i, courses, init, needs, lists, loads);
    }
    GreedySated(order, CourseNames(courses), Start(init, |order|));
  }

  // ---------------------------------------------------------------------------
  // The two result tables (utils/course.py, lines 41-47).

  /** `teacher_assignments` and `course_assignments` agree with the courses' lists: the
      latter holds each course's list, the former each teacher's allocations read off all
      the lists, as a multiset (the repair phase reorders it). */
  ghost predicate Mirrored(order: seq<Teacher>, names: seq<string>, lists: seq<seq<Allot>>,
                           byTeacher: map<string, seq<Duty>>, byCourse: map<string, seq<Allot>>)
  {
    |lists| == |names|
    && byTeacher.Keys == (set n | n in TeacherNames(order)) && byCourse.Keys == (set n | n in names)
    && (forall k :: 0 <= k < |names| ==> byCourse[names[k]] == lists[k])
    && (forall i :: 0 <= i < |order| ==> multiset(byTeacher[order[i].name]) == multiset(Duties(names, lists, order[i].name)))
  }

  /** What the tables hold once built, before the repair phase. */
  ghost predicate Tabulated(order: seq<Teacher>, names: seq<string>, lists: seq<seq<Allot>>,
                            byTeacher: map<string, seq<Duty>>, byCourse: map<string, seq<Allot>>)
  {
    |lists| == |names|
    && byTeacher.Keys == (set n | n in TeacherNames(order)) && byCourse.Keys == (set n | n in names)
    && (forall k :: 0 <= k < |names| ==> byCourse[names[k]] == lists[k])
    && (forall i :: 0 <= i < |order| ==> byTeacher[order[i].name] == Duties(names, lists, order[i].name))
  }

  lemma {:induction false} TabulatedMirrored(order: seq<Teacher>, names: seq<string>, lists: seq<seq<Allot>>,
                          byTeacher: map<string, seq<Duty>>, byCourse: map<string, seq<Allot>>)
    requires Tabulated(order, names, lists, byTeacher, byCourse)
    ensures Mirrored(order, names, lists, byTeacher, byCourse)
  {
  }

  /** The tables after the first `k` courses. */
  ghost predicate Done(tnames: seq<string>, names: seq<string>, lists: seq<seq<Allot>>, k: nat,
                       byTeacher: map<string, seq<Duty>>, byCourse: map<string, seq<Allot>>)
  {
    |lists| == |names| && k <= |names|
    && byTeacher.Keys == (set n | n in tnames) && byCourse.Keys == (set n | n in names)
    && (forall i :: 0 <= i < |tnames| ==> byTeacher[tnames[i]] == Duties(names[..k], lists[..k], tnames[i]))
    && (forall l :: 0 <= l < |names| ==> byCourse[names[l]] == if l < k then lists[l] else [])
  }

  /** The tables after the first `k` courses and the entries `part` of course `k`. */
  ghost predicate Filled(tnames: seq<string>, names: seq<string>, lists: seq<seq<Allot>>, k: nat, part: seq<Allot>,
                         byTeacher: map<string, seq<Duty>>, byCourse: map<string, seq<Allot>>)
  {
    TeachersFilled(tnames, names, lists, k, part, byTeacher) && CoursesFilled(names, lists, k, part, byCourse)
  }

  ghost predicate TeachersFilled(tnames: seq<string>, names: seq<string>, lists: seq<seq<Allot>>, k: nat, part: seq<Allot>,
                                 byTeacher: map<string, seq<Duty>>)
  {
    |lists| == |names| && k < |names| && byTeacher.Keys == (set n | n in tnames)
    && forall i :: 0 <= i < |tnames| ==> byTeacher[tnames[i]] == Duties(names[..k], lists[..k], tnames[i]) + DutiesIn(names[k], part, tnames[i])
  }

  ghost predicate CoursesFilled(names: seq<string>, lists: seq<seq<Allot>>, k: nat, part: seq<Allot>,
                                byCourse: map<string, seq<Allot>>)
  {
    |lists| == |names| && k < |names| && byCourse.Keys == (set n | n in names)
    && forall l :: 0 <= l < |names| ==> byCourse[names[l]] == if l < k then lists[l] else if l == k then part else []
  }

  lemma {:induction false} DoneFilled(tnames: seq<string>, names: seq<string>, lists: seq<seq<Allot>>, k: nat,
                   byTeacher: map<string, seq<Duty>>, byCourse: map<string, seq<Allot>>)
    requires Done(tnames, names, lists, k, byTeacher, byCourse) && k < |names|
    ensures Filled(tnames, names, lists, k, [], byTeacher, byCourse)
  {
    forall i | 0 <= i < |tnames|
      ensures byTeacher[tnames[i]] == Duties(names[..k], lists[..k], tnames[i]) + DutiesIn(names[k], [], tnames[i])
    {
      assert DutiesIn(names[k], [], tnames[i]) == [];
    }
  }

  lemma {:induction false} FilledDone(tnames: seq<string>, names: seq<string>, lists: seq<seq<Allot>>, k: nat,
                   byTeacher: map<string, seq<Duty>>, byCourse: map<string, seq<Allot>>)
    requires k < |names| == |lists| && Filled(tnames, names, lists, k, lists[k], byTeacher, byCourse)
    ensures Done(tnames, names, lists, k + 1, byTeacher, byCourse)
  {
    assert names[..k + 1][..k] == names[..k] && lists[..k + 1][..k] == lists[..k];
    forall i | 0 <= i < |tnames|
      ensures byTeacher[tnames[i]] == Duties(names[..k + 1], lists[..k + 1], tnames[i])
    {
      assert names[..k + 1][k] == names[k] && lists[..k + 1][k] == lists[k];
    }
  }

  /** Entry `j` of course `k`, appended to both tables. */
  lemma {:induction false} FilledStep(tnames: seq<string>, names: seq<string>, lists: seq<seq<Allot>>, k: nat, entries: seq<Allot>, j: nat,
                   byTeacher: map<string, seq<Duty>>, byCourse: map<string, seq<Allot>>)
    requires j < |entries| && Filled(tnames, names, lists, k, entries[..j], byTeacher, byCourse)
    requires Distinct(names) && entries[j].teacher in tnames
    ensures var a := entries[j];
            Filled(tnames, names, lists, k, entries[..j + 1],
                   byTeacher[a.teacher := byTeacher[a.teacher] + [Duty(names[k], a.lang, a.classes)]],
                   byCourse[names[k] := byCourse[names[k]] + [a]])
  {
    TeachersStep(tnames, names, lists, k, entries, j, byTeacher);
    CoursesStep(names, lists, k, entries, j, byCourse);
  }

  lemma {:induction false} TeachersStep(tnames: seq<string>, names: seq<string>, lists: seq<seq<Allot>>, k: nat, entries: seq<Allot>, j: nat,
                     byTeacher: map<string, seq<Duty>>)
    requires j < |entries| && TeachersFilled(tnames, names, lists, k, entries[..j], byTeacher)
    requires entries[j].teacher in tnames
    ensures var a := entries[j];
            TeachersFilled(tnames, names, lists, k, entries[..j + 1],
                           byTeacher[a.teacher := byTeacher[a.teacher] + [Duty(names[k], a.lang, a.classes)]])
  {
    var part := entries[..j + 1];
    assert part[..j] == entries[..j] && part[j] == entries[j];
  }

  lemma {:induction false} CoursesStep(names: seq<string>, lists: seq<seq<Allot>>, k: nat, entries: seq<Allot>, j: nat,
                    byCourse: map<string, seq<Allot>>)
    requires j < |entries| && CoursesFilled(names, lists, k, entries[..j], byCourse) && Distinct(names)
    ensures CoursesFilled(names, lists, k, entries[..j + 1], byCourse[names[k] := byCourse[names[k]] + [entries[j]]])
  {
    assert entries[..j + 1] == entries[..j] + [entries[j]];
    forall l | 0 <= l < |names| && l != k ensures names[l] != names[k] {
      if l < k {
        assert names[l] != names[k];
      } else {
        assert names[k] != names[l];
      }
    }
  }

  /** An allocation signed by a teacher names a key of `teacher_assignments`. */
  lemma {:induction false} SignerKnown(order: seq<Teacher>, course: string, a: Allot)
    requires SignedBy(order, course, a)
    ensures a.teacher in TeacherNames(order)
  {
    var i :| 0 <= i < |order| && order[i].name == a.teacher && order[i].lang == a.lang
             && course in order[i].preferredCourses;
    assert TeacherNames(order)[i] == a.teacher;
  }

  /** Every teacher on a course's list is a key of `teacher_assignments`. */
  lemma SignersKnown(order: seq<Teacher>, names: seq<string>, lists: seq<seq<Allot>>)
    requires Signed(order, names, lists)
    ensures forall k, j :: 0 <= k < |lists| && 0 <= j < |lists[k]| ==> lists[k][j].teacher in TeacherNames(order)
  {
    forall k, j | 0 <= k < |lists| && 0 <= j < |lists[k]| ensures lists[k][j].teacher in TeacherNames(order) {
      SignerKnown(order, names[k], lists[k][j]);
    }
  }

  /** The tables built from the courses' lists, course by course and entry by entry. */
  method Tabulate(order: seq<Teacher>, courses: seq<Course>, ghost lists: seq<seq<Allot>>)
    returns (byTeacher: map<string, seq<Duty>>, byCourse: map<string, seq<Allot>>)
    requires Distinct(CourseNames(courses)) && |lists| == |courses|
    requires forall k :: 0 <= k < |courses| ==> courses[k].assignedTeachers == lists[k]
    requires Signed(order, CourseNames(courses), lists)
    ensures Tabulated(order, CourseNames(courses), lists, byTeacher, byCourse)
  {
    SignersKnown(order, CourseNames(courses), lists);
    byTeacher, byCourse := Fill(TeacherNames(order), CourseNames(courses), courses, lists);
    DoneTabulated(order, CourseNames(courses), lists, byTeacher, byCourse);
  }

  /** The loop of `Tabulate`, over the courses in order. */
  method Fill(tnames: seq<string>, names: seq<string>, courses: seq<Course>, ghost lists: seq<seq<Allot>>)
    returns (byTeacher: map<string, seq<Duty>>, byCourse: map<string, seq<Allot>>)
    requires names == CourseNames(courses) && Distinct(names) && |lists| == |courses|
    requires forall k :: 0 <= k < |courses| ==> courses[k].assignedTeachers == lists[k]
    requires forall k, j :: 0 <= k < |lists| && 0 <= j < |lists[k]| ==> lists[k][j].teacher in tnames
    ensures Done(tnames, names, lists, |names|, byTeacher, byCourse)
  {
    byTeacher := map n | n in tnames :: [];
    byCourse := map n | n in names :: [];
    for k := 0 to |courses|
      invariant Done(tnames, names, lists, k, byTeacher, byCourse)
    {
      byTeacher, byCourse := TabulateCourse(tnames, names, lists, k, courses[k].assignedTeachers, byTeacher, byCourse);
    }
  }

  /** One course's entries, appended to both tables in order. */
  method TabulateCourse(tnames: seq<string>, names: seq<string>, ghost lists: seq<seq<Allot>>, k: nat, entries: seq<Allot>,
                        byTeacher0: map<string, seq<Duty>>, byCourse0: map<string, seq<Allot>>)
    returns (byTeacher: map<string, seq<Duty>>, byCourse: map<string, seq<Allot>>)
    requires Distinct(names) && k < |names| == |lists| && entries == lists[k]
    requires forall j :: 0 <= j < |entries| ==> entries[j].teacher in tnames
    requires Done(tnames, names, lists, k, byTeacher0, byCourse0)
    ensures Done(tnames, names, lists, k + 1, byTeacher, byCourse)
  {
    byTeacher, byCourse := byTeacher0, byCourse0;
    DoneFilled(tnames, names, lists, k, byTeacher, byCourse);
    for j := 0 to |entries|
      invariant Filled(tnames, names, lists, k, entries[..j], byTeacher, byCourse)
    {
      var a := entries[j];
      FilledStep(tnames, names, lists, k, entries, j, byTeacher, byCourse);
      byTeacher := byTeacher[a.teacher := byTeacher[a.teacher] + [Duty(names[k], a.lang, a.classes)]];
      byCourse := byCourse[names[k] := byCourse[names[k]] + [a]];
    }
    assert entries[..|entries|] == lists[k];
    FilledDone(tnames, names, lists, k, byTeacher, byCourse);
  }

  lemma {:induction false} DoneTabulated(order: seq<Teacher>, names: seq<string>, lists: seq<seq<Allot>>,
                      byTeacher: map<string, seq<Duty>>, byCourse: map<string, seq<Allot>>)
    requires Done(TeacherNames(order), names, lists, |names|, byTeacher, byCourse)
    ensures Tabulated(order, names, lists, byTeacher, byCourse)
  {
    assert names[..|names|] == names && lists[..|names|] == lists;
    forall i | 0 <= i < |order| ensures byTeacher[order[i].name] == Duties(names, lists, order[i].name) {
      assert TeacherNames(order)[i] == order[i].name;
    }
  }

  // ---------------------------------------------------------------------------
  // The repair phase (utils/course.py, lines 51-78), as values.

  /** Everything the repair phase reads and writes: the courses' remaining requirements
      and lists, and the two result tables. */
  datatype Ledger = Ledger(needs: seq<int>, lists: seq<seq<Allot>>,
                           byTeacher: map<string, seq<Duty>>, byCourse: map<string, seq<Allot>>)

  /** What the repair phase needs to be able to run: names are distinct, every
      allocation is positive and signed, and the tables mirror the lists. */
  ghost predicate Kept(order: seq<Teacher>, names: seq<string>, l: Ledger)
  {
    Distinct(TeacherNames(order)) && Distinct(names) && |l.needs| == |names|
    && Positive(l.lists) && Signed(order, names, l.lists) && Mirrored(order, names, l.lists, l.byTeacher, l.byCourse)
  }

  /** The invariant of the repair phase: it can run and the books balance. The teachers'
      counts (`loads`) are not touched by this phase. */
  ghost predicate Sound(order: seq<Teacher>, names: seq<string>, init: seq<int>, loads: seq<int>, l: Ledger)
  {
    Kept(order, names, l) && Conserved(init, l.needs, l.lists) && Loaded(order, loads, l.lists)
  }

  /** `num_classes > 1 or len(courses[assigned_course_name].assigned_teachers) > 1`: the
      duty can give up a class without leaving its course with no teacher. */
  predicate Spare(names: seq<string>, lists: seq<seq<Allot>>, x: Duty)
    requires |names| == |lists|
  {
    x.classes > 1 || match IndexOf(names, x.course) case Some(d) => |lists[d]| > 1 case None => false
  }

  /** The first duty at or after `q` that can give up a class. */
  function FirstSpare(names: seq<string>, lists: seq<seq<Allot>>, duties: seq<Duty>, q: nat): (r: Option<nat>)
    requires |names| == |lists| && q <= |duties|
    decreases |duties| - q
    ensures r.Some? ==> q <= r.value < |duties| && Spare(names, lists, duties[r.value])
                        && forall p :: q <= p < r.value ==> !Spare(names, lists, duties[p])
    ensures r.None? ==> forall p :: q <= p < |duties| ==> !Spare(names, lists, duties[p])
  {
    if q == |duties| then None
    else if Spare(names, lists, duties[q]) then Some(q)
    else FirstSpare(names, lists, duties, q + 1)
  }

  /** Teacher `i` lists course `g` and holds a duty that can give up a class. */
  predicate Offers(order: seq<Teacher>, names: seq<string>, lists: seq<seq<Allot>>,
                   byTeacher: map<string, seq<Duty>>, g: nat, i: nat)
    requires |names| == |lists| && g < |names| && i < |order|
    requires forall j :: 0 <= j < |order| ==> order[j].name in byTeacher
  {
    names[g] in order[i].preferredCourses && FirstSpare(names, lists, byTeacher[order[i].name], 0).Some?
  }

  /** The first teacher at or after `i`, in processing order, who offers course `g` a class,
      with the position of the duty it gives the class from. */
  function Donor(order: seq<Teacher>, names: seq<string>, lists: seq<seq<Allot>>,
                 byTeacher: map<string, seq<Duty>>, g: nat, i: nat): (r: Option<(nat, nat)>)
    requires |names| == |lists| && g < |names| && i <= |order|
    requires forall j :: 0 <= j < |order| ==> order[j].name in byTeacher
    decreases |order| - i
    ensures r.Some? ==> i <= r.value.0 < |order| && Offers(order, names, lists, byTeacher, g, r.value.0)
                        && FirstSpare(names, lists, byTeacher[order[r.value.0].name], 0) == Some(r.value.1)
                        && forall j :: i <= j < r.value.0 ==> !Offers(order, names, lists, byTeacher, g, j)
    ensures r.None? ==> forall j :: i <= j < |order| ==> !Offers(order, names, lists, byTeacher, g, j)
  {
    if i == |order| then None
    else if Offers(order, names, lists, byTeacher, g, i) then
      Some((i, FirstSpare(names, lists, byTeacher[order[i].name], 0).value))
    else Donor(order, names, lists, byTeacher, g, i + 1)
  }

  /** The Python statements of one move, in order: teacher `t` gives course `g` one class
      out of its allocation of `n` classes on course `d`. */
  function Shift(names: seq<string>, l: Ledger, g: nat, d: nat, t: Teacher, n: int): Ledger
    requires |l.needs| == |names| && |l.lists| == |names| && g < |names| && d < |names|
    requires Allot(t.name, t.lang, n) in l.lists[d]
    requires t.name in l.byTeacher && Duty(names[d], t.lang, n) in l.byTeacher[t.name]
    requires names[g] in l.byCourse && names[d] in l.byCourse && Allot(t.name, t.lang, n) in l.byCourse[names[d]]
  {
    var a, one := Allot(t.name, t.lang, n), Allot(t.name, t.lang, 1);
    var kept := if n > 1 then [Allot(t.name, t.lang, n - 1)] else [];
    var keptDuty := if n > 1 then [Duty(names[d], t.lang, n - 1)] else [];
    var byTeacher := l.byTeacher[t.name := RemoveFirst(l.byTeacher[t.name], Duty(names[d], t.lang, n))
                                           + keptDuty + [Duty(names[g], t.lang, 1)]];
    var lists := l.lists[d := RemoveFirst(l.lists[d], a) + kept];
    var needs := l.needs[d := l.needs[d] + 1];
    var byCourse := l.byCourse[names[g] := l.byCourse[names[g]] + [one]];
    assert a in byCourse[names[d]];
    Ledger(needs[g := needs[g] - 1], lists[g := lists[g] + [one]], byTeacher,
           byCourse[names[d] := RemoveFirst(byCourse[names[d]], a) + kept])
  }

  /** A duty of teacher `i` comes from an allocation, in that teacher's own language,
      of at least one class on a course other than the empty course `g`; so each `remove`
      of the move finds its entry and no lookup raises `KeyError`. */
  lemma {:induction false} Donation(order: seq<Teacher>, names: seq<string>, l: Ledger, g: nat, i: nat, q: nat)
    requires Kept(order, names, l) && g < |names| && i < |order| && l.lists[g] == []
    requires names[g] in order[i].preferredCourses
    requires order[i].name in l.byTeacher && q < |l.byTeacher[order[i].name]|
    ensures var t, y := order[i], l.byTeacher[order[i].name][q];
            && IndexOf(names, y.course).Some?
            && var d := IndexOf(names, y.course).value;
            && d != g && y == Duty(names[d], t.lang, y.classes)
            && Movable(order, names, l, g, d, i, y.classes)
  {
    var t, y := order[i], l.byTeacher[order[i].name][q];
    assert y in multiset(l.byTeacher[t.name]);
    var d := DutySource(names, l.lists, t.name, y);
    IndexOfDistinct(names, d);
    var j :| 0 <= j < |l.lists[d]| && l.lists[d][j] == Allot(t.name, y.lang, y.classes);
    assert SignedBy(order, names[d], l.lists[d][j]);
    var w :| 0 <= w < |order| && order[w].name == t.name && order[w].lang == y.lang && names[d] in order[w].preferredCourses;
    NamesTellApart(order);
    assert y == Duty(names[d], t.lang, y.classes) && y.classes >= 1;
    assert y in l.byTeacher[t.name] && Allot(t.name, t.lang, y.classes) in l.lists[d];
    assert names[g] in l.byCourse && names[d] in l.byCourse && l.byCourse[names[d]] == l.lists[d];
  }

  /** Teachers are told apart by name. */
  lemma {:induction false} NamesTellApart(order: seq<Teacher>)
    requires Distinct(TeacherNames(order))
    ensures forall w, i :: 0 <= w < |order| && 0 <= i < |order| && order[w].name == order[i].name ==> w == i
  {
    forall w, i | 0 <= w < i < |order| ensures order[w].name != order[i].name {
      assert TeacherNames(order)[w] != TeacherNames(order)[i];
    }
  }

  /** What a move does to the courses' requirements and lists. */
  lemma {:induction false} ShiftShape(names: seq<string>, l: Ledger, g: nat, d: nat, t: Teacher, n: int)
    requires |l.needs| == |names| && |l.lists| == |names| && g < |names| && d < |names| && d != g
    requires Allot(t.name, t.lang, n) in l.lists[d]
    requires t.name in l.byTeacher && Duty(names[d], t.lang, n) in l.byTeacher[t.name]
    requires names[g] in l.byCourse && names[d] in l.byCourse && Allot(t.name, t.lang, n) in l.byCourse[names[d]]
    ensures var s := Shift(names, l, g, d, t, n);
            var kept := if n > 1 then [Allot(t.name, t.lang, n - 1)] else [];
            && |s.needs| == |names| && |s.lists| == |names|
            && s.lists[g] == l.lists[g] + [Allot(t.name, t.lang, 1)] && s.needs[g] == l.needs[g] - 1
            && s.lists[d] == RemoveFirst(l.lists[d], Allot(t.name, t.lang, n)) + kept && s.needs[d] == l.needs[d] + 1
            && (forall k :: 0 <= k < |names| && k != g && k != d ==> s.lists[k] == l.lists[k] && s.needs[k] == l.needs[k])
  {
  }

  /** The preconditions of one move: teacher `i`, who lists the empty course `g`, holds an
      allocation of `n` classes on another course `d`, recorded in all three places. */
  ghost predicate Movable(order: seq<Teacher>, names: seq<string>, l: Ledger, g: nat, d: nat, i: nat, n: int)
  {
    |l.needs| == |names| && |l.lists| == |names| && g < |names| && d < |names| && d != g
    && i < |order| && l.lists[g] == [] && n >= 1 && names[g] in order[i].preferredCourses
    && Allot(order[i].name, order[i].lang, n) in l.lists[d]
    && order[i].name in l.byTeacher && Duty(names[d], order[i].lang, n) in l.byTeacher[order[i].name]
    && names[g] in l.byCourse && names[d] in l.byCourse && l.byCourse[names[d]] == l.lists[d]
  }

  /** The counts of a single allocation. */
  lemma {:induction false} CountsOne(a: Allot, course: string, name: string)
    ensures Total([a]) == a.classes && Given([a], name) == (if a.teacher == name then a.classes else 0)
    ensures DutiesIn(course, [a], name) == if a.teacher == name then [Duty(course, a.lang, a.classes)] else []
  {
    assert [a][..0] == [];
  }

  /** A list that ends in at most one more allocation. */
  lemma {:induction false} CountsAppend(s: seq<Allot>, e: seq<Allot>, course: string, name: string)
    requires |e| <= 1
    ensures Total(s + e) == Total(s) + Total(e) && Given(s + e, name) == Given(s, name) + Given(e, name)
    ensures DutiesIn(course, s + e, name) == DutiesIn(course, s, name) + DutiesIn(course, e, name)
  {
    if e != [] {
      CountsOne(e[0], course, name);
      assert (s + e)[..|s + e| - 1] == s && (s + e)[|s + e| - 1] == e[0] && e == [e[0]];
    } else {
      assert s + e == s;
    }
  }

  /** The requirements and lists after a move, as `ShiftShape` describes them. */
  ghost predicate Moved(names: seq<string>, needs: seq<int>, lists: seq<seq<Allot>>, needs': seq<int>,
                        lists': seq<seq<Allot>>, g: nat, d: nat, t: Teacher, n: int)
  {
    |needs| == |names| && |lists| == |names| && |needs'| == |names| && |lists'| == |names|
    && g < |names| && d < |names| && d != g && n >= 1 && Allot(t.name, t.lang, n) in lists[d]
    && lists'[g] == lists[g] + [Allot(t.name, t.lang, 1)] && needs'[g] == needs[g] - 1
    && lists'[d] == RemoveFirst(lists[d], Allot(t.name, t.lang, n)) + (if n > 1 then [Allot(t.name, t.lang, n - 1)] else [])
    && needs'[d] == needs[d] + 1
    && forall k :: 0 <= k < |names| && k != g && k != d ==> lists'[k] == lists[k] && needs'[k] == needs[k]
  }

  /** A move keeps the requirements balanced. */
  lemma {:induction false} MovedConserved(names: seq<string>, init: seq<int>, needs: seq<int>, lists: seq<seq<Allot>>, needs': seq<int>,
                       lists': seq<seq<Allot>>, g: nat, d: nat, t: Teacher, n: int)
    requires Moved(names, needs, lists, needs', lists', g, d, t, n) && lists[g] == []
    requires Conserved(init, needs, lists)
    ensures Conserved(init, needs', lists')
  {
    var a, one := Allot(t.name, t.lang, n), Allot(t.name, t.lang, 1);
    var kept := if n > 1 then [Allot(t.name, t.lang, n - 1)] else [];
    RemoveFirstCounts(lists[d], a, t.name);
    CountsAppend(RemoveFirst(lists[d], a), kept, names[d], t.name);
    assert lists'[g] == [one];
    if n > 1 {
      CountsOne(kept[0], names[d], t.name);
      assert kept == [kept[0]];
    }
    CountsOne(one, names[g], t.name);
    forall k | 0 <= k < |init| ensures needs'[k] + Total(lists'[k]) == init[k] {
      if k == g {
        assert Total(lists[g]) == 0;
      } else if k == d {
        assert Total(lists'[d]) == Total(RemoveFirst(lists[d], a)) + Total(kept);
        assert Total(kept) == n - 1;
      } else {
        assert lists'[k] == lists[k];
      }
    }
  }

  /** A move records only positive allocations, each signed by its teacher. */
  lemma {:induction false} MovedSigned(order: seq<Teacher>, names: seq<string>, needs: seq<int>, lists: seq<seq<Allot>>, needs': seq<int>,
                    lists': seq<seq<Allot>>, g: nat, d: nat, i: nat, n: int)
    requires i < |order| && Moved(names, needs, lists, needs', lists', g, d, order[i], n) && lists[g] == []
    requires names[g] in order[i].preferredCourses
    requires Positive(lists) && Signed(order, names, lists)
    ensures Positive(lists') && Signed(order, names, lists')
  {
    var t := order[i];
    var a, one := Allot(t.name, t.lang, n), Allot(t.name, t.lang, 1);
    var kept := if n > 1 then [Allot(t.name, t.lang, n - 1)] else [];
    assert lists'[g] == [one];
    var j :| 0 <= j < |lists[d]| && lists[d][j] == a;
    assert SignedBy(order, names[d], lists[d][j]);
    assert SignedBy(order, names[g], one);
    forall x | x in lists'[d] ensures x.classes >= 1 && SignedBy(order, names[d], x) {
      if x !in kept {
        assert x in lists[d];
      }
    }
  }

  /** A move leaves every teacher's load as it was. */
  lemma {:induction false} MovedLoaded(order: seq<Teacher>, names: seq<string>, loads: seq<int>, needs: seq<int>, lists: seq<seq<Allot>>,
                    needs': seq<int>, lists': seq<seq<Allot>>, g: nat, d: nat, t: Teacher, n: int)
    requires Moved(names, needs, lists, needs', lists', g, d, t, n) && lists[g] == []
    requires Loaded(order, loads, lists)
    ensures Loaded(order, loads, lists')
  {
    var a, one := Allot(t.name, t.lang, n), Allot(t.name, t.lang, 1);
    var kept := if n > 1 then [Allot(t.name, t.lang, n - 1)] else [];
    var r := RemoveFirst(lists[d], a);
    var x := r + kept;
    var between := lists[d := x];
    MovedLists(names, needs, lists, needs', lists', g, d, t, n);
    forall j | 0 <= j < |order| ensures loads[j] == Load(lists', order[j].name) {
      var name := order[j].name;
      LoadUpdate(lists, d, x, name);
      LoadUpdate(between, g, [one], name);
      RemoveFirstCounts(lists[d], a, name);
      CountsAppend(r, kept, names[d], name);
      CountsOne(one, names[g], name);
      if n > 1 {
        CountsOne(kept[0], names[d], name);
        assert kept == [kept[0]];
      }
      assert Given(between[g], name) == 0;
    }
  }

  /** A move takes the duty `n` classes on course `d` from teacher `t`'s duties and gives
      it the kept rest of it and one class on course `g`; no other teacher's duties change. */
  /** What a move does to the duties of the teacher called `name`: the teacher who moves
      trades the duty it draws on for its rest and the new one, and nobody else changes. */
  ghost predicate DutiesMoved(names: seq<string>, lists: seq<seq<Allot>>, lists': seq<seq<Allot>>,
                              g: nat, d: nat, t: Teacher, n: int, name: string)
    requires g < |names| && d < |names| && |lists| == |names| && |lists'| == |names|
  {
    && (t.name == name ==>
          var kept := if n > 1 then [Duty(names[d], t.lang, n - 1)] else [];
          multiset(Duties(names, lists', name)) + multiset{Duty(names[d], t.lang, n)}
          == multiset(Duties(names, lists, name)) + (multiset(kept) + multiset{Duty(names[g], t.lang, 1)}))
    && (t.name != name ==> multiset(Duties(names, lists', name)) == multiset(Duties(names, lists, name)))
  }

  lemma {:induction false} MovedDuties(names: seq<string>, needs: seq<int>, lists: seq<seq<Allot>>, needs': seq<int>,
                    lists': seq<seq<Allot>>, g: nat, d: nat, t: Teacher, n: int, name: string)
    requires Moved(names, needs, lists, needs', lists', g, d, t, n) && lists[g] == []
    ensures DutiesMoved(names, lists, lists', g, d, t, n, name)
  {
    var a, one := Allot(t.name, t.lang, n), Allot(t.name, t.lang, 1);
    var kept := if n > 1 then [Allot(t.name, t.lang, n - 1)] else [];
    var r := RemoveFirst(lists[d], a);
    var x := r + kept;
    var between := lists[d := x];
    MovedLists(names, needs, lists, needs', lists', g, d, t, n);
    DutiesUpdate(names, lists, d, x, name);
    DutiesUpdate(names, between, g, [one], name);
    RemoveFirstDuties(names[d], lists[d], a, name);
    CountsAppend(r, kept, names[d], name);
    CountsOne(one, names[g], name);
    if n > 1 {
      CountsOne(kept[0], names[d], name);
      assert kept == [kept[0]];
    }
    assert DutiesIn(names[g], between[g], name) == [];
    Rebalance(multiset(Duties(names, lists', name)), multiset(Duties(names, between, name)),
              multiset(DutiesIn(names[g], [one], name)),
              if t.name == name then multiset{Duty(names[d], t.lang, n)} else multiset{},
              multiset(DutiesIn(names[d], lists[d], name)), multiset(Duties(names, lists, name)),
              multiset(DutiesIn(names[d], r, name)), multiset(DutiesIn(names[d], kept, name)));
  }

  lemma {:induction false} Rebalance(after: multiset<Duty>, between: multiset<Duty>, gained: multiset<Duty>, taken: multiset<Duty>,
                  was: multiset<Duty>, before: multiset<Duty>, rest: multiset<Duty>, kept: multiset<Duty>)
    requires after == between + gained && between + was == before + (rest + kept) && rest + taken == was
    ensures after + taken == before + (kept + gained)
  {
    forall e ensures (after + taken)[e] == (before + (kept + gained))[e] {
      assert after[e] == between[e] + gained[e] && was[e] == rest[e] + taken[e];
      assert (between + was)[e] == (before + (rest + kept))[e];
    }
  }

  lemma {:induction false} MovedLists(names: seq<string>, needs: seq<int>, lists: seq<seq<Allot>>, needs': seq<int>,
                   lists': seq<seq<Allot>>, g: nat, d: nat, t: Teacher, n: int)
    requires Moved(names, needs, lists, needs', lists', g, d, t, n) && lists[g] == []
    ensures var kept := if n > 1 then [Allot(t.name, t.lang, n - 1)] else [];
            lists' == lists[d := RemoveFirst(lists[d], Allot(t.name, t.lang, n)) + kept][g := [Allot(t.name, t.lang, 1)]]
  {
    assert lists'[g] == [Allot(t.name, t.lang, 1)];
  }

  /** What a move does to the two tables. */
  lemma {:induction false} ShiftTables(names: seq<string>, l: Ledger, g: nat, d: nat, t: Teacher, n: int)
    requires Distinct(names) && |l.needs| == |names| && |l.lists| == |names| && g < |names| && d < |names| && d != g
    requires Allot(t.name, t.lang, n) in l.lists[d]
    requires t.name in l.byTeacher && Duty(names[d], t.lang, n) in l.byTeacher[t.name]
    requires names[g] in l.byCourse && names[d] in l.byCourse && l.byCourse[names[g]] == [] && l.byCourse[names[d]] == l.lists[d]
    ensures var s := Shift(names, l, g, d, t, n);
            var one := Allot(t.name, t.lang, 1);
            && s.byTeacher == l.byTeacher[t.name := RemoveFirst(l.byTeacher[t.name], Duty(names[d], t.lang, n))
                                               + (if n > 1 then [Duty(names[d], t.lang, n - 1)] else [])
                                               + [Duty(names[g], t.lang, 1)]]
            && s.byCourse == l.byCourse[names[g] := [one]]
                               [names[d] := RemoveFirst(l.lists[d], Allot(t.name, t.lang, n))
                                            + (if n > 1 then [Allot(t.name, t.lang, n - 1)] else [])]
  {
    IndexOfDistinct(names, g);
    IndexOfDistinct(names, d);
    assert l.byCourse[names[g]] + [Allot(t.name, t.lang, 1)] == [Allot(t.name, t.lang, 1)];
  }

  /** After a move the tables still mirror the lists. */
  lemma {:induction false} MovedMirrored(order: seq<Teacher>, names: seq<string>, needs: seq<int>, lists: seq<seq<Allot>>,
                      needs': seq<int>, lists': seq<seq<Allot>>, byTeacher: map<string, seq<Duty>>,
                      byCourse: map<string, seq<Allot>>, byTeacher': map<string, seq<Duty>>,
                      byCourse': map<string, seq<Allot>>, g: nat, d: nat, i: nat, n: int)
    requires Distinct(names) && Distinct(TeacherNames(order)) && i < |order|
    requires Moved(names, needs, lists, needs', lists', g, d, order[i], n) && lists[g] == []
    requires Mirrored(order, names, lists, byTeacher, byCourse)
    requires var t := order[i];
             && t.name in byTeacher && Duty(names[d], t.lang, n) in byTeacher[t.name]
             && byTeacher' == byTeacher[t.name := RemoveFirst(byTeacher[t.name], Duty(names[d], t.lang, n))
                                                 + (if n > 1 then [Duty(names[d], t.lang, n - 1)] else [])
                                                 + [Duty(names[g], t.lang, 1)]]
             && byCourse' == byCourse[names[g] := [Allot(t.name, t.lang, 1)]]
                                     [names[d] := RemoveFirst(lists[d], Allot(t.name, t.lang, n))
                                                  + (if n > 1 then [Allot(t.name, t.lang, n - 1)] else [])]
    ensures Mirrored(order, names, lists', byTeacher', byCourse')
  {
    MovedCourses(names, needs, lists, needs', lists', byCourse, byCourse', g, d, order[i], n);
    MovedAllDuties(names, needs, lists, needs', lists', g, d, order[i], n);
    MovedTeachers(order, names, needs, lists, needs', lists', byTeacher, byTeacher', g, d, i, n);
  }

  /** A move shifts the duties of its teacher only. */
  lemma {:induction false} MovedAllDuties(names: seq<string>, needs: seq<int>, lists: seq<seq<Allot>>, needs': seq<int>,
                       lists': seq<seq<Allot>>, g: nat, d: nat, t: Teacher, n: int)
    requires Moved(names, needs, lists, needs', lists', g, d, t, n) && lists[g] == []
    ensures forall name :: DutiesMoved(names, lists, lists', g, d, t, n, name)
  {
    forall name ensures DutiesMoved(names, lists, lists', g, d, t, n, name) {
      MovedDuties(names, needs, lists, needs', lists', g, d, t, n, name);
    }
  }

  /** After a move `teacher_assignments` still holds each teacher's duties. */
  lemma {:induction false} MovedTeachers(order: seq<Teacher>, names: seq<string>, needs: seq<int>, lists: seq<seq<Allot>>,
                      needs': seq<int>, lists': seq<seq<Allot>>, byTeacher: map<string, seq<Duty>>,
                      byTeacher': map<string, seq<Duty>>, g: nat, d: nat, i: nat, n: int)
    requires i < |order| && g < |names| && d < |names| && |lists| == |names| && |lists'| == |names|
    requires forall name :: DutiesMoved(names, lists, lists', g, d, order[i], n, name)
    requires byTeacher.Keys == (set n | n in TeacherNames(order))
    requires forall j :: 0 <= j < |order| ==> multiset(byTeacher[order[j].name]) == multiset(Duties(names, lists, order[j].name))
    requires var t := order[i];
             && t.name in byTeacher && Duty(names[d], t.lang, n) in byTeacher[t.name]
             && byTeacher' == byTeacher[t.name := RemoveFirst(byTeacher[t.name], Duty(names[d], t.lang, n))
                                                 + (if n > 1 then [Duty(names[d], t.lang, n - 1)] else [])
                                                 + [Duty(names[g], t.lang, 1)]]
    ensures byTeacher'.Keys == (set n | n in TeacherNames(order))
    ensures forall j :: 0 <= j < |order| ==> multiset(byTeacher'[order[j].name]) == multiset(Duties(names, lists', order[j].name))
  {
    assert byTeacher'.Keys == byTeacher.Keys;
    forall j | 0 <= j < |order|
      ensures multiset(byTeacher'[order[j].name]) == multiset(Duties(names, lists', order[j].name))
    {
      var name := order[j].name;
      assert name == TeacherNames(order)[j];
      MovedTeacher(names, lists, lists', byTeacher, byTeacher', g, d, order[i], n, name);
    }
  }

  /** After a move `course_assignments` still holds each course's list. */
  lemma {:induction false} MovedCourses(names: seq<string>, needs: seq<int>, lists: seq<seq<Allot>>, needs': seq<int>,
                     lists': seq<seq<Allot>>, byCourse: map<string, seq<Allot>>, byCourse': map<string, seq<Allot>>,
                     g: nat, d: nat, t: Teacher, n: int)
    requires Distinct(names) && Moved(names, needs, lists, needs', lists', g, d, t, n) && lists[g] == []
    requires byCourse.Keys == (set n | n in names) && forall k :: 0 <= k < |names| ==> byCourse[names[k]] == lists[k]
    requires byCourse' == byCourse[names[g] := [Allot(t.name, t.lang, 1)]]
                                  [names[d] := RemoveFirst(lists[d], Allot(t.name, t.lang, n))
                                               + (if n > 1 then [Allot(t.name, t.lang, n - 1)] else [])]
    ensures byCourse'.Keys == (set n | n in names) && forall k :: 0 <= k < |names| ==> byCourse'[names[k]] == lists'[k]
  {
    assert names[g] in byCourse && names[d] in byCourse;
    assert lists'[g] == [Allot(t.name, t.lang, 1)];
    forall k | 0 <= k < |names| ensures byCourse'[names[k]] == lists'[k] {
      IndexOfDistinct(names, k);
      IndexOfDistinct(names, g);
      IndexOfDistinct(names, d);
    }
  }

  /** After a move the duties of the teacher called `name` still mirror the lists. */
  lemma {:induction false} MovedTeacher(names: seq<string>, lists: seq<seq<Allot>>, lists': seq<seq<Allot>>,
                     byTeacher: map<string, seq<Duty>>, byTeacher': map<string, seq<Duty>>,
                     g: nat, d: nat, t: Teacher, n: int, name: string)
    requires g < |names| && d < |names| && |lists| == |names| && |lists'| == |names|
    requires DutiesMoved(names, lists, lists', g, d, t, n, name)
    requires name in byTeacher && multiset(byTeacher[name]) == multiset(Duties(names, lists, name))
    requires t.name in byTeacher && Duty(names[d], t.lang, n) in byTeacher[t.name]
    requires byTeacher' == byTeacher[t.name := RemoveFirst(byTeacher[t.name], Duty(names[d], t.lang, n))
                                               + (if n > 1 then [Duty(names[d], t.lang, n - 1)] else [])
                                               + [Duty(names[g], t.lang, 1)]]
    ensures multiset(byTeacher'[name]) == multiset(Duties(names, lists', name))
  {
    var y := Duty(names[d], t.lang, n);
    var keptDuty := if n > 1 then [Duty(names[d], t.lang, n - 1)] else [];
    var gained := Duty(names[g], t.lang, 1);
    if name == t.name {
      var rest := RemoveFirst(byTeacher[name], y);
      assert multiset(byTeacher'[name]) == multiset(rest) + (multiset(keptDuty) + multiset{gained});
      Cancel(multiset(Duties(names, lists', name)), multiset{y}, multiset(rest),
             multiset(byTeacher[name]), multiset(keptDuty) + multiset{gained});
    } else {
      assert byTeacher'[name] == byTeacher[name];
    }
  }

  lemma {:induction false} Cancel(after: multiset<Duty>, taken: multiset<Duty>, rest: multiset<Duty>, before: multiset<Duty>,
               added: multiset<Duty>)
    requires after + taken == before + added && rest + taken == before
    ensures after == rest + added
  {
    forall e ensures after[e] == (rest + added)[e] {
      assert (after + taken)[e] == (before + added)[e] && (rest + taken)[e] == before[e];
    }
  }

  /** A move keeps what the repair phase needs to run. */
  lemma {:induction false} ShiftKept(order: seq<Teacher>, names: seq<string>, l: Ledger, g: nat, d: nat, i: nat, n: int)
    requires Kept(order, names, l) && Movable(order, names, l, g, d, i, n)
    ensures Kept(order, names, Shift(names, l, g, d, order[i], n))
  {
    var t := order[i];
    var s := Shift(names, l, g, d, t, n);
    ShiftShape(names, l, g, d, t, n);
    assert Moved(names, l.needs, l.lists, s.needs, s.lists, g, d, t, n);
    ShiftTables(names, l, g, d, t, n);
    MovedSigned(order, names, l.needs, l.lists, s.needs, s.lists, g, d, i, n);
    MovedMirrored(order, names, l.needs, l.lists, s.needs, s.lists, l.byTeacher, l.byCourse, s.byTeacher, s.byCourse, g, d, i, n);
  }

  /** A move keeps the repair phase's invariant. */
  lemma {:induction false} ShiftSound(order: seq<Teacher>, names: seq<string>, init: seq<int>, loads: seq<int>, l: Ledger,
                   g: nat, d: nat, i: nat, n: int)
    requires Sound(order, names, init, loads, l) && Movable(order, names, l, g, d, i, n)
    ensures Sound(order, names, init, loads, Shift(names, l, g, d, order[i], n))
  {
    var t := order[i];
    var s := Shift(names, l, g, d, t, n);
    ShiftShape(names, l, g, d, t, n);
    assert Moved(names, l.needs, l.lists, s.needs, s.lists, g, d, t, n);
    ShiftKept(order, names, l, g, d, i, n);
    MovedConserved(names, init, l.needs, l.lists, s.needs, s.lists, g, d, t, n);
    MovedLoaded(order, names, loads, l.needs, l.lists, s.needs, s.lists, g, d, t, n);
  }

  /** Every teacher has an entry in `teacher_assignments`. */
  lemma {:induction false} KeptKeys(order: seq<Teacher>, names: seq<string>, l: Ledger)
    requires Kept(order, names, l)
    ensures |l.lists| == |names| && forall j :: 0 <= j < |order| ==> order[j].name in l.byTeacher
  {
    forall j | 0 <= j < |order| ensures order[j].name in l.byTeacher {
      assert order[j].name == TeacherNames(order)[j];
    }
  }

  /** The teacher who gives course `g` a class and the position of the duty it comes
      from, if any: only an empty course is given one. */
  function Choice(order: seq<Teacher>, names: seq<string>, l: Ledger, g: nat): (r: Option<(nat, nat)>)
    requires Kept(order, names, l) && g < |names|
    ensures r.Some? ==> l.lists[g] == [] && r.value.0 < |order| && order[r.value.0].name in l.byTeacher
                        && Offers(order, names, l.lists, l.byTeacher, g, r.value.0)
                        && FirstSpare(names, l.lists, l.byTeacher[order[r.value.0].name], 0) == Some(r.value.1)
    ensures r.None? ==> l.lists[g] != [] || forall j :: 0 <= j < |order| ==> !Offers(order, names, l.lists, l.byTeacher, g, j)
  {
    KeptKeys(order, names, l);
    if l.lists[g] != [] then None else Donor(order, names, l.lists, l.byTeacher, g, 0)
  }

  /** The repair of course `g` (utils/course.py, lines 52-78): when its list is empty, the
      first teacher in processing order who lists it and holds a duty that can spare a
      class moves one class of the first such duty to it. */
  function Repair(order: seq<Teacher>, names: seq<string>, l: Ledger, g: nat): (r: Ledger)
    requires Kept(order, names, l) && g < |names|
    ensures Kept(order, names, r)
  {
    match Choice(order, names, l, g)
    case None => l
    case Some((i, q)) => MoveAt(order, names, l, g, i, q)
  }

  /** The move of one class from duty `q` of teacher `i` to the empty course `g` the teacher
      lists; the duty's course is looked up by name. */
  function MoveAt(order: seq<Teacher>, names: seq<string>, l: Ledger, g: nat, i: nat, q: nat): (r: Ledger)
    requires Kept(order, names, l) && g < |names| && i < |order| && l.lists[g] == []
    requires names[g] in order[i].preferredCourses
    requires order[i].name in l.byTeacher && q < |l.byTeacher[order[i].name]|
    ensures Kept(order, names, r)
  {
    Donation(order, names, l, g, i, q);
    var y := l.byTeacher[order[i].name][q];
    var d := IndexOf(names, y.course).value;
    ShiftKept(order, names, l, g, d, i, y.classes);
    Shift(names, l, g, d, order[i], y.classes)
  }

  /** A duty can spare a class exactly when it is the first spare one from some point on. */
  lemma {:induction false} FirstSpareSome(names: seq<string>, lists: seq<seq<Allot>>, duties: seq<Duty>)
    requires |names| == |lists|
    ensures FirstSpare(names, lists, duties, 0).Some? <==> exists p :: 0 <= p < |duties| && Spare(names, lists, duties[p])
  {
  }

  /** The teacher called `name` holds no duty that can spare a class. */
  ghost predicate Idle(names: seq<string>, l: Ledger, name: string)
    requires |names| == |l.lists| && name in l.byTeacher
  {
    forall p :: 0 <= p < |l.byTeacher[name]| ==> !Spare(names, l.lists, l.byTeacher[name][p])
  }

  /** The repair of course `g` moves a class only when its list is empty and some teacher
      offers one; course `g` then holds exactly that teacher's one class, the donor course
      keeps a non-empty list and gets its class back, and every other course is untouched. */
  lemma {:induction false} RepairEffect(order: seq<Teacher>, names: seq<string>, l: Ledger, g: nat)
    requires Kept(order, names, l) && g < |names|
    ensures var r := Repair(order, names, l, g);
            match Choice(order, names, l, g)
            case None => r == l
            case Some((i, q)) =>
              var t, y := order[i], l.byTeacher[order[i].name][q];
              && IndexOf(names, y.course).Some?
              && var d := IndexOf(names, y.course).value;
              && d != g && |r.lists| == |names| && |r.needs| == |names|
              && r.lists[g] == [Allot(t.name, t.lang, 1)] && r.needs[g] == l.needs[g] - 1
              && r.lists[d] != [] && r.needs[d] == l.needs[d] + 1
              && forall k :: 0 <= k < |names| && k != g && k != d ==> r.lists[k] == l.lists[k] && r.needs[k] == l.needs[k]
  {
    if Choice(order, names, l, g).Some? {
      var (i, q) := Choice(order, names, l, g).value;
      Donation(order, names, l, g, i, q);
      var t, y := order[i], l.byTeacher[order[i].name][q];
      var d := IndexOf(names, y.course).value;
      ShiftShape(names, l, g, d, t, y.classes);
      var a := Allot(t.name, t.lang, y.classes);
      assert |RemoveFirst(l.lists[d], a)| == |l.lists[d]| - 1;
    }
  }

  /** Course `g` ends up with a teacher exactly when it had one or some teacher who lists it
      holds a duty that can spare a class. */
  lemma {:induction false} RepairCovers(order: seq<Teacher>, names: seq<string>, l: Ledger, g: nat)
    requires Kept(order, names, l) && g < |names|
    ensures Repair(order, names, l, g).lists[g] != []
            <==> l.lists[g] != [] || exists i :: 0 <= i < |order| && names[g] in order[i].preferredCourses
                                                && order[i].name in l.byTeacher && !Idle(names, l, order[i].name)
  {
    KeptKeys(order, names, l);
    RepairEffect(order, names, l, g);
    forall i | 0 <= i < |order|
      ensures Offers(order, names, l.lists, l.byTeacher, g, i)
              <==> names[g] in order[i].preferredCourses && !Idle(names, l, order[i].name)
    {
      FirstSpareSome(names, l.lists, l.byTeacher[order[i].name]);
    }
  }

  /** The repair of one course keeps the repair phase's invariant. */
  lemma {:induction false} RepairSound(order: seq<Teacher>, names: seq<string>, init: seq<int>, loads: seq<int>, l: Ledger, g: nat)
    requires Sound(order, names, init, loads, l) && g < |names|
    ensures Sound(order, names, init, loads, Repair(order, names, l, g))
  {
    if Choice(order, names, l, g).Some? {
      var (i, q) := Choice(order, names, l, g).value;
      Donation(order, names, l, g, i, q);
      var y := l.byTeacher[order[i].name][q];
      ShiftSound(order, names, init, loads, l, g, IndexOf(names, y.course).value, i, y.classes);
    }
  }

  /** A teacher with no duty to spare still has none after a move: the move gives no
      teacher a new duty except its donor, and lists only grow on the course it fills. */
  lemma {:induction false} ShiftIdle(order: seq<Teacher>, names: seq<string>, l: Ledger, g: nat, d: nat, i: nat, n: int, j: nat)
    requires Kept(order, names, l) && Movable(order, names, l, g, d, i, n) && j < |order|
    requires order[j].name in l.byTeacher && Idle(names, l, order[j].name)
    requires Spare(names, l.lists, Duty(names[d], order[i].lang, n))
    ensures var s := Shift(names, l, g, d, order[i], n);
            order[j].name in s.byTeacher && |s.lists| == |names| && Idle(names, s, order[j].name)
  {
    var t, name := order[i], order[j].name;
    var s := Shift(names, l, g, d, t, n);
    ShiftShape(names, l, g, d, t, n);
    ShiftTables(names, l, g, d, t, n);
    var y := Duty(names[d], t.lang, n);
    var p0 :| 0 <= p0 < |l.byTeacher[t.name]| && l.byTeacher[t.name][p0] == y;
    assert name != t.name;
    assert s.byTeacher[name] == l.byTeacher[name];
    forall p | 0 <= p < |s.byTeacher[name]| ensures !Spare(names, s.lists, s.byTeacher[name][p]) {
      var x := s.byTeacher[name][p];
      assert !Spare(names, l.lists, x);
      assert x in multiset(Duties(names, l.lists, name)) by {
        assert x in multiset(l.byTeacher[name]);
        assert name == TeacherNames(order)[j];
      }
      var k := DutySource(names, l.lists, name, x);
      IndexOfDistinct(names, k);
      assert |s.lists[k]| <= |l.lists[k]| by {
        if k == d {
          assert |RemoveFirst(l.lists[d], Allot(t.name, t.lang, n))| == |l.lists[d]| - 1;
        }
      }
    }
  }

  /** A teacher with no duty to spare still has none after the repair of a course. */
  lemma {:induction false} RepairIdle(order: seq<Teacher>, names: seq<string>, l: Ledger, g: nat, j: nat)
    requires Kept(order, names, l) && g < |names| && j < |order|
    requires order[j].name in l.byTeacher && Idle(names, l, order[j].name)
    ensures var r := Repair(order, names, l, g);
            order[j].name in r.byTeacher && |r.lists| == |names| && Idle(names, r, order[j].name)
  {
    if Choice(order, names, l, g).Some? {
      var (i, q) := Choice(order, names, l, g).value;
      Donation(order, names, l, g, i, q);
      var y := l.byTeacher[order[i].name][q];
      ShiftIdle(order, names, l, g, IndexOf(names, y.course).value, i, y.classes, j);
    }
  }

  /** Courses `0 .. k-1` have been repaired: each one still without a teacher has no
      teacher who lists it and holds a duty that can spare a class. */
  ghost predicate Covered(order: seq<Teacher>, names: seq<string>, l: Ledger, k: nat)
  {
    |l.lists| == |names| && k <= |names|
    && forall g, i :: (0 <= g < k && 0 <= i < |order| && l.lists[g] == [] && names[g] in order[i].preferredCourses
                       && order[i].name in l.byTeacher) ==> Idle(names, l, order[i].name)
  }

  /** The repair of course `k` extends the covered prefix by one. */
  lemma {:induction false} RepairCovered(order: seq<Teacher>, names: seq<string>, l: Ledger, k: nat)
    requires Kept(order, names, l) && k < |names| && Covered(order, names, l, k)
    ensures Covered(order, names, Repair(order, names, l, k), k + 1)
  {
    var r := Repair(order, names, l, k);
    forall g, i | 0 <= g < k + 1 && 0 <= i < |order| && r.lists[g] == [] && names[g] in order[i].preferredCourses
                  && order[i].name in r.byTeacher
      ensures Idle(names, r, order[i].name)
    {
      RepairStillEmpty(order, names, l, k, g);
      KeptKeys(order, names, l);
      if g == k {
        RepairCovers(order, names, l, k);
      }
      RepairIdle(order, names, l, k, i);
    }
  }

  /** A course without a teacher after the repair of course `k` had none before it. */
  lemma {:induction false} RepairStillEmpty(order: seq<Teacher>, names: seq<string>, l: Ledger, k: nat, g: nat)
    requires Kept(order, names, l) && k < |names| && g < |names|
    ensures Repair(order, names, l, k).lists[g] == [] ==> l.lists[g] == []
  {
    RepairEffect(order, names, l, k);
  }

  /** The repair phase from course `k` on, course after course (utils/course.py, line 51). */
  function Reassigned(order: seq<Teacher>, names: seq<string>, l: Ledger, k: nat): (r: Ledger)
    requires Kept(order, names, l) && k <= |names|
    ensures Kept(order, names, r)
    decreases |names| - k
  {
    if k == |names| then l else Reassigned(order, names, Repair(order, names, l, k), k + 1)
  }

  lemma {:induction false} ReassignedSound(order: seq<Teacher>, names: seq<string>, init: seq<int>, loads: seq<int>,
                                           l: Ledger, k: nat)
    requires Sound(order, names, init, loads, l) && k <= |names|
    ensures Sound(order, names, init, loads, Reassigned(order, names, l, k))
    decreases |names| - k
  {
    if k < |names| {
      var r := Repair(order, names, l, k);
      RepairSound(order, names, init, loads, l, k);
      ReassignedSound(order, names, init, loads, r, k + 1);
      assert Reassigned(order, names, l, k) == Reassigned(order, names, r, k + 1);
    } else {
      assert Reassigned(order, names, l, k) == l;
    }
  }

  /** A course that has a teacher keeps one. */
  lemma {:induction false} ReassignedFilled(order: seq<Teacher>, names: seq<string>, l: Ledger, k: nat, c: nat)
    requires Kept(order, names, l) && k <= |names| && c < |names| && l.lists[c] != []
    ensures Reassigned(order, names, l, k).lists[c] != []
    decreases |names| - k
  {
    if k < |names| {
      var r := Repair(order, names, l, k);
      assert r.lists[c] != [] by {
        RepairEffect(order, names, l, k);
      }
      ReassignedFilled(order, names, r, k + 1, c);
      assert Reassigned(order, names, l, k) == Reassigned(order, names, r, k + 1);
    } else {
      assert Reassigned(order, names, l, k) == l;
    }
  }

  /** Once all courses are repaired, no course is left without a teacher while some teacher
      who lists it holds a duty that can spare a class. */
  lemma {:induction false} ReassignedCovered(order: seq<Teacher>, names: seq<string>, l: Ledger, k: nat)
    requires Kept(order, names, l) && k <= |names| && Covered(order, names, l, k)
    ensures Covered(order, names, Reassigned(order, names, l, k), |names|)
    decreases |names| - k
  {
    if k < |names| {
      var r := Repair(order, names, l, k);
      RepairCovered(order, names, l, k);
      ReassignedCovered(order, names, r, k + 1);
      assert Reassigned(order, names, l, k) == Reassigned(order, names, r, k + 1);
    } else {
      assert Reassigned(order, names, l, k) == l;
    }
  }

  // ---------------------------------------------------------------------------
  // The repair phase (utils/course.py, lines 51-78), on the objects.

  /** One move, statement by statement: teacher `t` gives the empty course `g` one class of
      its allocation of `n` classes on course `d`. */
  method Move(courses: seq<Course>, g: nat, d: nat, t: Teacher, n: int,
              byTeacher0: map<string, seq<Duty>>, byCourse0: map<string, seq<Allot>>,
              ghost needs: seq<int>, ghost lists: seq<seq<Allot>>)
    returns (byTeacher: map<string, seq<Duty>>, byCourse: map<string, seq<Allot>>)
    requires Apart([], courses) && CoursesHold(courses, needs, lists)
    requires g < |courses| && d < |courses| && d != g
    requires var names := CourseNames(courses);
             && Allot(t.name, t.lang, n) in lists[d]
             && t.name in byTeacher0 && Duty(names[d], t.lang, n) in byTeacher0[t.name]
             && names[g] in byCourse0 && names[d] in byCourse0 && Allot(t.name, t.lang, n) in byCourse0[names[d]]
    modifies courses[g], courses[d]
    ensures var s := Shift(CourseNames(courses), Ledger(needs, lists, byTeacher0, byCourse0), g, d, t, n);
            CoursesHold(courses, s.needs, s.lists) && byTeacher == s.byTeacher && byCourse == s.byCourse
  {
    var donor, course := courses[d], courses[g];
    var a, one := Allot(t.name, t.lang, n), Allot(t.name, t.lang, 1);
    ghost var l := Ledger(needs, lists, byTeacher0, byCourse0);
    ShiftShape(CourseNames(courses), l, g, d, t, n);
    var mine := RemoveFirst(byTeacher0[t.name], Duty(donor.name, t.lang, n));
    if n > 1 {
      mine := mine + [Duty(donor.name, t.lang, n - 1)];
    }
    mine := mine + [Duty(course.name, t.lang, 1)];
    byTeacher := byTeacher0[t.name := mine];
    Transfer(courses, g, d, a, needs, lists);
    byCourse := byCourse0[course.name := byCourse0[course.name] + [one]];
    assert a in byCourse[donor.name];
    var left := RemoveFirst(byCourse[donor.name], a);
    if n > 1 {
      left := left + [Allot(t.name, t.lang, n - 1)];
    }
    byCourse := byCourse[donor.name := left];
    ghost var s := Shift(CourseNames(courses), l, g, d, t, n);
    ghost var keptDuty := if n > 1 then [Duty(donor.name, t.lang, n - 1)] else [];
    ghost var kept := if n > 1 then [Allot(t.name, t.lang, n - 1)] else [];
    assert mine == RemoveFirst(byTeacher0[t.name], Duty(donor.name, t.lang, n)) + keptDuty + [Duty(course.name, t.lang, 1)];
    assert left == RemoveFirst(byCourse0[course.name := byCourse0[course.name] + [one]][donor.name], a) + kept;
    assert s.byTeacher == byTeacher;
    assert s.byCourse == byCourse;
  }

  /** The courses' side of a move: the allocation `a` on course `d` loses one class, which
      course `g` gets, and the requirements follow. */
  method Transfer(courses: seq<Course>, g: nat, d: nat, a: Allot, ghost needs: seq<int>, ghost lists: seq<seq<Allot>>)
    requires Apart([], courses) && CoursesHold(courses, needs, lists)
    requires g < |courses| && d < |courses| && d != g && a in lists[d]
    modifies courses[g], courses[d]
    ensures var kept := if a.classes > 1 then [Allot(a.teacher, a.lang, a.classes - 1)] else [];
            CoursesHold(courses, needs[d := needs[d] + 1][g := needs[g] - 1],
                        lists[d := RemoveFirst(lists[d], a) + kept][g := lists[g] + [Allot(a.teacher, a.lang, 1)]])
  {
    var donor, course := courses[d], courses[g];
    donor.assignedTeachers := RemoveFirst(donor.assignedTeachers, a);
    if a.classes > 1 {
      donor.assignedTeachers := donor.assignedTeachers + [Allot(a.teacher, a.lang, a.classes - 1)];
    }
    course.assignedTeachers := course.assignedTeachers + [Allot(a.teacher, a.lang, 1)];
    donor.requiredClasses := donor.requiredClasses + 1;
    course.requiredClasses := course.requiredClasses - 1;
  }

  /** Teacher `i`'s duties in order (utils/course.py, lines 59-78): the first one that can
      spare a class gives it to the empty course `g`, and the search stops there. */
  method TryTeacher(order: seq<Teacher>, i: nat, courses: seq<Course>, g: nat,
                    byTeacher0: map<string, seq<Duty>>, byCourse0: map<string, seq<Allot>>,
                    ghost needs: seq<int>, ghost lists: seq<seq<Allot>>)
    returns (moved: bool, byTeacher: map<string, seq<Duty>>, byCourse: map<string, seq<Allot>>,
             ghost needs': seq<int>, ghost lists': seq<seq<Allot>>)
    requires Apart([], courses) && CoursesHold(courses, needs, lists)
    requires Kept(order, CourseNames(courses), Ledger(needs, lists, byTeacher0, byCourse0))
    requires g < |courses| && i < |order| && lists[g] == [] && courses[g].name in order[i].preferredCourses
    requires order[i].name in byTeacher0
    modifies courses
    ensures CoursesHold(courses, needs', lists')
    ensures var names, l := CourseNames(courses), Ledger(needs, lists, byTeacher0, byCourse0);
            match FirstSpare(names, lists, byTeacher0[order[i].name], 0)
            case None => !moved && Ledger(needs', lists', byTeacher, byCourse) == l
            case Some(q) => moved && Ledger(needs', lists', byTeacher, byCourse) == MoveAt(order, names, l, g, i, q)
  {
    var teacher := order[i];
    ghost var names, l := CourseNames(courses), Ledger(needs, lists, byTeacher0, byCourse0);
    var duties := byTeacher0[teacher.name];
    moved, byTeacher, byCourse, needs', lists' := false, byTeacher0, byCourse0, needs, lists;
    var p: nat := 0;
    while p < |duties| && !moved
      invariant p <= |duties| && CoursesHold(courses, needs', lists')
      invariant !moved ==> Ledger(needs', lists', byTeacher, byCourse) == l
                           && FirstSpare(names, lists, duties, 0) == FirstSpare(names, lists, duties, p)
      invariant moved ==> FirstSpare(names, lists, duties, 0) == Some(p - 1)
                          && Ledger(needs', lists', byTeacher, byCourse) == MoveAt(order, names, l, g, i, p - 1)
      decreases |duties| - p
    {
      var x := duties[p];
      var source := IndexOf(CourseNames(courses), x.course);
      var spare := x.classes > 1 || (source.Some? && |courses[source.value].assignedTeachers| > 1);
      assert spare == Spare(names, lists, x);
      if spare {
        byTeacher, byCourse, needs', lists' := Give(order, i, courses, g, p, byTeacher, byCourse, needs, lists);
        moved := true;
      }
      p := p + 1;
    }
  }

  /** Duty `q` of teacher `i` gives one class to the empty course `g`. */
  method Give(order: seq<Teacher>, i: nat, courses: seq<Course>, g: nat, q: nat,
              byTeacher0: map<string, seq<Duty>>, byCourse0: map<string, seq<Allot>>,
              ghost needs: seq<int>, ghost lists: seq<seq<Allot>>)
    returns (byTeacher: map<string, seq<Duty>>, byCourse: map<string, seq<Allot>>,
             ghost needs': seq<int>, ghost lists': seq<seq<Allot>>)
    requires Apart([], courses) && CoursesHold(courses, needs, lists)
    requires Kept(order, CourseNames(courses), Ledger(needs, lists, byTeacher0, byCourse0))
    requires g < |courses| && i < |order| && lists[g] == [] && courses[g].name in order[i].preferredCourses
    requires order[i].name in byTeacher0 && q < |byTeacher0[order[i].name]|
    modifies courses
    ensures CoursesHold(courses, needs', lists')
    ensures Ledger(needs', lists', byTeacher, byCourse)
            == MoveAt(order, CourseNames(courses), Ledger(needs, lists, byTeacher0, byCourse0), g, i, q)
  {
    var teacher := order[i];
    ghost var names, l := CourseNames(courses), Ledger(needs, lists, byTeacher0, byCourse0);
    var x := byTeacher0[teacher.name][q];
    Donation(order, names, l, g, i, q);
    var d := IndexOf(CourseNames(courses), x.course).value;
    ShiftShape(names, l, g, d, teacher, x.classes);
    byTeacher, byCourse := Move(courses, g, d, teacher, x.classes, byTeacher0, byCourse0, needs, lists);
    ghost var s := MoveAt(order, names, l, g, i, q);
    needs', lists' := s.needs, s.lists;
  }

  /** The repair of course `g` (utils/course.py, lines 52-78): an empty course asks the
      teachers in processing order until one of them gives it a class. */
  method RepairCourse(order: seq<Teacher>, courses: seq<Course>, g: nat,
                      byTeacher0: map<string, seq<Duty>>, byCourse0: map<string, seq<Allot>>,
                      ghost needs: seq<int>, ghost lists: seq<seq<Allot>>)
    returns (byTeacher: map<string, seq<Duty>>, byCourse: map<string, seq<Allot>>,
             ghost needs': seq<int>, ghost lists': seq<seq<Allot>>)
    requires Apart([], courses) && CoursesHold(courses, needs, lists) && g < |courses|
    requires Kept(order, CourseNames(courses), Ledger(needs, lists, byTeacher0, byCourse0))
    modifies courses
    ensures CoursesHold(courses, needs', lists')
    ensures Ledger(needs', lists', byTeacher, byCourse)
            == Repair(order, CourseNames(courses), Ledger(needs, lists, byTeacher0, byCourse0), g)
  {
    ghost var names, l := CourseNames(courses), Ledger(needs, lists, byTeacher0, byCourse0);
    KeptKeys(order, names, l);
    byTeacher, byCourse, needs', lists' := byTeacher0, byCourse0, needs, lists;
    var course := courses[g];
    if course.assignedTeachers == [] {
      var ti := 0;
      while ti < |order| && course.assignedTeachers == []
        invariant ti <= |order| && CoursesHold(courses, needs', lists')
        invariant lists'[g] == [] ==> Ledger(needs', lists', byTeacher, byCourse) == l
                                      && Choice(order, names, l, g) == Donor(order, names, lists, byTeacher0, g, ti)
        invariant lists'[g] != [] ==> Ledger(needs', lists', byTeacher, byCourse) == Repair(order, names, l, g)
        decreases |order| - ti
      {
        var teacher := order[ti];
        DonorStep(order, names, l, g, ti);
        if course.name in teacher.preferredCourses {
          var moved;
          moved, byTeacher, byCourse, needs', lists' := TryTeacher(order, ti, courses, g, byTeacher, byCourse, needs', lists');
        }
        ti := ti + 1;
      }
    }
  }

  /** One teacher's turn in the repair of the empty course `g`: one who does not offer a
      class passes the turn on, one who does makes the repair. */
  lemma {:induction false} DonorStep(order: seq<Teacher>, names: seq<string>, l: Ledger, g: nat, ti: nat)
    requires Kept(order, names, l) && g < |names| && ti < |order| && l.lists[g] == []
    requires forall j :: 0 <= j < |order| ==> order[j].name in l.byTeacher
    requires Choice(order, names, l, g) == Donor(order, names, l.lists, l.byTeacher, g, ti)
    ensures var duties := l.byTeacher[order[ti].name];
            && (names[g] !in order[ti].preferredCourses || FirstSpare(names, l.lists, duties, 0).None? ==>
                 Choice(order, names, l, g) == Donor(order, names, l.lists, l.byTeacher, g, ti + 1))
            && (names[g] in order[ti].preferredCourses && FirstSpare(names, l.lists, duties, 0).Some? ==>
                 var r := Repair(order, names, l, g);
                 r == MoveAt(order, names, l, g, ti, FirstSpare(names, l.lists, duties, 0).value) && r.lists[g] != [])
  {
    RepairEffect(order, names, l, g);
  }

  /** The repair phase over all courses in order (utils/course.py, line 51). */
  method Reassign(order: seq<Teacher>, courses: seq<Course>,
                  byTeacher0: map<string, seq<Duty>>, byCourse0: map<string, seq<Allot>>,
                  ghost needs: seq<int>, ghost lists: seq<seq<Allot>>)
    returns (byTeacher: map<string, seq<Duty>>, byCourse: map<string, seq<Allot>>,
             ghost needs': seq<int>, ghost lists': seq<seq<Allot>>)
    requires Apart([], courses) && CoursesHold(courses, needs, lists)
    requires Kept(order, CourseNames(courses), Ledger(needs, lists, byTeacher0, byCourse0))
    modifies courses
    ensures CoursesHold(courses, needs', lists')
    ensures Ledger(needs', lists', byTeacher, byCourse)
            == Reassigned(order, CourseNames(courses), Ledger(needs, lists, byTeacher0, byCourse0), 0)
  {
    ghost var names, l := CourseNames(courses), Ledger(needs, lists, byTeacher0, byCourse0);
    byTeacher, byCourse, needs', lists' := byTeacher0, byCourse0, needs, lists;
    ghost var trail := [l];
    for g := 0 to |courses|
      invariant CoursesHold(courses, needs', lists')
      invariant |trail| == g + 1 && Trail(order, names, trail) && trail[0] == l
      invariant trail[g] == Ledger(needs', lists', byTeacher, byCourse)
    {
      byTeacher, byCourse, needs', lists' := RepairCourse(order, courses, g, byTeacher, byCourse, needs', lists');
      TrailSnoc(order, names, trail);
      trail := trail + [Ledger(needs', lists', byTeacher, byCourse)];
    }
    TrailReassigned(order, names, trail, 0);
  }

  /** The books after each course of the repair phase, from the first: every entry can run,
      and each is the repair of the course before it. */
  ghost predicate Trail(order: seq<Teacher>, names: seq<string>, trail: seq<Ledger>)
  {
    && 0 < |trail| <= |names| + 1
    && (forall j :: 0 <= j < |trail| ==> Kept(order, names, trail[j]))
    && forall j :: 0 <= j < |trail| - 1 ==> trail[j + 1] == Repair(order, names, trail[j], j)
  }

  lemma {:induction false} TrailSnoc(order: seq<Teacher>, names: seq<string>, trail: seq<Ledger>)
    requires Trail(order, names, trail) && |trail| <= |names|
    ensures Trail(order, names, trail + [Repair(order, names, trail[|trail| - 1], |trail| - 1)])
  {
    var t := trail + [Repair(order, names, trail[|trail| - 1], |trail| - 1)];
    forall j | 0 <= j < |t| - 1 ensures t[j + 1] == Repair(order, names, t[j], j) {
      assert t[j] == trail[j];
    }
  }

  /** A full trail ends where the repair phase from any of its entries ends. */
  lemma {:induction false} TrailReassigned(order: seq<Teacher>, names: seq<string>, trail: seq<Ledger>, j: nat)
    requires Trail(order, names, trail) && |trail| == |names| + 1 && j < |trail|
    ensures Reassigned(order, names, trail[j], j) == trail[|names|]
    decreases |names| - j
  {
    if j < |names| {
      var next := Repair(order, names, trail[j], j);
      assert trail[j + 1] == next;
      TrailReassigned(order, names, trail, j + 1);
      assert Reassigned(order, names, trail[j], j) == Reassigned(order, names, next, j + 1);
    } else {
      assert Reassigned(order, names, trail[j], j) == trail[j];
    }
  }

  /** Sorting keeps the teachers' names distinct and their counts untouched. */
  lemma {:induction false} WidthReady(teachers: seq<Teacher>)
    requires Distinct(TeacherNames(teachers))
    requires forall i :: 0 <= i < |teachers| ==> teachers[i].assignedClasses == 0
    ensures Distinct(TeacherNames(ByWidth(teachers)))
    ensures forall i :: 0 <= i < |ByWidth(teachers)| ==> ByWidth(teachers)[i] in teachers
    ensures forall i :: 0 <= i < |ByWidth(teachers)| ==> ByWidth(teachers)[i].assignedClasses == 0
  {
    var order := ByWidth(teachers);
    ApartByName(teachers, []);
    assert Distinct(teachers);
    DistinctSubMultiset(order, teachers);
    forall i | 0 <= i < |order| ensures order[i] in teachers && order[i].assignedClasses == 0 {
      assert order[i] in multiset(order);
    }
    forall i, j | 0 <= i < j < |order| ensures TeacherNames(order)[i] != TeacherNames(order)[j] {
      assert order[i] in multiset(teachers) && order[j] in multiset(teachers);
      var a :| 0 <= a < |teachers| && teachers[a] == order[i];
      var b :| 0 <= b < |teachers| && teachers[b] == order[j];
      NamesTellApart(teachers);
    }
  }

  /** `teacher_course_matching` (utils/course.py, lines 20-81): the greedy phase over the
      teachers sorted by how few courses they list, the two tables, and the repair phase.
      The ghost results are the courses' starting requirements, the books after the greedy
      phase, the teachers' final counts and the final books. */
  method TeacherCourseMatching(teachers: seq<Teacher>, courses: seq<Course>)
    returns (byTeacher: map<string, seq<Duty>>, byCourse: map<string, seq<Allot>>,
             ghost order: seq<Teacher>, ghost init: seq<int>, ghost needs1: seq<int>,
             ghost lists1: seq<seq<Allot>>, ghost loads: seq<int>, ghost start: Ledger, ghost final: Ledger)
    requires Distinct(TeacherNames(teachers)) && Distinct(CourseNames(courses))
    requires forall i :: 0 <= i < |teachers| ==> teachers[i].assignedClasses == 0
    requires forall k :: 0 <= k < |courses| ==> courses[k].assignedTeachers == []
    modifies teachers, courses
    ensures order == ByWidth(teachers)
    ensures |init| == |courses| && forall k :: 0 <= k < |courses| ==> init[k] == old(courses[k].requiredClasses)
    ensures TeachersHold(order, loads) && CoursesHold(courses, final.needs, final.lists)
    ensures byTeacher == final.byTeacher && byCourse == final.byCourse
    ensures Greedy(order, CourseNames(courses), init, needs1, lists1, loads)
    ensures Tally(needs1, lists1, loads) == Sweep(order, CourseNames(courses), Start(init, |order|), 0)
    ensures forall i :: 0 <= i < |order| ==> Sated(order, CourseNames(courses), Tally(needs1, lists1, loads), i)
    ensures start.needs == needs1 && start.lists == lists1
    ensures Tabulated(order, CourseNames(courses), lists1, start.byTeacher, start.byCourse)
    ensures Sound(order, CourseNames(courses), init, loads, start)
    ensures final == Reassigned(order, CourseNames(courses), start, 0)
    ensures Sound(order, CourseNames(courses), init, loads, final)
    ensures Covered(order, CourseNames(courses), final, |courses|)
    ensures forall k :: 0 <= k < |courses| && lists1[k] != [] ==> final.lists[k] != []
  {
    var sorted := ByWidth(teachers);
    order := sorted;
    WidthReady(teachers);
    forall o | o in sorted ensures o in teachers {
      var i :| 0 <= i < |sorted| && sorted[i] == o;
    }
    init, needs1, lists1, loads := Allocate(sorted, courses);
    byTeacher, byCourse, start, final := Conclude(sorted, courses, init, needs1, lists1, loads);
  }

  /** What the two tables and the repair phase leave after the greedy phase's books
      `needs`/`lists`: `start` is the books with the freshly built tables, `final` the repair
      phase run from it, and the repair keeps the books balanced, gives every course a
      teacher whenever some teacher lists it and can spare a class, and empties no list. */
  ghost predicate Settled(order: seq<Teacher>, names: seq<string>, init: seq<int>, needs: seq<int>,
                          lists: seq<seq<Allot>>, loads: seq<int>, byTeacher: map<string, seq<Duty>>,
                          byCourse: map<string, seq<Allot>>, start: Ledger, final: Ledger)
  {
    && start.needs == needs && start.lists == lists
    && Tabulated(order, names, lists, start.byTeacher, start.byCourse)
    && Sound(order, names, init, loads, start)
    && final == Reassigned(order, names, start, 0)
    && byTeacher == final.byTeacher && byCourse == final.byCourse
    && Sound(order, names, init, loads, final)
    && Covered(order, names, final, |names|)
    && forall k :: 0 <= k < |names| && lists[k] != [] ==> final.lists[k] != []
  }

  /** `Settle`, which leaves the teachers' counts as they are. */
  method Conclude(order: seq<Teacher>, courses: seq<Course>, ghost init: seq<int>,
                  ghost needs: seq<int>, ghost lists: seq<seq<Allot>>, ghost loads: seq<int>)
    returns (byTeacher: map<string, seq<Duty>>, byCourse: map<string, seq<Allot>>, ghost start: Ledger, ghost final: Ledger)
    requires Distinct(TeacherNames(order)) && Distinct(CourseNames(courses))
    requires CoursesHold(courses, needs, lists) && TeachersHold(order, loads)
    requires Greedy(order, CourseNames(courses), init, needs, lists, loads)
    modifies courses
    ensures TeachersHold(order, loads) && CoursesHold(courses, final.needs, final.lists)
    ensures Settled(order, CourseNames(courses), init, needs, lists, loads, byTeacher, byCourse, start, final)
  {
    byTeacher, byCourse, start, final := Settle(order, courses, init, needs, lists, loads);
  }

  /** The two tables and the repair phase, after the greedy phase. */
  method Settle(order: seq<Teacher>, courses: seq<Course>, ghost init: seq<int>,
                ghost needs: seq<int>, ghost lists: seq<seq<Allot>>, ghost loads: seq<int>)
    returns (byTeacher: map<string, seq<Duty>>, byCourse: map<string, seq<Allot>>, ghost start: Ledger, ghost final: Ledger)
    requires Distinct(TeacherNames(order)) && Distinct(CourseNames(courses))
    requires CoursesHold(courses, needs, lists)
    requires Greedy(order, CourseNames(courses), init, needs, lists, loads)
    modifies courses
    ensures CoursesHold(courses, final.needs, final.lists)
    ensures Settled(order, CourseNames(courses), init, needs, lists, loads, byTeacher, byCourse, start, final)
  {
    ghost var names := CourseNames(courses);
    byTeacher, byCourse := Tabulate(order, courses, lists);
    ghost var l := Ledger(needs, lists, byTeacher, byCourse);
    start := l;
    Handover(order, names, init, loads, l);
    ApartByName([], courses);
    ghost var needs', lists';
    byTeacher, byCourse, needs', lists' := Reassign(order, courses, byTeacher, byCourse, needs, lists);
    final := Ledger(needs', lists', byTeacher, byCourse);
    Closing(order, names, init, loads, l);
  }

  /** The greedy phase's books and the freshly built tables are what the repair phase starts from. */
  lemma {:induction false} Handover(order: seq<Teacher>, names: seq<string>, init: seq<int>, loads: seq<int>, l: Ledger)
    requires Distinct(TeacherNames(order)) && Distinct(names)
    requires Greedy(order, names, init, l.needs, l.lists, loads)
    requires Tabulated(order, names, l.lists, l.byTeacher, l.byCourse)
    ensures Sound(order, names, init, loads, l) && Covered(order, names, l, 0)
  {
    TabulatedMirrored(order, names, l.lists, l.byTeacher, l.byCourse);
  }

  /** What the whole repair phase achieves. */
  lemma {:induction false} Closing(order: seq<Teacher>, names: seq<string>, init: seq<int>, loads: seq<int>, l: Ledger)
    requires Sound(order, names, init, loads, l) && Covered(order, names, l, 0)
    ensures var r := Reassigned(order, names, l, 0);
            && Sound(order, names, init, loads, r) && Covered(order, names, r, |names|)
            && forall k :: 0 <= k < |names| && l.lists[k] != [] ==> r.lists[k] != []
  {
    ReassignedSound(order, names, init, loads, l, 0);
    ReassignedCovered(order, names, l, 0);
    forall k | 0 <= k < |names| && l.lists[k] != [] ensures Reassigned(order, names, l, 0).lists[k] != [] {
      ReassignedFilled(order, names, l, 0, k);
    }
  }
}
