# MAAS matching and scheduling core, in Dafny

MAAS is a small Streamlit application for a school's admin office. Its core is a handful of
Python functions that match students to exchange places, teachers to courses, and proctors to
exams. This project models those functions and proves what their results satisfy.

- **Student exchange placement** (`utils/sep.py`). Students propose to schools in order of
  preference. A school keeps its best students by GPA, up to its quota. This is
  student-proposing deferred acceptance.
  - `utils/models.py`, `utils/matching_algorithm.py` and `app.py` (lines 8-54) hold the same
    classes and the same loop, so one model covers all four.
  - Module `Sep` holds the classes as Dafny classes and the loop as a method.
  - Module `SepSpec` describes one iteration as a function on values and proves the loop
    invariant and weak stability.
  - Module `Roster` covers the append-sort-pop of `consider`; `Text` covers `str.strip`.
- **Programme-level deferred acceptance** (`utils/sep_nus.py`).
  - The school a student proposes to is a group of programmes. Each programme screens the
    student by six rules, in order, and ranks them by total score.
  - Every proposal, and every student handed back, becomes a row of the matching-process log.
  - `Nus` holds the objects and the loop. `NusSpec` holds the state machine and its invariant.
  - `NusSpec.TrailsAgree` proves that the run is determined by its input.
- **Teacher-course matching** (`utils/course.py`), module `Courses`.
  - Teachers are sorted by how few courses they list. A greedy phase then hands each teacher
    classes until their requirement is met.
  - The result is tabulated into two tables.
  - A repair phase moves single classes to courses still without a teacher.
  - `Courses.Sweep` is the greedy phase as a function. `Courses.Reassigned` is the repair phase
    as a function. The methods on the objects are proved equal to them.
- **Proctor assignment, first version** (`utils/exam.py`), module `Exam`.
- **Proctor assignment at SCU** (`utils/exam_scu.py`), modules `ScuIds`, `ScuPlan`, `ScuPass`,
  `ScuLaws` and `ExamScu`. It has four stages:
  1. classes are grouped into exams by id;
  2. the exams are listed and sorted;
  3. three passes over the list: teaching main proctors, non-teaching main proctors, joint
     proctors;
  4. the methods in `ExamScu` work on the class objects and are proved equal to the function
     `ScuPass.Proctors`.
- **Proctor assignment, second SCU version** (`utils/exam_scu2.py`), modules `ScuTwo`,
  `ScuTwoLaws` and `ExamScuTwo`. It sorts teachers by workload, then runs a main pass and a
  joint pass.
- `Staff` models the `Teacher` class and the `can_be_proctor` rule that both SCU versions
  share. `Base` and `Order` hold list helpers and a stable sort.

The model follows the code as written, including behaviour that looks unintended.

- **The skip in the removal loops.** These loops remove elements from the list they iterate
  over:
  - `utils/exam_scu.py` lines 157-170 and 201-214;
  - `utils/exam_scu2.py` lines 72-85.

  So the teacher right after a removed one is never examined. Two neighbouring teachers with
  clashing main duties leave the second one in the list. `ScuLaws.MainTurnSkips` and
  `ScuTwoLaws.MainTurnSkips` state this.
- **The joint pool can include the exam's own main proctor.** The docstring of
  `utils/exam_scu2.py` (line 57) speaks of non-teaching teachers. Line 103, however, starts
  from every teacher, and the clash test only looks at other exams. So the exam's own main
  proctor can be drawn as its joint proctor. `ScuTwoLaws.OwnMainAvailable` states that the
  pool does not depend on the exam's own main entry.
- **Some groups of three get no id.** `utils/exam_scu.py` line 97-98 computes an id for a
  group of three classes with at most 60 students, but never writes it. Those classes keep no
  id, and the exam dictionary files them under `None` (`ScuIds.Unassigned`).
- **The repair phase can drive `required_classes` negative.** A course that asks for zero
  classes gets no teacher in the greedy phase (`utils/course.py` line 31). So its list stays
  empty, and the repair phase still gives it one class and lowers its requirement (line 73),
  to -1. `Courses.RepairEffect` states the exact change: `r.needs[g] == l.needs[g] - 1`, with
  no lower bound. The model keeps requirements as unbounded integers.

## Model

| member | source | states |
|---|---|---|
| Text.TrimLeft | utils/sep.py:5 | the result is a suffix of the input, starts with no white space, and only white space was dropped |
| Text.TrimRight | utils/sep.py:5 | the result is a prefix of the input, ends with no white space, and only white space was dropped |
| Text.Strip | utils/sep.py:5 | the result is a slice of the input, with white space only around it and none at either end |
| Text.StripIdempotent | utils/sep.py:5 | stripping twice equals stripping once |
| Text.Contains | utils/exam_scu.py:28-30 | `sub in s` holds exactly when some slice of `s` equals `sub` |
| Text.Split | utils/exam_scu2.py:119 | every piece of `s.split(sep)` is free of the separator, and there is at least one piece |
| Text.JoinSplit | utils/exam_scu2.py:119 | joining the pieces with the separator gives the string back |
| Text.SplitAppend | utils/exam_scu2.py:159 | appending a separator and a name free of it adds exactly that name as the last piece |
| Base.IndexOf | utils/sep.py:36 | the dictionary lookup finds the first position holding the key, and fails exactly when no position holds it |
| Base.RemoveFirst | utils/course.py:64 | `list.remove(x)` gives a list one shorter, with one `x` fewer as a multiset and nothing new |
| Base.RemoveFirstGone | utils/exam_scu.py:162 | removing an element from a list without repeats leaves a list without repeats and without that element |
| Base.Bump | utils/exam.py:55 | `d[k] = d.get(k, 0) + 1` steps key `k` by one and leaves every other key |
| Base.BumpSum | utils/exam.py:55 | bumping one key adds one to the sum of the values |
| Order.SortBy | utils/exam_scu.py:139 | the stable sort returns a permutation of its input (`Order.SortBySorted` proves it is in order) |
| Order.SortByStable | utils/exam_scu.py:139 | elements that compare level keep their input order |
| Order.ByKey | utils/exam.py:47 | the positions sorted by ascending key: each position once, in key order |
| Order.ByKeyStable | utils/exam.py:47 | positions with equal keys keep their input order |
| Roster.Insert | utils/sep.py:23-24 | inserting into a non-increasing list: one more entry, the multiset grows by the entry |
| Roster.InsertSorted | utils/sep.py:24 | inserting into a list sorted from high to low keeps it sorted |
| Roster.SortDesc | utils/sep.py:24 | `sort(reverse=True, key=gpa)` returns a permutation sorted from high to low |
| Roster.SortDescStable | utils/sep.py:24 | among entries with the same key the sort keeps the input order, as Python's stable sort does |
| Roster.SortDescOfSorted | utils/sep.py:24 | a list already sorted from high to low is left as it is |
| Roster.AdmitContract | utils/sep.py:22-27 | append-sort-pop keeps the roster sorted and within its quota; it pops exactly when the list overflows; kept plus popped is the old roster plus the newcomer |
| Roster.AdmitCount | utils/sep.py:22-27 | the same conservation, counted entry by entry |
| Roster.AdmitEvictsNewestMinimum | utils/sep.py:24-26 | the popped entry has the lowest key, and among the entries tied with it, it was appended last |
| Roster.AdmitRejectsLowestNewcomer | utils/sep.py:22-27 | a newcomer no better than any occupant of a full school is the one popped, and the occupants stay |
| Roster.AdmitHolds | utils/sep.py:22-27 | a newcomer that is not popped is on the roster |
| Roster.AdmitRejectsNewcomer | utils/sep.py:25-26 | when the newcomer itself is popped, the occupants are unchanged as a multiset |
| Roster.AdmitKeepsFullAbove | utils/sep.py:22-27 | a school that is full of keys at least `g` stays so after any admission |
| Roster.AdmitPoppedFull | utils/sep.py:25-26 | a school that pops someone was full, and stays full of keys at least the popped one's |
| Sep.Student.constructor | utils/sep.py:2-6 | the preferences are stored stripped, and the cursor starts at 0 |
| Sep.Student.Propose | utils/sep.py:8-13 | returns the preference at the cursor and advances it; once the list is used up, returns nothing and leaves the cursor |
| Sep.School.Consider | utils/sep.py:22-27 | the roster is the old one plus the entry, sorted from high to low and cut to the quota; the entry popped is the lowest and newest of its key; something is popped exactly when the school was full |
| Sep.DeferredAcceptance | utils/sep.py:29-48 | either raises `KeyError` for a preference naming no school, or returns maps in which each student sits at one school at most; the rosters are sorted, within quota and weakly stable; names unassigned were turned down by every listed school |
| Sep.Serve | utils/sep.py:33-38 | one iteration on the objects equals `SepSpec.Step` on their values |
| Sep.Place | utils/sep.py:36-38 | the school considers the student, and the student popped, found by name, joins the back of the queue |
| Sep.Collect | utils/sep.py:40-48 | the result maps are `SepSpec.Assignments` and `SepSpec.Enrolled` of the final rosters |
| Sep.BuildResult | utils/sep.py:40-46 | each student name maps to the last school listing it, or None; each school name maps to its roster's names in order |
| Sep.EnrollRoster | utils/sep.py:44-46 | the occupants of one school, in roster order, are assigned that school and appended to its list |
| SepSpec.HeldAt | utils/sep.py:32-38 | a student holds a seat at the school of its latest proposal exactly when its entry is on that roster |
| SepSpec.Rejected | utils/sep.py:32-38 | counts the proposals that were turned down for good |
| SepSpec.StartInv | utils/sep.py:30 | the starting state, with every student queued in input order, satisfies the invariant |
| SepSpec.StepKeepsInv | utils/sep.py:32-38 | every iteration either raises `KeyError` for a preference naming no school, or keeps the invariant and decreases the measure; the lookup by name never fails |
| SepSpec.StepQueueFifo | utils/sep.py:33-38 | an iteration drops the head of the queue, keeps the rest in order, and appends at most one student |
| SepSpec.ExhaustedStaysOut | utils/sep.py:9-13 | a student neither queued nor seated has used up its list and never comes back |
| SepSpec.EvictedKnown | utils/sep.py:38 | the student a school pops is the proposer or one who held a seat there, so `students[name]` finds it |
| SepSpec.StepEquation | utils/sep.py:33-38 | an iteration with a proposal advances the cursor, updates one roster and queues the popped student |
| SepSpec.PopsFound | utils/sep.py:38 | under the invariant, whoever the target school pops is found by name |
| SepSpec.FinalPlacement | utils/sep.py:32-38 | once the queue is empty, each student holds a seat at its latest proposal or has proposed to every school it lists |
| SepSpec.RostersApart | utils/sep.py:32-38 | each student sits on at most one roster throughout the run |
| SepSpec.FinalStable | utils/sep.py:29-38 | once the queue is empty, no student prefers a school that has a free seat or seats someone with a lower GPA |
| SepSpec.HolderIsHeld | utils/sep.py:43-45 | the school the result assigns to a name is the school at which that student holds a seat |
| SepSpec.Assignments | utils/sep.py:40-45 | the keys are exactly the student names, and each name maps to the last roster listing it |
| SepSpec.AssignmentsFinal | utils/sep.py:40-45 | under the invariant, each student name maps to the school it holds a seat at, and to None when it holds none |
| SepSpec.Enrolled | utils/sep.py:41-46 | the keys are exactly the school names, and each maps to its roster's names |
| SepSpec.EnrolledAt | utils/sep.py:44-46 | each school's list is its roster's names, in roster order |
| NusSpec.Ineligible | utils/sep_nus.py:37-67 | returns the first rule the student fails, in source order, or none when the student is eligible |
| NusSpec.FirstFailedRule | utils/sep_nus.py:37-67 | each reason is given exactly when every earlier rule holds and its own fails; the minimum GPA reported is the programme's |
| NusSpec.Consider | utils/sep_nus.py:35-76 | an ineligible student is handed back with its reason, and the roster is untouched; an eligible one is admitted by append-sort-pop, with the quota row when something is popped |
| NusSpec.ConsiderEligible | utils/sep_nus.py:69-76 | an eligible student is admitted under the rules of `Roster.AdmitContract`, by total score |
| NusSpec.TryFromShape | utils/sep_nus.py:112-135 | the loop over the programmes changes at most the roster where it stops; the other rosters keep their entries, sorted, at the same length |
| NusSpec.TryFromEvents | utils/sep_nus.py:119-129 | the loop logs only rejection rows, one per entry handed back, each with its reason |
| NusSpec.TryFromRosters | utils/sep_nus.py:112-135 | for a student no roster lists, every roster stays sorted and within its quota |
| NusSpec.TryFromPool | utils/sep_nus.py:112-135 | the pool of admitted entries changes by exactly the proposer coming in and the displaced entry going out |
| NusSpec.StartInv | utils/sep_nus.py:79 | the starting state satisfies the invariant |
| NusSpec.StepExhaustedInv | utils/sep_nus.py:90-93 | an iteration whose student has no choice left drops it from the queue |
| NusSpec.StepProposes | utils/sep_nus.py:91-138 | an iteration with a proposal: the cursor advances, the log gains the proposal row and then the pass's rows, and the student re-queued is the proposer, nobody, or the one turned away |
| NusSpec.StepKeepsInv | utils/sep_nus.py:90-138 | every iteration keeps the invariant, never raises, and decreases the measure, so the loop ends |
| NusSpec.HeldOnce | utils/sep_nus.py:90-138 | no student holds places at two programmes |
| NusSpec.FinalPlacement | utils/sep_nus.py:90-138 | once the queue is empty, a student no programme holds has proposed to every choice it lists |
| NusSpec.HeldAt | utils/sep_nus.py:144-146 | a student's value in the assignment map is the ID of programme `p` exactly when `p` holds the student |
| NusSpec.FinalResult | utils/sep_nus.py:141-149 | the result maps built from the final rosters meet `ResultOk`: every key is known, each student maps to the programme holding it, and each programme to its roster |
| NusSpec.StepQueueFifo | utils/sep_nus.py:91-138 | an iteration drops the head of the queue, keeps the rest in order, and re-queues at most one student at the tail |
| NusSpec.StepLog | utils/sep_nus.py:95-129 | an iteration logs nothing when the student has no choice left; otherwise the proposal row, numbered from 1, and then only rejection rows with reasons |
| NusSpec.TrailExtend | utils/sep_nus.py:90-138 | a trail of loop states grows by the next iteration |
| NusSpec.TrailsMatch | utils/sep_nus.py:90-138 | two trails from the same input agree on every state they both reach |
| NusSpec.TrailsAgree | utils/sep_nus.py:90-149 | two trails from the same input that both end in an empty queue are equal, so the final rosters, cursors and log are fixed by the input |
| Nus.Student.Propose | utils/sep_nus.py:15-20 | returns the school of the choice at the cursor and advances it; once the list is used up, returns nothing and leaves the cursor |
| Nus.Program.Consider | utils/sep_nus.py:35-76 | the roster and the entry handed back are `NusSpec.Consider` for the semester of the last choice proposed |
| Nus.Program.Enter | utils/sep_nus.py:69-76 | append, a stable sort from high to low, and over the quota the pop of the last entry with the quota row |
| Nus.Program.Screen | utils/sep_nus.py:37-67 | the reason is `NusSpec.Ineligible` of the programme's rules and the student |
| Nus.DeferredAcceptance | utils/sep_nus.py:78-149 | returns the result maps and the log; the log and the objects' rosters and cursors are those of the last state of the unique trail; the maps meet `ResultOk` |
| Nus.Collect | utils/sep_nus.py:141-149 | the maps are built from the final rosters as the source builds them |
| Nus.Serve | utils/sep_nus.py:91-138 | one iteration on the objects equals `NusSpec.Step` on their values, log included |
| Nus.Proceed | utils/sep_nus.py:95-138 | logs the proposal, runs the programme loop and queues `extra`, as `NusSpec.Step` does |
| Nus.TryPrograms | utils/sep_nus.py:111-135 | the programme loop on the objects equals `NusSpec.TryFrom` |
| Nus.Offer | utils/sep_nus.py:113-135 | one turn of the programme loop: another school's programme is passed over; otherwise it considers the student, and what it hands back is logged |
| Nus.ConsiderAt | utils/sep_nus.py:115 | programme `j` considers the student, and the other programmes keep their rosters |
| Courses.ByWidth | utils/course.py:25 | the teachers sorted by how many courses they list: a permutation, in ascending order |
| Courses.ByWidthStable | utils/course.py:25 | teachers listing equally many courses keep their input order |
| Courses.Granted | utils/course.py:32-38 | an allocation keeps the table sizes; `Courses.GrantedIs` states the share and the three updates |
| Courses.Turn | utils/course.py:28-38 | a teacher's walk over its preferred courses keeps the table sizes; `Courses.TurnSated` and `Courses.TurnShrinks` state what it achieves |
| Courses.Sweep | utils/course.py:27-38 | the greedy phase over the teachers from the `i`-th on keeps the table sizes; `Courses.GreedySated` states its outcome |
| Courses.TurnShrinks | utils/course.py:28-38 | a turn only lowers requirements and touches no other teacher's count |
| Courses.TurnSated | utils/course.py:28-38 | after its turn a teacher has its required classes, or every course it lists from that point on is spent |
| Courses.TurnKeeps | utils/course.py:28-38 | a teacher's turn leaves it sated and every other teacher as sated as before |
| Courses.SweepSated | utils/course.py:27-38 | when every earlier teacher is sated, the rest of the greedy phase leaves every teacher sated |
| Courses.GreedySated | utils/course.py:27-38 | from any start, every teacher ends with its required classes, or with every course it lists spent |
| Courses.Opening | utils/course.py:25-27 | before the first allocation the books balance |
| Courses.GrantKeeps | utils/course.py:32-38 | one allocation keeps the books, with the share the smaller of the two needs |
| Courses.Grant | utils/course.py:32-38 | the allocation on the objects equals `Granted` |
| Courses.AllocateTeacher | utils/course.py:28-38 | one teacher's turn on the objects equals `Turn` and keeps the books |
| Courses.Allocate | utils/course.py:27-38 | the greedy phase on the objects equals `Sweep` from the starting requirements; afterwards every teacher is sated |
| Courses.Tabulate | utils/course.py:41-47 | the two tables hold exactly every course's list, filed under each teacher and under each course, in course order |
| Courses.TabulateCourse | utils/course.py:45-47 | after one more course, the tables hold the lists of every course so far |
| Courses.FirstSpare | utils/course.py:59-61 | the first duty, from a given point, that can give up a class: more than one class, or a course with more than one teacher |
| Courses.Donor | utils/course.py:54-61 | the first teacher in processing order who lists the course and holds a spare duty, with that duty's position |
| Courses.Choice | utils/course.py:52-61 | returns a donor only for an empty course |
| Courses.Repair | utils/course.py:52-78 | the repair of one course keeps the ledger well formed; `Courses.RepairEffect` states the move |
| Courses.MoveAt | utils/course.py:64-77 | moving one class to the empty course keeps the ledger well formed |
| Courses.RepairEffect | utils/course.py:52-78 | a class moves only when the course is empty and a donor exists; the course then holds exactly that one class, with its requirement one lower; the donor course keeps a teacher and gets one class of requirement back |
| Courses.RepairCovers | utils/course.py:52-78 | a course ends with a teacher exactly when it had one, or some teacher who lists it holds a spare duty |
| Courses.RepairSound | utils/course.py:52-78 | the repair of one course keeps the ledger's invariant: the tables mirror the lists, loads are unchanged, and the requirements balance |
| Courses.RepairIdle | utils/course.py:59-61 | a teacher with no spare duty still has none after a repair |
| Courses.RepairCovered | utils/course.py:51-78 | the repair of course `k` extends the covered prefix by one |
| Courses.RepairStillEmpty | utils/course.py:51-78 | a course without a teacher after a repair had none before it |
| Courses.Reassigned | utils/course.py:51-78 | the repair phase over the courses from `k` on keeps the ledger well formed; `Courses.ReassignedCovered` states its outcome |
| Courses.ReassignedSound | utils/course.py:51-78 | the repair phase keeps the books sound |
| Courses.ReassignedFilled | utils/course.py:51-78 | a course that has a teacher keeps one |
| Courses.ReassignedCovered | utils/course.py:51-78 | afterwards, no course lacks a teacher while some teacher who lists it holds a spare duty |
| Courses.Move | utils/course.py:64-77 | one move on the objects and tables, statement by statement, equals `MoveAt` |
| Courses.Transfer | utils/course.py:68-73 | the donor course drops the allocation and keeps it minus one class, when it had more than one; the empty course gets one class; both requirements follow |
| Courses.TryTeacher | utils/course.py:59-78 | the teacher's first duty that can spare a class gives it to the empty course, and the search stops there |
| Courses.Give | utils/course.py:61-78 | duty `q` of teacher `i` gives one class to the empty course, as `MoveAt` says |
| Courses.RepairCourse | utils/course.py:52-78 | the repair of one course on the objects equals `Repair` |
| Courses.Reassign | utils/course.py:51-78 | the repair phase on the objects equals `Reassigned` |
| Courses.TeacherCourseMatching | utils/course.py:20-81 | the whole function: sort, greedy phase equal to `Sweep` with every teacher sated, tables, and repair equal to `Reassigned`, after which every course coverable is covered and none loses its teacher |
| Courses.Settle | utils/course.py:41-78 | the tables equal the greedy lists, and the repair phase equals `Reassigned` from them |
| Courses.Conclude | utils/course.py:41-81 | `Settle`, with the teachers' counts left as they are |
| Exam.Teacher.constructor | utils/exam.py:4-10 | the unavailable dates are stored as a set, and all four counters start at zero |
| Exam.Section.constructor | utils/exam.py:27-33 | the class stores its fields, with no proctor entries |
| Exam.FreshBalanced | utils/exam.py:7-10 | a fresh teacher's counters are balanced |
| Exam.CreditMainBalanced | utils/exam.py:15-20 | a main duty taken only when `can_be_main_proctor` allows it keeps the books and the caps |
| Exam.CreditJointBalanced | utils/exam.py:22-23 | a joint duty taken only when `can_be_joint_proctor` allows it keeps the books and the caps |
| Exam.Teaching | utils/exam.py:45 | the positions of the teachers the class lists, in order |
| Exam.Others | utils/exam.py:46 | the positions of every other teacher, in order |
| Exam.Queue | utils/exam.py:46-47 | `other_teachers` sorted by joint count: positions of teachers the class does not list |
| Exam.QueueOrder | utils/exam.py:46-47 | `other_teachers` holds each teacher the class does not list, once each, in ascending joint count |
| Exam.QueueStable | utils/exam.py:47 | teachers with equal joint counts keep their input order |
| Exam.FirstMainLeast | utils/exam.py:52-59 | in a list ascending by key, the first fit teacher has the least key among its fit teachers |
| Exam.MainTurnNone | utils/exam.py:52-59 | when no teacher in the queue fits, the turn names nobody |
| Exam.MainTurnPicked | utils/exam.py:52-59 | the first fit teacher of the queue is the one named |
| Exam.FirstStageFacts | utils/exam.py:45-59 | for the economics faculty only, the first listed teacher who is free that day and allowed the main duty takes it |
| Exam.SecondStagePick | utils/exam.py:51-61 | only for the economics faculty, and only when no truthy name is set yet: the fit non-teaching teacher with the least joint count takes the main duty |
| Exam.SecondStageQueue | utils/exam.py:57-58 | afterwards `other_teachers` has lost exactly the teacher just named |
| Exam.JointStageFacts | utils/exam.py:64-73 | for the economics faculty only: the joint proctor is never a teacher the class lists nor the main proctor taken from `other_teachers`; it is the candidate with the least joint count, whenever one fits |
| Exam.ProctorFacts | utils/exam.py:43-73 | the three turns chain for one class, and the teacher named by the first turn is never the joint proctor |
| Exam.ProctorBalanced | utils/exam.py:43-73 | one class keeps every teacher's counters balanced |
| Exam.Proctored | utils/exam.py:43-73 | the books after the first `n` classes, with one entry per class and per teacher; `Exam.ProctorFacts` states each class's turns |
| Exam.MainGroup | utils/exam.py:52-59 | one group of the main pass on the objects equals its value model |
| Exam.JointGroup | utils/exam.py:65-71 | the joint pass on the objects equals `JointTurn` |
| Exam.AssignClass | utils/exam.py:44-73 | one class on the objects equals its value model |
| Exam.AssignProctors | utils/exam.py:36-73 | the teachers' counters and the classes' entries end as `Proctored` of all classes; counters that started balanced stay balanced |
| Exam.Advance | utils/exam.py:43-73 | the next class of the loop: the books after `c + 1` classes, balance kept |
| Staff.Teacher.constructor | utils/exam_scu.py:6-17 | the profile is the arguments, with the dates as a set; the counters start at zero with the given workload |
| Staff.ParseSmall | utils/exam_scu.py:30 | `int(p)` for at most two characters: optional space around an optional sign and one or two digits, and none otherwise |
| Staff.Proctorable | utils/exam_scu.py:19-33 | allowed exactly when no clause rules the teacher out; refused exactly when one does; raises exactly when every earlier clause passes, the evening note is present, and the time has no readable hour |
| Staff.HourOfDigits | utils/exam_scu.py:30 | a time starting with two digits has that hour, so the rule never raises on it |
| Staff.CreditMain | utils/exam_scu.py:176-178 | the workload and the main count rise by one, and the course is tallied |
| Staff.CreditJoint | utils/exam_scu.py:309-311 | the workload and the joint count rise by one, and the course is tallied |
| Staff.Workloads | utils/exam_scu.py:216 | the teachers' workloads, the sort key |
| ScuIds.Mates | utils/exam_scu.py:71 | exactly the classes below `n` with the same course, teachers and room, in class order |
| ScuIds.MatesAlike | utils/exam_scu.py:71 | alike classes have the same mates |
| ScuIds.Ranked | utils/exam_scu.py:100 | the stable sort of three classes by students: the same three, fewest first, ties in class order |
| ScuIds.Assign | utils/exam_scu.py:94-95 | every class of the group gets the id, and the others keep theirs |
| ScuIds.IdStep | utils/exam_scu.py:63-106 | one turn of the loop, for class `i`, keeps one id per class; `ScuIds.SmallTurn` states its effect |
| ScuIds.Ids | utils/exam_scu.py:63-106 | the ids after the first `n` turns, one per class; `ScuIds.IdsFinal` states the outcome |
| ScuIds.PairTurn | utils/exam_scu.py:92-95 | a group of two shares the id joining both class ids |
| ScuIds.TripleTurn | utils/exam_scu.py:99-103 | in a group of three with more than 60 students, the two smallest share an id and the third gets its own |
| ScuIds.SmallTurn | utils/exam_scu.py:70-106 | the turn of a small class without an id applies its group's outcome when the group is written to, and changes nothing otherwise |
| ScuIds.IdsOutcome | utils/exam_scu.py:63-106 | the loop invariant: after `n` turns every class holds its outcome |
| ScuIds.IdsFinal | utils/exam_scu.py:63-106 | every class ends with the id its group's outcome gives it |
| ScuIds.Unassigned | utils/exam_scu.py:96-98 | a class ends without an id exactly when it had none, holds at most 25 students, and its group is three classes of at most 60 students or four or more classes |
| ScuIds.Kept | utils/exam_scu.py:64-68 | a class that had an id, or holds more than 25 students, ends with one |
| ScuIds.PairShares | utils/exam_scu.py:92-95 | with exactly two alike classes, one small and without an id, both end with the id joining their class ids in class order |
| ScuIds.RankedThree | utils/exam_scu.py:100 | ranking three distinct classes gives the same three, each once |
| ScuIds.TripleSplits | utils/exam_scu.py:99-103 | three alike classes of more than 60 students: the two smallest (the earlier on a tie) share an id, and the largest has its own |
| ScuPlan.Keys | utils/exam_scu.py:110-114 | the `exams` dictionary's keys: every id of the first `n` classes once, and nothing else |
| ScuPlan.Members | utils/exam_scu.py:111-114 | the classes carrying a given id, in class order |
| ScuPlan.Sittings | utils/exam_scu.py:117-136 | one entry per key, in dictionary order, each built from its key's classes |
| ScuPlan.SittingsPartition | utils/exam_scu.py:110-136 | every class sits exactly one exam of the list, the one carrying its id |
| ScuPlan.SittingHolds | utils/exam_scu.py:110-136 | class `j` is in an entry exactly when it carries the entry's id |
| ScuPlan.Plan | utils/exam_scu.py:139 | `exam_classes_list` after the sort: a permutation of the entries, in order of room, date, time, course and descending students |
| ScuPlan.PlanStable | utils/exam_scu.py:139 | entries with equal keys keep their dictionary order |
| ScuPlan.PlanEntries | utils/exam_scu.py:117-139 | every entry is a non-empty run of classes carrying its id, described by the first of them |
| ScuPass.Sieve | utils/exam_scu.py:157-170 | walking the list while removing from it keeps only teachers of the list (`ScuPass.SieveDropsBad`, `SieveSkips` state which) |
| ScuPass.SieveDropsBad | utils/exam_scu.py:157-170 | the sieve drops only clashing teachers, and keeps the rest in order |
| ScuPass.SieveFilters | utils/exam_scu.py:157-170 | where no two neighbours both clash, the sieve drops every clashing teacher |
| ScuPass.SieveSkips | utils/exam_scu.py:157-170 | of two clashing neighbours at the head, the second survives |
| ScuPass.Teaching | utils/exam_scu.py:151-154 | exactly the teachers whose names the exam's classes list, in teacher order |
| ScuPass.Answers | utils/exam_scu.py:198 | `can_be_proctor` of every teacher, None where it raises |
| ScuPass.Others | utils/exam_scu.py:196-198 | the teachers not in the exam, in their room or without a preference, whom `can_be_proctor` admits; None when it raises on one it is asked about |
| ScuPass.MainTurn | utils/exam_scu.py:143-179 | the teaching pass for one exam names at most one teacher; `ScuLaws.MainTurnPick` states who |
| ScuPass.OtherTurn | utils/exam_scu.py:182-236 | the non-teaching pass for one exam: it raises exactly when the exam has no main proctor and `can_be_proctor` raises on a teacher it asks about; it names at most one teacher |
| ScuPass.SingleJoint | utils/exam_scu.py:303-314 | the joint picks for an exam of 31 to 80 students are teachers; `ScuLaws.SingleJointPicks` states which |
| ScuPass.JointPools | utils/exam_scu.py:253-299 | exactly the teaching and the other candidates without a clashing duty, the others in ascending workload |
| ScuPass.JointTurn | utils/exam_scu.py:242-332 | the joint pass for one exam raises exactly when the exam has more than 30 students and `can_be_proctor` raises on a teacher it asks about |
| ScuPass.MainPass | utils/exam_scu.py:142-179 | the teaching pass over the first `n` exams keeps the desk's shape; `ScuLaws.MainPassKeeps` states what it credits |
| ScuPass.OtherPass | utils/exam_scu.py:182-236 | the non-teaching pass from exam `n` on keeps the desk's shape; None once `can_be_proctor` raises |
| ScuPass.JointPass | utils/exam_scu.py:242-332 | the joint pass from exam `n` on keeps the desk's shape; None once `can_be_proctor` raises |
| ScuPass.PlanProper | utils/exam_scu.py:117-139 | every entry of the list the ids give is proper, its classes in order |
| ScuPass.Passes | utils/exam_scu.py:142-332 | the three passes over the list, in turn, keep the desk's shape; `ScuLaws.PassesKeep` states what they credit |
| ScuPass.Proctors | utils/exam_scu.py:50-332 | the whole function as a value (ids, exam list, three passes) keeps the desk's shape; None when `can_be_proctor` raises; `ScuLaws.ProctorsKeep` states what it credits |
| ScuLaws.MainTurnPick | utils/exam_scu.py:143-179 | an exam that already has a main proctor is skipped; otherwise the pick is a sieved teaching teacher who is not exempt and free that day |
| ScuLaws.MainTurnFills | utils/exam_scu.py:143-179 | a teaching teacher who is not exempt, is free, and has no clashing main duty makes the exam get a main proctor |
| ScuLaws.MainTurnClear | utils/exam_scu.py:157-179 | when no two neighbours both clash, the pick has no clashing main duty |
| ScuLaws.MainTurnSkips | utils/exam_scu.py:157-170 | the sieve lets a clashing teacher through when the one before it also clashes, as written |
| ScuLaws.OtherPickLightest | utils/exam_scu.py:216-236 | the pick is a candidate free on every class's date, and no lighter candidate is |
| ScuLaws.OtherTurnPick | utils/exam_scu.py:182-236 | the pick does not teach the exam, fits its room, is admitted by the rule, and is free on every class's date |
| ScuLaws.OtherTurnFills | utils/exam_scu.py:182-236 | when the rule raises for nobody, an exam without a main proctor gets one as soon as a candidate fits |
| ScuLaws.PoolsApart | utils/exam_scu.py:256-299 | the two pools have no repeats and share no teacher |
| ScuLaws.PoolsEligible | utils/exam_scu.py:253-299 | each pool lists exactly its eligible teachers |
| ScuLaws.SingleJointPicks | utils/exam_scu.py:303-314 | an exam of 31 to 80 students gets at most two joint picks, the first from the teaching pool |
| ScuLaws.SingleJointNamed | utils/exam_scu.py:303-314 | with no empty names, such an exam gets at most one joint proctor |
| ScuLaws.EligibleNotMain | utils/exam_scu.py:262-296 | an eligible teacher is not the main proctor of the exam's first class |
| ScuLaws.JointTurnPicks | utils/exam_scu.py:242-332 | an exam of at most 30 students gets no joint proctor; a larger one at most two, distinct and eligible |
| ScuLaws.SingleJointFills | utils/exam_scu.py:303-314 | when the rule raises for nobody and no class has a joint proctor, an exam of 31 to 80 gets one as soon as a teacher is eligible |
| ScuLaws.ManyJointFills | utils/exam_scu.py:315-332 | an exam of more than 80 gets one joint proctor as soon as a teacher is eligible, and two as soon as two are |
| ScuLaws.SecondsRecord | utils/exam_scu.py:321-330 | adding distinct teachers in turn credits each one joint duty and names each on every class's entry |
| ScuLaws.ManyJointRecord | utils/exam_scu.py:315-332 | each joint proctor of a large exam is credited one joint duty and is named on every class |
| ScuLaws.MainPassKeeps | utils/exam_scu.py:142-179 | the teaching pass credits every duty it hands out and keeps every main proctor already set |
| ScuLaws.OtherPassKeeps | utils/exam_scu.py:182-236 | the same for the non-teaching pass, as far as it runs |
| ScuLaws.JointPassKeeps | utils/exam_scu.py:242-332 | the joint pass credits every duty it hands out and leaves the main proctors alone |
| ScuLaws.PassesKeep | utils/exam_scu.py:142-332 | over the three passes, each teacher's workload grows by exactly the duties they were handed |
| ScuLaws.ProctorsKeep | utils/exam_scu.py:50-332 | the same for `assign_proctors` as a whole |
| ExamScu.Section.constructor | utils/exam_scu.py:37-47 | the class stores its fields, with no id and no proctor entries |
| ExamScu.AssignIds | utils/exam_scu.py:63-106 | the ids the loop leaves on the objects equal `ScuIds.Ids` |
| ExamScu.IdTurn | utils/exam_scu.py:63-106 | one turn of the loop on the objects equals `ScuIds.IdStep`, and the proctor entries stay |
| ExamScu.SplitThree | utils/exam_scu.py:100-103 | the two smallest of three share an id, and the third gets its own |
| ExamScu.Gather | utils/exam_scu.py:110-114 | the `exams` dictionary: its keys are `ScuPlan.Keys`, and each key's group is `ScuPlan.Members` |
| ExamScu.ExamList | utils/exam_scu.py:117-136 | the unsorted list equals `ScuPlan.Sittings` |
| ExamScu.ExamPlan | utils/exam_scu.py:110-139 | the sorted list equals `ScuPlan.Plan` |
| ExamScu.Pare | utils/exam_scu.py:157-170 | the removal loop on the list equals `ScuPass.Sieve` |
| ExamScu.Candidates | utils/exam_scu.py:196-198 | `other_teachers` equals `ScuPass.Others`, None when the rule raises |
| ExamScu.Winnow | utils/exam_scu.py:262-296 | the two pools after the clash walk are the pools without the clashing teachers |
| ExamScu.JointSingle | utils/exam_scu.py:303-314 | equals `ScuPass.SingleJoint` |
| ExamScu.JointMany | utils/exam_scu.py:315-332 | the picks are `Drafted` from the two pools, and the joint entries are `ScuPass.Seconds` of them |
| ExamScu.MainRound | utils/exam_scu.py:142-179 | the teaching pass on the objects equals `ScuPass.MainPass` |
| ExamScu.OtherRound | utils/exam_scu.py:182-236 | the non-teaching pass on the objects equals `ScuPass.OtherPass`; not ok exactly when the rule raises |
| ExamScu.JointRound | utils/exam_scu.py:242-332 | the joint pass on the objects equals `ScuPass.JointPass`; not ok exactly when the rule raises |
| ExamScu.RunPasses | utils/exam_scu.py:142-332 | the three passes on the objects equal `ScuPass.Passes` |
| ExamScu.AssignProctors | utils/exam_scu.py:50-332 | the ids equal `ScuIds.Ids`, and the final counters and entries equal `ScuPass.Proctors`; not ok exactly when `can_be_proctor` raises |
| ScuTwo.Ranking | utils/exam_scu2.py:62 | the positions in ascending workload, each once |
| ScuTwo.RankingStable | utils/exam_scu2.py:62 | teachers of equal workload keep the caller's order |
| ScuTwo.Teaching | utils/exam_scu2.py:70 | exactly the teachers of the sorted list whom the exam lists, drawn from that list |
| ScuTwo.Kept | utils/exam_scu2.py:72-85 | the exam's teachers left by the sieve, as written; `ScuTwoLaws.MainTurnSkips` shows the skip |
| ScuTwo.Crowning | utils/exam_scu2.py:87-94 | the teacher credited, if any, is one of the rest of the walked list; `ScuTwoLaws.CrowningPicks` states who |
| ScuTwo.MainTurn | utils/exam_scu2.py:65-94 | one exam of the main pass leaves every joint entry; `ScuTwoLaws.MainTurnChooses` states the rest |
| ScuTwo.MainPass | utils/exam_scu2.py:65-94 | the main pass from exam `n` on leaves every joint entry |
| ScuTwo.Avail | utils/exam_scu2.py:103-136 | the available teachers, or None when the rule raises; `ScuTwoLaws.AvailKeeps` and `AvailRaises` state which |
| ScuTwo.Prefer | utils/exam_scu2.py:139-140 | exactly the available teachers in the exam's room or without a preference |
| ScuTwo.Outside | utils/exam_scu2.py:141 | exactly the available teachers not in `Prefer` |
| ScuTwo.Least | utils/exam_scu2.py:144 | the least workload of a non-empty list: a member's, and no member's is lower |
| ScuTwo.Pool | utils/exam_scu2.py:139-147 | the pool is non-empty when there is one; None when either list is empty; `ScuTwoLaws.PoolChoice` states the choice |
| ScuTwo.Add | utils/exam_scu2.py:158-161 | one more name on the joint entry, after a comma when it is set |
| ScuTwo.GapShrinks | utils/exam_scu2.py:156-166 | each name added while the entry is short brings the loop closer to its end |
| ScuTwo.Enlist | utils/exam_scu2.py:156-166 | the entry ends set exactly when it was set or short; `ScuTwoLaws.EnlistNames` states the names added |
| ScuTwo.JointTurn | utils/exam_scu2.py:98-166 | one exam of the joint pass leaves every main entry |
| ScuTwo.JointPass | utils/exam_scu2.py:98-166 | the joint pass from exam `n` on leaves every main entry; None once one exam raises |
| ScuTwo.Proctors | utils/exam_scu2.py:52-166 | the whole function as a value (sort, main pass, joint pass) keeps the desk's shape; `ScuTwoLaws.ProctorsCounted` and `ProctorsLeave` state what it does |
| ScuTwoLaws.CrowningPicks | utils/exam_scu2.py:87-94 | the walk credits the first fit teacher who has not yet proctored the course as main, and leaves the entry naming the last fit teacher it met |
| ScuTwoLaws.CrowningPasses | utils/exam_scu2.py:87-94 | when every fit teacher has already proctored the course, nobody is credited, yet the entry names the last fit teacher |
| ScuTwoLaws.MainTurnSkips | utils/exam_scu2.py:72-85 | a clashing teacher right after another clashing teacher survives the sieve, as written |
| ScuTwoLaws.MainTurnChooses | utils/exam_scu2.py:65-94 | one exam changes only an economics exam's own main entry, to a fit teacher of the exam |
| ScuTwoLaws.MainTurnCounted | utils/exam_scu2.py:90-93 | one exam keeps each teacher's main count equal to the number of courses tallied |
| ScuTwoLaws.MainPassCounted | utils/exam_scu2.py:65-94 | the main pass keeps every main count equal to the number of courses the teacher proctors as main |
| ScuTwoLaws.MainPassLeaves | utils/exam_scu2.py:65-94 | the main pass sets main entries of economics exams only, and leaves every joint entry |
| ScuTwoLaws.AvailRaises | utils/exam_scu2.py:106-110 | building the pool raises exactly when the rule raises on some teacher it reaches |
| ScuTwoLaws.AvailKeeps | utils/exam_scu2.py:103-136 | the available teachers are exactly the fit ones, in sorted order |
| ScuTwoLaws.OwnMainAvailable | utils/exam_scu2.py:103-136 | whether a teacher clashes does not depend on the exam's own main entry, so its own main proctor can be available |
| ScuTwoLaws.PoolChoice | utils/exam_scu2.py:139-147 | raises exactly when either list is empty; otherwise the pool is the others when the near ones' lightest workload is two or more above theirs, and the near ones otherwise |
| ScuTwoLaws.EnlistNames | utils/exam_scu2.py:156-166 | names are added to a non-empty entry until it holds the wanted number |
| ScuTwoLaws.EnlistCredits | utils/exam_scu2.py:162-164 | each teacher added is credited one joint duty per time added |
| ScuTwoLaws.EnlistFreshNames | utils/exam_scu2.py:156-166 | the unset entry ends up naming `count` teachers, or one when the count is below one, in pool order |
| ScuTwoLaws.EnlistFreshCredits | utils/exam_scu2.py:162-164 | each teacher named on the entry is credited once per time named |
| ScuTwoLaws.EnlistRepeats | utils/exam_scu2.py:156-166 | when more proctors are wanted than the pool holds, the loop names every pool teacher, then goes round again |
| ScuTwoLaws.JointTurnLeaves | utils/exam_scu2.py:98-166 | one exam changes no entry but its own joint entry |
| ScuTwoLaws.PoolFit | utils/exam_scu2.py:103-147 | the pool's teachers are fit teachers of the sorted list |
| ScuTwoLaws.JointTurnNames | utils/exam_scu2.py:98-166 | for an exam line 99 admits, with its entry unset: the pass raises exactly when the rule or `min()` raises; otherwise the entry names the wanted number of pool teachers |
| ScuTwoLaws.JointTurnCounted | utils/exam_scu2.py:98-166 | one exam keeps the main counts equal to the courses tallied |
| ScuTwoLaws.JointPassCounted | utils/exam_scu2.py:98-166 | the joint pass keeps every main count equal to the number of courses the teacher proctors as main |
| ScuTwoLaws.JointPassLeaves | utils/exam_scu2.py:98-166 | the joint pass leaves the entries of exams it has passed and of exams line 99 skips |
| ScuTwoLaws.ProctorsCounted | utils/exam_scu2.py:52-166 | the function keeps every main count equal to the number of courses the teacher proctors as main |
| ScuTwoLaws.ProctorsLeave | utils/exam_scu2.py:52-166 | the function touches only the main entries of economics exams and the joint entries of exams line 99 admits |
| ExamScuTwo.Exam.constructor | utils/exam_scu2.py:37-49 | the exam stores its fields, with no proctor entries |
| ExamScuTwo.SortTeachers | utils/exam_scu2.py:62 | the sorted list is the caller's list in `ScuTwo.Ranking` order, with the map of where each teacher stood |
| ExamScuTwo.TeachingOf | utils/exam_scu2.py:70 | equals `ScuTwo.Teaching` |
| ExamScuTwo.Pare | utils/exam_scu2.py:72-85 | the removal loop on the list equals the sieve of `ScuTwo.Kept` |
| ExamScuTwo.MainWalk | utils/exam_scu2.py:87-94 | the walk on the objects equals `ScuTwo.Crowning` |
| ExamScuTwo.MainExam | utils/exam_scu2.py:65-94 | one exam of the main pass on the objects equals `ScuTwo.MainTurn` |
| ExamScuTwo.MainRound | utils/exam_scu2.py:65-94 | the main pass on the objects equals `ScuTwo.MainPass` |
| ExamScuTwo.Judge | utils/exam_scu2.py:107-136 | None exactly when the rule raises; otherwise whether the rule admits the teacher and no duty elsewhere clashes |
| ExamScuTwo.Available | utils/exam_scu2.py:103-136 | equals `ScuTwo.Avail` |
| ExamScuTwo.PoolOf | utils/exam_scu2.py:139-147 | equals `ScuTwo.Pool` |
| ExamScuTwo.Lap | utils/exam_scu2.py:157-166 | one run of the `for` loop is a prefix of `ScuTwo.Enlist`, and the entry gets strictly closer to long enough |
| ExamScuTwo.EnlistAll | utils/exam_scu2.py:156-166 | the `while` loop on the objects equals `ScuTwo.Enlist` |
| ExamScuTwo.JointExamTurn | utils/exam_scu2.py:98-166 | one exam of the joint pass on the objects equals `ScuTwo.JointTurn`; if not ok, nothing changed |
| ExamScuTwo.JointRound | utils/exam_scu2.py:98-166 | the joint pass on the objects equals `ScuTwo.JointPass` |
| ExamScuTwo.AssignProctors | utils/exam_scu2.py:52-166 | the teachers' counters and the exams' entries end as `ScuTwo.Proctors`; not ok exactly when a `ValueError` is raised |

## Left out

- Streamlit and pandas: reading the spreadsheets, `st.write`, `st.expander` and the other
  display calls are left out. They do not change the results.
- Nus.DeferredAcceptance: the log is a sequence of `Event` records, not a DataFrame. The
  rejection reason is a datatype, not the formatted string (`utils/sep_nus.py` line 74 formats
  the kept entries into it).
- SepSpec.Seat: a quota is a `nat` (`sep_spec.dfy` line 19, `sep.dfy` line 60). A zero quota
  is modelled. A negative quota, which would make every `consider` pop, is not.
- SepSpec.Applicant: GPA and total score are integers (`sep_spec.dfy` line 16, `sep.dfy`
  line 17, `NusSpec.Applicant`). The source's floating-point values, and NaN with its
  comparisons that are always false, are not modelled. The ordering and tie-breaking of
  integers carry over.
- Sep.DeferredAcceptance: the dictionary keys are the objects' own names, with no repeats. The
  objects start as freshly constructed: cursors at 0 and empty rosters.
- Nus.DeferredAcceptance: the source raises `KeyError` when a turned-away name is not a key.
  Here that case becomes preconditions:
  - the `Program` objects are distinct (`nus.dfy` line 296);
  - the student dictionary is keyed by names, with no repeats;
  - all objects start fresh.

  Under these preconditions the lookup is proved never to fail.
- Nus.Program.Consider: requires that the student has proposed at least once
  (`nus.dfy` lines 104 and 141). With a cursor of 0, the source would read the last
  preference through index -1. `deferred_acceptance` only calls it after `propose`.
- Nus.Program.Screen: same precondition as `Nus.Program.Consider`, for the same reason.
- NusSpec.Ineligible: `pd.isna` on the semester, the minimum GPA and the seniority is an
  `Option`. NaN in the student's own fields is not modelled.
- ScuTwo.Paper: `proctorCount` and `proctorDept` are integers (`scu_two.dfy` lines 14-16). A
  NaN `proctor_count` is not modelled. With NaN, `utils/exam_scu2.py` lines 156-166 name
  every pool teacher once and stop, because every comparison with NaN is false.
- ScuTwo.NonBlank: the joint pass requires that no teacher's name is empty (`scu_two.dfy`
  line 37). This is stronger than the source needs. The loop of lines 156-166 only fails to
  end when every name in the pool is `""` and `proctor_count` is at least 2. The model does
  not cover inputs with some empty names.
- ScuTwoLaws.EnlistNames: the counting lemmas also require that no name contains a comma.
  A name with a comma counts as several in `split(',')`, and the lemmas do not cover it.
- Staff.ParseSmall: accepts only ASCII digits. Python's `int(time[:2])` also accepts other
  Unicode decimal digits and a `_` between digits. White space is the ASCII white space only.
- ExamScuTwo.AssignProctors: `teachers.sort` (line 62) reorders the caller's list in place.
  The model returns the reordered list as `sorted`, with where each teacher stood, instead of
  changing the caller's sequence.
- ScuPass.Proctors: a raised exception is modelled as None. The half-updated objects the
  source leaves behind are not: the methods promise nothing about the state after a raise,
  beyond saying nothing changed in the exam that raised.
- ScuPlan.Keys: the order in which dictionaries are inserted is modelled as sequence order.
  An exam id is a string, or None for a class left without one.
- Exam.AssignProctors: the class dictionaries become `Section` objects. `cls.get('teachers', [])`
  of a dictionary without the key is not modelled, because every class has a teacher list.
- Courses.TeacherCourseMatching: class counts are unbounded integers. The repair phase can
  drive a course's `required_classes` below zero, as the source can (`Courses.RepairEffect`).
- utils/surveys.py, utils/translations.py, utils/layout.py, run.py and the pages/ scripts are
  user interface and data loading. They are not part of this model.
