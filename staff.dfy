/** The proctor record of the two later assignment variants: utils/exam_scu.py and
    utils/exam_scu2.py define the same `Teacher` class, with the same `can_be_proctor` rule. */
module Staff {
  import opened Base
  import opened Text

  /** What `Teacher.__init__` stores and nothing later changes. A cell pandas reads as
      missing (`pd.isna`) is `None`. */
  datatype Profile = Profile(name: string, exemptedMain: Option<string>, exemptedJoint: Option<string>,
                             preferredLocation: Option<string>, specialNeeds: Option<string>,
                             unavailableDates: set<string>)

  /** The counters the assignment passes update. */
  datatype Load = Load(workload: int, main: int, joint: int,
                       mainCourses: map<string, int>, jointCourses: map<string, int>)

  class Teacher {
    const name: string
    const exemptedMain: Option<string>
    const exemptedJoint: Option<string>
    const preferredLocation: Option<string>
    const specialNeeds: Option<string>
    const unavailableDates: set<string>
    var workload: int
    var mainProctorCount: int
    var jointProctorCount: int
    var mainProctorCourses: map<string, int>
    var jointProctorCourses: map<string, int>

    constructor (name: string, workload: int, exemptedMain: Option<string>, exemptedJoint: Option<string>,
                 preferredLocation: Option<string>, specialNeeds: Option<string>, unavailableDates: seq<string>)
      ensures Prof(this) == Profile(name, exemptedMain, exemptedJoint, preferredLocation, specialNeeds,
                                    set d | d in unavailableDates)
      ensures LoadOf(this) == Load(workload, 0, 0, map[], map[])
    {
      this.name := name;
      this.workload := workload;
      this.exemptedMain := exemptedMain;
      this.exemptedJoint := exemptedJoint;
      this.preferredLocation := preferredLocation;
      this.specialNeeds := specialNeeds;
      this.unavailableDates := set d | d in unavailableDates;
      mainProctorCount := 0;
      jointProctorCount := 0;
      mainProctorCourses := map[];
      jointProctorCourses := map[];
    }

    /** `can_be_proctor` (utils/exam_scu.py, lines 19-33; utils/exam_scu2.py, lines 19-33);
        `None` is the `ValueError` that `int(time[:2])` raises. */
    function CanBeProctor(date: string, time: string): Option<bool>
      reads this
    {
      Proctorable(Prof(this), LoadOf(this), date, time)
    }
  }

  function Prof(t: Teacher): Profile
  {
    Profile(t.name, t.exemptedMain, t.exemptedJoint, t.preferredLocation, t.specialNeeds, t.unavailableDates)
  }

  function LoadOf(t: Teacher): Load
    reads t
  {
    Load(t.workload, t.mainProctorCount, t.jointProctorCount, t.mainProctorCourses, t.jointProctorCourses)
  }

  /** Python's `str()` of a cell: a missing one prints as `nan`. */
  function Str(s: Option<string>): string
  {
    if s.None? then "nan" else s.value
  }

  /** The note that keeps a teacher off eight o'clock exams. */
  const NoEarly := "不排早八"

  /** The note that keeps a teacher off evening exams. */
  const NoEvening := "不排晚上"

  predicate IsDigit(c: char)
  {
    '0' <= c <= '9'
  }

  function DigitValue(c: char): int
    requires IsDigit(c)
  {
    c as int - '0' as int
  }

  /** `int(p)` for a string of at most two characters: optional white space around an
      optional sign and one or two decimal digits; anything else raises `ValueError`. */
  function ParseSmall(p: string): (r: Option<int>)
    requires |p| <= 2
    ensures r.Some? ==> -9 <= r.value <= 99
  {
    var core := Strip(p);
    if |core| == 1 && IsDigit(core[0]) then Some(DigitValue(core[0]))
    else if |core| == 2 && IsDigit(core[0]) && IsDigit(core[1]) then Some(10 * DigitValue(core[0]) + DigitValue(core[1]))
    else if |core| == 2 && core[0] == '+' && IsDigit(core[1]) then Some(DigitValue(core[1]))
    else if |core| == 2 && core[0] == '-' && IsDigit(core[1]) then Some(-DigitValue(core[1]))
    else None
  }

  /** `int(time[:2])`: the hour an exam starts at. */
  function Hour(time: string): Option<int>
  {
    ParseSmall(if |time| <= 2 then time else time[..2])
  }

  /** The five clauses of `can_be_proctor`, each of which rules the teacher out. */
  predicate Exempt(p: Profile)
  {
    p.exemptedMain.Some? || p.exemptedJoint.Some?
  }

  predicate Busy(l: Load)
  {
    l.joint + l.main >= 3
  }

  predicate Early(p: Profile, time: string)
  {
    Contains(Str(p.specialNeeds), NoEarly) && Contains(time, "08")
  }

  predicate EveningNote(p: Profile)
  {
    Contains(Str(p.specialNeeds), NoEvening)
  }

  /** A teacher may proctor exactly when no clause rules them out; the rule raises only
      when every earlier clause passes, the teacher has the evening note and the time does
      not start with a readable hour. */
  function Proctorable(p: Profile, l: Load, date: string, time: string): (r: Option<bool>)
    ensures var out := Exempt(p) || Busy(l) || date in p.unavailableDates || Early(p, time);
            && (r == Some(true) <==> !out && (EveningNote(p) ==> Hour(time).Some? && Hour(time).value < 18))
            && (r == Some(false) <==> out || (EveningNote(p) && Hour(time).Some? && Hour(time).value >= 18))
            && (r.None? <==> !out && EveningNote(p) && Hour(time).None?)
  {
    if p.exemptedMain.Some? then Some(false)
    else if p.exemptedJoint.Some? then Some(false)
    else if l.joint + l.main >= 3 then Some(false)
    else if date in p.unavailableDates then Some(false)
    else if Contains(Str(p.specialNeeds), NoEarly) && Contains(time, "08") then Some(false)
    else if Contains(Str(p.specialNeeds), NoEvening) then
      match Hour(time)
      case None => None
      case Some(h) => Some(h < 18)
    else Some(true)
  }

  /** A time that starts with two digits always has an hour, and the rule never raises on it. */
  lemma {:induction false} HourOfDigits(time: string)
    requires |time| >= 2 && IsDigit(time[0]) && IsDigit(time[1])
    ensures Hour(time) == Some(10 * DigitValue(time[0]) + DigitValue(time[1]))
  {
    var p := if |time| <= 2 then time else time[..2];
    assert |p| == 2 && p[0] == time[0] && p[1] == time[1];
    assert !IsSpace(p[0]) && !IsSpace(p[1]);
    assert TrimLeft(p) == p;
    assert TrimRight(p) == p;
    assert Strip(p) == p;
  }

  /** The counters are only ever stepped up: every assignment raises exactly the workload and one
      counter by one, and tallies the course it was for. */
  function CreditMain(l: Load, course: string): (r: Load)
    ensures r.workload == l.workload + 1 && r.main == l.main + 1 && r.joint == l.joint
    ensures r.mainCourses == Bump(l.mainCourses, course) && r.jointCourses == l.jointCourses
  {
    l.(workload := l.workload + 1, main := l.main + 1, mainCourses := Bump(l.mainCourses, course))
  }

  function CreditJoint(l: Load, course: string): (r: Load)
    ensures r.workload == l.workload + 1 && r.joint == l.joint + 1 && r.main == l.main
    ensures r.jointCourses == Bump(l.jointCourses, course) && r.mainCourses == l.mainCourses
  {
    l.(workload := l.workload + 1, joint := l.joint + 1, jointCourses := Bump(l.jointCourses, course))
  }

  /** The teachers' workloads: the sort key of both variants. */
  function Workloads(ls: seq<Load>): (r: seq<int>)
    ensures |r| == |ls| && forall i :: 0 <= i < |ls| ==> r[i] == ls[i].workload
  {
    seq(|ls|, i requires 0 <= i < |ls| => ls[i].workload)
  }

  /** No teacher object appears twice. */
  predicate Apart(ts: seq<Teacher>)
  {
    forall i, j :: 0 <= i < |ts| && 0 <= j < |ts| && i != j ==> ts[i] != ts[j]
  }

  /** The teachers hold the counters `ls`. */
  ghost predicate TeachersHold(ts: seq<Teacher>, ls: seq<Load>)
    reads ts
  {
    |ls| == |ts| && forall i :: 0 <= i < |ts| ==> LoadOf(ts[i]) == ls[i]
  }

  function Profiles(ts: seq<Teacher>): (r: seq<Profile>)
    ensures |r| == |ts| && forall i :: 0 <= i < |ts| ==> r[i] == Prof(ts[i])
  {
    seq(|ts|, i requires 0 <= i < |ts| => Prof(ts[i]))
  }
}
