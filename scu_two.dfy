/** `assign_proctors` of utils/exam_scu2.py (lines 52-166) as functions of the teachers'
    profiles and counters and the exams' proctor entries. Teachers are held by their position
    in `teachers` as the caller passed the list, so the sorted list is a list of positions;
    exams are held by their position in `exams`. A `ValueError`, raised by `can_be_proctor` or
    by `min()` of an empty list, is a `None` result. */
module ScuTwo {
  import opened Base
  import opened Text
  import opened Order
  import opened Staff
  import P = ScuPass

  /** `Exam` (lines 36-49): what `Exam.__init__` stores and nothing later changes. */
  datatype Paper = Paper(examId: string, teachingDept: string, course: string, classId: string,
                         teachers: seq<string>, date: string, time: string, location: string,
                         proctorDept: int, proctorCount: int)

  /** The only teaching department whose exams get a main proctor (line 66). */
  const Economics := "经济学院"

  /** The only proctoring department whose exams get joint proctors (line 99). */
  const JointDept := 102

  /** The counters of every teacher and the two proctor entries of every exam. */
  predicate Shaped(ps: seq<Profile>, xs: seq<Paper>, d: P.Desk)
  {
    |d.loads| == |ps| && |d.mains| == |xs| && |d.joints| == |xs|
  }

  /** Every position of `s` is a teacher's. */
  predicate Below(s: seq<nat>, n: nat)
  {
    forall k :: 0 <= k < |s| ==> s[k] < n
  }

  /** No teacher is called `""`: the joint loop of lines 156-166 never ends on such a name. */
  predicate NonBlank(ps: seq<Profile>)
  {
    forall t :: 0 <= t < |ps| ==> ps[t].name != ""
  }

  // ---------------------------------------------------------------------------
  // The sort (line 62).

  /** The list `teachers` as the caller passed it. */
  function Upto(n: nat): (r: seq<nat>)
    ensures |r| == n && forall k :: 0 <= k < n ==> r[k] == k
  {
    seq(n, k requires 0 <= k < n => k)
  }

  /** A list holding each of the positions `0..n` once holds only positions below `n`, none twice. */
  lemma {:induction false} PermutedUpto(r: seq<nat>, n: nat)
    requires multiset(r) == multiset(Upto(n))
    ensures Below(r, n) && Distinct(r)
  {
    forall k | 0 <= k < |r| ensures r[k] < n {
      assert r[k] in multiset(Upto(n));
    }
    DistinctSubMultiset(r, Upto(n));
  }

  /** `teachers.sort(key=lambda t: t.workload)`: the positions in ascending workload `keys`,
      each once. */
  function Ranking(keys: seq<int>): (r: seq<nat>)
    ensures |r| == |keys| && multiset(r) == multiset(Upto(|keys|)) && Below(r, |keys|) && Distinct(r)
    ensures forall i, j :: 0 <= i < j < |r| ==> keys[r[i]] <= keys[r[j]]
  {
    var r := ByKey(Upto(|keys|), keys);
    PermutedUpto(r, |keys|);
    r
  }

  /** The sort is stable: teachers of equal workload keep the caller's order. */
  lemma {:induction false} RankingStable(keys: seq<int>, t: nat)
    ensures WithKey(Ranking(keys), keys, Key(keys, t)) == WithKey(Upto(|keys|), keys, Key(keys, t))
  {
    ByKeyStable(Upto(|keys|), keys, t);
  }

  // ---------------------------------------------------------------------------
  // The main pass (lines 65-94).

  /** Lines 73-85: `name` is the main proctor of an exam of another course on the same date, at
      the same time or in another room. */
  predicate MainClash(xs: seq<Paper>, mains: seq<Option<string>>, x: Paper, name: string)
    requires |mains| == |xs|
  {
    exists e :: 0 <= e < |xs| && xs[e].course != x.course && xs[e].date == x.date
                && (xs[e].time == x.time || xs[e].location != x.location) && mains[e] == Some(name)
  }

  function MainClashing(ps: seq<Profile>, xs: seq<Paper>, mains: seq<Option<string>>, x: Paper): (r: set<nat>)
    requires |mains| == |xs|
    ensures forall t: nat :: t in r <==> t < |ps| && MainClash(xs, mains, x, ps[t].name)
  {
    set t | 0 <= t < |ps| && MainClash(xs, mains, x, ps[t].name)
  }

  /** Line 70: `[t for t in teachers if t.name in exam.teachers]` over the sorted list `s`. */
  function Teaching(ps: seq<Profile>, s: seq<nat>, names: seq<string>): (r: seq<nat>)
    requires Below(s, |ps|)
    ensures Below(r, |ps|) && multiset(r) <= multiset(s)
    ensures forall t: nat :: t in r <==> t in s && t < |ps| && ps[t].name in names
  {
    if s == [] then []
    else
      var t := s[|s| - 1];
      var r := Teaching(ps, s[..|s| - 1], names);
      assert s == s[..|s| - 1] + [t];
      if ps[t].name in names then r + [t] else r
  }

  /** Line 88: not exempt from main duty and free on the date. */
  predicate MainFit(p: Profile, date: string)
  {
    p.exemptedMain.None? && date !in p.unavailableDates
  }

  /** Where the walk of lines 87-94 ends: the exam's main entry and the teacher credited. */
  datatype Crown = Crown(main: Option<string>, pick: Option<nat>)

  /** Lines 87-94 from the `i`-th teacher of `kept` on, with the exam's main entry at `main`:
      every fit teacher is written into the entry, and the first who has not yet proctored the
      course as main is credited and ends the walk. */
  function Crowning(ps: seq<Profile>, ls: seq<Load>, kept: seq<nat>, x: Paper, i: nat, main: Option<string>): (r: Crown)
    requires |ls| == |ps| && Below(kept, |ps|) && i <= |kept|
    ensures r.pick.Some? ==> r.pick.value < |ps| && r.pick.value in kept[i..]
    decreases |kept| - i
  {
    if i == |kept| then Crown(main, None)
    else
      var t := kept[i];
      if !MainFit(ps[t], x.date) then Crowning(ps, ls, kept, x, i + 1, main)
      else if x.course !in ls[t].mainCourses then Crown(Some(ps[t].name), Some(t))
      else Crowning(ps, ls, kept, x, i + 1, Some(ps[t].name))
  }

  /** The teachers line 87 walks: those of the exam (line 70) left by the sieve of lines 72-85,
      where removing a teacher makes the loop step over the next one. */
  function Kept(ps: seq<Profile>, xs: seq<Paper>, d: P.Desk, s: seq<nat>, x: Paper): (r: seq<nat>)
    requires Shaped(ps, xs, d) && Below(s, |ps|)
    ensures Below(r, |ps|)
  {
    var r := P.Sieve(Teaching(ps, s, x.teachers), MainClashing(ps, xs, d.mains, x));
    assert forall k :: 0 <= k < |r| ==> r[k] in Teaching(ps, s, x.teachers);
    r
  }

  /** One exam of the main pass (lines 65-94). */
  function MainTurn(ps: seq<Profile>, xs: seq<Paper>, d: P.Desk, s: seq<nat>, n: nat): (r: P.Desk)
    requires Shaped(ps, xs, d) && Below(s, |ps|) && n < |xs|
    ensures Shaped(ps, xs, r) && r.joints == d.joints
  {
    var x := xs[n];
    if x.teachingDept != Economics then d
    else
      var c := Crowning(ps, d.loads, Kept(ps, xs, d, s, x), x, 0, d.mains[n]);
      d.(loads := if c.pick.Some? then d.loads[c.pick.value := CreditMain(d.loads[c.pick.value], x.course)] else d.loads,
         mains := d.mains[n := c.main])
  }

  /** The main pass over the exams from `n` on (lines 65-94). */
  function MainPass(ps: seq<Profile>, xs: seq<Paper>, d: P.Desk, s: seq<nat>, n: nat): (r: P.Desk)
    requires Shaped(ps, xs, d) && Below(s, |ps|) && n <= |xs|
    ensures Shaped(ps, xs, r) && r.joints == d.joints
    decreases |xs| - n
  {
    if n == |xs| then d else MainPass(ps, xs, MainTurn(ps, xs, d, s, n), s, n + 1)
  }

  // ---------------------------------------------------------------------------
  // The joint pass (lines 97-166).

  /** Line 119: `name in joint.split(',')`. */
  predicate Listed(j: Option<string>, name: string)
  {
    j.Some? && name in Split(j.value, ',')
  }

  /** Lines 112-136: `name` proctors, as main or joint, an exam with another id on the same
      date, at the same time or in another room. */
  predicate JointClash(xs: seq<Paper>, d: P.Desk, x: Paper, name: string)
    requires |d.mains| == |xs| && |d.joints| == |xs|
  {
    exists e :: 0 <= e < |xs| && xs[e].examId != x.examId && xs[e].date == x.date
                && (xs[e].time == x.time || xs[e].location != x.location)
                && (d.mains[e] == Some(name) || Listed(d.joints[e], name))
  }

  /** Lines 103-136 from the `k`-th teacher of `s` on, with `r` the teachers kept so far: a
      teacher `can_be_proctor` turns down, or whose duty elsewhere clashes, is not kept;
      `None` is the `ValueError` the rule raises. */
  function Avail(ps: seq<Profile>, xs: seq<Paper>, d: P.Desk, x: Paper, s: seq<nat>, k: nat, r: seq<nat>): (o: Option<seq<nat>>)
    requires Shaped(ps, xs, d) && Below(s, |ps|) && Below(r, |ps|) && k <= |s|
    ensures o.Some? ==> Below(o.value, |ps|)
    decreases |s| - k
  {
    if k == |s| then Some(r)
    else
      var t := s[k];
      match Proctorable(ps[t], d.loads[t], x.date, x.time)
      case None => None
      case Some(ok) => Avail(ps, xs, d, x, s, k + 1, if ok && !JointClash(xs, d, x, ps[t].name) then r + [t] else r)
  }

  /** Line 140: `[t for t in avail if t.preferred_location == location or pd.isna(...)]`. */
  function Prefer(ps: seq<Profile>, s: seq<nat>, location: string): (r: seq<nat>)
    requires Below(s, |ps|)
    ensures Below(r, |ps|)
    ensures forall t: nat :: t in r <==> t in s && t < |ps| && P.Near(ps[t], location)
  {
    if s == [] then []
    else
      var t := s[|s| - 1];
      var r := Prefer(ps, s[..|s| - 1], location);
      assert s == s[..|s| - 1] + [t];
      if P.Near(ps[t], location) then r + [t] else r
  }

  /** Line 141: `[t for t in avail if t not in prefer]`. */
  function Outside(s: seq<nat>, q: seq<nat>, n: nat): (r: seq<nat>)
    requires Below(s, n)
    ensures Below(r, n) && forall t :: t in r <==> t in s && t !in q
  {
    if s == [] then []
    else
      var t := s[|s| - 1];
      var r := Outside(s[..|s| - 1], q, n);
      assert s == s[..|s| - 1] + [t];
      if t !in q then r + [t] else r
  }

  /** `min(t.workload for t in s)` of a non-empty list (line 144). */
  function Least(ls: seq<Load>, s: seq<nat>): (m: int)
    requires s != [] && Below(s, |ls|)
    ensures exists k :: 0 <= k < |s| && ls[s[k]].workload == m
    ensures forall k :: 0 <= k < |s| ==> m <= ls[s[k]].workload
  {
    var t := s[|s| - 1];
    if |s| == 1 then ls[t].workload
    else
      var m := Least(ls, s[..|s| - 1]);
      assert forall k :: 0 <= k < |s| - 1 ==> s[..|s| - 1][k] == s[k];
      if ls[t].workload < m then ls[t].workload else m
  }

  /** Lines 139-147: the teachers near the exam's room, unless their lightest workload is two
      or more above that of the others, and then the others; `None` is the `ValueError` that
      `min()` raises when either list is empty. */
  function Pool(ps: seq<Profile>, ls: seq<Load>, avail: seq<nat>, location: string): (r: Option<seq<nat>>)
    requires |ls| == |ps| && Below(avail, |ps|)
    ensures r.Some? ==> r.value != [] && Below(r.value, |ps|)
  {
    var prefer := Prefer(ps, avail, location);
    var other := Outside(avail, prefer, |ps|);
    if prefer == [] || other == [] then None
    else if Least(ls, prefer) >= Least(ls, other) + 2 then Some(other)
    else Some(prefer)
  }

  /** Line 156: the loop goes on while the joint entry is unset or holds fewer than `count`
      comma-separated names. */
  predicate Short(j: Option<string>, count: int)
  {
    j.None? || |Split(j.value, ',')| < count
  }

  /** Lines 158-161: one more name on the joint entry. */
  function Add(j: Option<string>, name: string): (r: Option<string>)
    ensures r.Some? && (Truthy(j) ==> r.value == j.value + "," + name) && (!Truthy(j) ==> r.value == name)
  {
    if Truthy(j) then Some(j.value + "," + name) else Some(name)
  }

  /** The number of comma-separated names in a joint entry, `0` when it is unset. */
  function Parts(j: Option<string>): nat
  {
    if j.None? then 0 else |Split(j.value, ',')|
  }

  /** How far the joint entry is from ending the loop of line 156. */
  function Gap(j: Option<string>, count: int): nat
  {
    (if Truthy(j) then 0 else 1) + (if Parts(j) < count then count - Parts(j) else 0)
  }

  /** A split has one more part than the string has separators. */
  lemma {:induction false} SplitCount(s: string, sep: char)
    ensures |Split(s, sep)| == 1 + multiset(s)[sep]
    decreases |s|
  {
    match IndexOf(s, sep)
    case None =>
    case Some(k) =>
      assert s == s[..k] + [sep] + s[k + 1..];
      assert multiset(s[..k])[sep] == 0;
      SplitCount(s[k + 1..], sep);
  }

  /** Every name added while the entry is short brings it closer to ending the loop. */
  lemma {:induction false} GapShrinks(j: Option<string>, name: string, count: int)
    requires name != "" && Short(j, count)
    ensures Gap(Add(j, name), count) < Gap(j, count)
  {
    SplitCount(name, ',');
    if Truthy(j) {
      SplitCount(j.value, ',');
      SplitCount(j.value + "," + name, ',');
      assert multiset(j.value + "," + name) == multiset(j.value) + multiset{','} + multiset(name);
    } else if j.Some? {
      SplitCount(j.value, ',');
    }
  }

  /** What the joint loop leaves: the exam's joint entry and the teachers' counters. */
  datatype Roll = Roll(joint: Option<string>, loads: seq<Load>)

  /** Lines 156-166 with the walk over `pool` at index `i`: while the entry is short the next
      teacher of the pool, going round again from the start once it is used up, is added to the
      entry and credited with a joint duty for the course. */
  function Enlist(ps: seq<Profile>, ls: seq<Load>, pool: seq<nat>, course: string, count: int,
                  j: Option<string>, i: nat): (r: Roll)
    requires |ls| == |ps| && NonBlank(ps) && Below(pool, |ps|) && i < |pool|
    ensures |r.loads| == |ls| && r.joint.Some? == (j.Some? || Short(j, count))
    decreases Gap(j, count)
  {
    if !Short(j, count) then Roll(j, ls)
    else
      var t := pool[i];
      GapShrinks(j, ps[t].name, count);
      Enlist(ps, ls[t := CreditJoint(ls[t], course)], pool, course, count, Add(j, ps[t].name), Next(i, |pool|))
  }

  /** The index after `i` in a walk round a list of length `n`. */
  function Next(i: nat, n: nat): (r: nat)
    requires i < n
    ensures r < n
  {
    if i + 1 == n then 0 else i + 1
  }

  /** One exam of the joint pass (lines 98-166). */
  function JointTurn(ps: seq<Profile>, xs: seq<Paper>, d: P.Desk, s: seq<nat>, n: nat): (r: Option<P.Desk>)
    requires Shaped(ps, xs, d) && NonBlank(ps) && Below(s, |ps|) && n < |xs|
    ensures r.Some? ==> Shaped(ps, xs, r.value) && r.value.mains == d.mains
  {
    var x := xs[n];
    if x.proctorDept != JointDept || x.proctorCount == 0 then Some(d)
    else
      match Avail(ps, xs, d, x, s, 0, [])
      case None => None
      case Some(avail) =>
        match Pool(ps, d.loads, avail, x.location)
        case None => None
        case Some(pool) =>
          var e := Enlist(ps, d.loads, pool, x.course, x.proctorCount, d.joints[n], 0);
          Some(d.(loads := e.loads, joints := d.joints[n := e.joint]))
  }

  /** The joint pass over the exams from `n` on (lines 98-166); `None` once one raises. */
  function JointPass(ps: seq<Profile>, xs: seq<Paper>, d: P.Desk, s: seq<nat>, n: nat): (r: Option<P.Desk>)
    requires Shaped(ps, xs, d) && NonBlank(ps) && Below(s, |ps|) && n <= |xs|
    ensures r.Some? ==> Shaped(ps, xs, r.value) && r.value.mains == d.mains
    decreases |xs| - n
  {
    if n == |xs| then Some(d)
    else
      match JointTurn(ps, xs, d, s, n)
      case None => None
      case Some(e) => JointPass(ps, xs, e, s, n + 1)
  }

  /** `assign_proctors` (lines 52-166): the sort, the main pass and the joint pass. */
  function Proctors(ps: seq<Profile>, xs: seq<Paper>, d: P.Desk): (r: Option<P.Desk>)
    requires Shaped(ps, xs, d) && NonBlank(ps)
    ensures r.Some? ==> Shaped(ps, xs, r.value)
  {
    var s := Ranking(Workloads(d.loads));
    JointPass(ps, xs, MainPass(ps, xs, d, s, 0), s, 0)
  }
}
