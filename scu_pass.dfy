/** The three proctor passes of utils/exam_scu.py (lines 142-332), as functions of the
    teachers' profiles and counters and the classes' proctor entries. Teachers are held by
    their position in `teachers`, classes by their position in `classes`, so every working
    list of the passes is a list of positions. A `ValueError` raised by `can_be_proctor` is a
    `None` result. */
module ScuPass {
  import opened Base
  import opened Text
  import opened Order
  import opened Staff
  import opened ScuIds
  import opened ScuPlan

  /** What the passes change: every teacher's counters and every class's two proctor entries. */
  datatype Desk = Desk(loads: seq<Load>, mains: seq<Option<string>>, joints: seq<Option<string>>)

  /** A desk after one exam, with the teachers assigned to it, in order. */
  datatype Turn = Turn(desk: Desk, picks: seq<nat>)

  predicate Shaped(ps: seq<Profile>, cs: seq<Info>, d: Desk)
  {
    |d.loads| == |ps| && |d.mains| == |cs| && |d.joints| == |cs|
  }

  /** An entry of the exam list as the passes read it: its classes, summarised by the first. */
  predicate Proper(cs: seq<Info>, x: Sitting)
  {
    && x.members != [] && Within(cs, x.members)
    && x.date == cs[x.members[0]].date && x.time == cs[x.members[0]].time
    && x.location == cs[x.members[0]].location && x.stu == Total(cs, x.members)
  }

  /** The course of the exam's last class: the one `cls` is left at when the course tally
      is bumped (lines 177, 234, 310, 328). */
  function LastCourse(cs: seq<Info>, x: Sitting): string
    requires Proper(cs, x)
  {
    cs[x.members[|x.members| - 1]].course
  }

  /** `any(cls.f for cls in exam_classes)`. */
  predicate Engaged(fs: seq<Option<string>>, g: seq<nat>)
  {
    exists k :: 0 <= k < |g| && g[k] < |fs| && Truthy(fs[g[k]])
  }

  // ---------------------------------------------------------------------------
  // Lists of positions.

  /** The first index of `s` whose teacher is in `ok`. */
  function First(s: seq<nat>, ok: set<nat>): (r: Option<nat>)
    ensures r.Some? ==> r.value < |s| && s[r.value] in ok && forall q :: 0 <= q < r.value ==> s[q] !in ok
    ensures r.None? ==> forall q :: 0 <= q < |s| ==> s[q] !in ok
  {
    if s == [] then None
    else if s[0] in ok then Some(0)
    else
      match First(s[1..], ok)
      case None => None
      case Some(k) => Some(k + 1)
  }

  /** `s` without the teachers in `bad`. */
  function Keep(s: seq<nat>, bad: set<nat>): (r: seq<nat>)
    ensures forall t :: t in r <==> t in s && t !in bad
    ensures |r| <= |s| && multiset(r) <= multiset(s)
  {
    if s == [] then []
    else
      assert s == [s[0]] + s[1..];
      (if s[0] in bad then [] else [s[0]]) + Keep(s[1..], bad)
  }

  /** `for t in s: if t in bad: s.remove(t)`: removing the current element makes the loop step
      over the next one, which stays whatever it is. */
  function Sieve(s: seq<nat>, bad: set<nat>): (r: seq<nat>)
    ensures forall t :: t in r ==> t in s
    ensures |r| <= |s|
  {
    if s == [] then []
    else if s[0] !in bad then [s[0]] + Sieve(s[1..], bad)
    else if |s| == 1 then []
    else [s[1]] + Sieve(s[2..], bad)
  }

  /** The positions of `s` up to `n`, in order, that are in `ok`. */
  function Earliest(s: seq<nat>, ok: set<nat>, n: nat): (r: seq<nat>)
    ensures |r| <= n && |r| <= |s| && multiset(r) <= multiset(s)
    ensures forall t :: t in r ==> t in s && t in ok
  {
    if n == 0 || s == [] then []
    else
      assert s == [s[0]] + s[1..];
      if s[0] in ok then [s[0]] + Earliest(s[1..], ok, n - 1)
    else Earliest(s[1..], ok, n)
  }

  /** The sieve only ever drops a teacher in `bad`. */
  lemma {:induction false} SieveDropsBad(s: seq<nat>, bad: set<nat>, t: nat)
    requires t in s && t !in bad
    ensures t in Sieve(s, bad)
  {
    if s[0] != t {
      if s[0] in bad && |s| > 1 && s[1] != t {
        assert t in s[2..] by {
          var k :| 0 <= k < |s| && s[k] == t;
          assert s[2..][k - 2] == t;
        }
        SieveDropsBad(s[2..], bad, t);
      } else if s[0] !in bad {
        assert t in s[1..] by {
          var k :| 0 <= k < |s| && s[k] == t;
          assert s[1..][k - 1] == t;
        }
        SieveDropsBad(s[1..], bad, t);
      }
    }
  }

  /** Where no two neighbours are both in `bad`, the sieve drops every one of them. */
  lemma {:induction false} SieveFilters(s: seq<nat>, bad: set<nat>)
    requires forall k :: 0 <= k < |s| - 1 ==> s[k] !in bad || s[k + 1] !in bad
    ensures Sieve(s, bad) == Keep(s, bad)
  {
    if s != [] {
      if s[0] !in bad {
        SieveFilters(s[1..], bad);
      } else if |s| > 1 {
        assert s[1] !in bad;
        SieveFilters(s[2..], bad);
        assert s[1..][1..] == s[2..];
      }
    }
  }

  /** Of two neighbours both in `bad` at the head, the second one survives the sieve. */
  lemma {:induction false} SieveSkips(s: seq<nat>, bad: set<nat>)
    requires |s| >= 2 && s[0] in bad && s[1] in bad
    ensures s[1] in Sieve(s, bad)
  {
  }

  // ---------------------------------------------------------------------------
  // The candidate lists of an exam.

  /** `name` teaches one of the classes `g`: it is in the union of their teacher lists. */
  predicate Taught(cs: seq<Info>, g: seq<nat>, name: string)
    requires Within(cs, g)
  {
    exists k :: 0 <= k < |g| && name in cs[g[k]].teachers
  }

  /** `[t for t in teachers if t.name in teaching_teachers]`, among the first `n`. */
  function Teaching(ps: seq<Profile>, cs: seq<Info>, g: seq<nat>, n: nat): (r: seq<nat>)
    requires Within(cs, g) && n <= |ps|
    ensures Increasing(r)
    ensures forall k :: 0 <= k < |r| ==> r[k] < n
    ensures forall t: nat :: t in r <==> t < n && Taught(cs, g, ps[t].name)
  {
    if n == 0 then []
    else if Taught(cs, g, ps[n - 1].name) then Teaching(ps, cs, g, n - 1) + [n - 1]
    else Teaching(ps, cs, g, n - 1)
  }

  /** The teacher may sit an exam in `location`: that room is their preference, or they have none. */
  predicate Near(p: Profile, location: string)
  {
    p.preferredLocation.None? || p.preferredLocation == Some(location)
  }

  /** The non-teaching teachers `can_be_proctor` is asked about. */
  predicate Asked(ps: seq<Profile>, cs: seq<Info>, x: Sitting, t: nat)
    requires Within(cs, x.members) && t < |ps|
  {
    !Taught(cs, x.members, ps[t].name) && Near(ps[t], x.location)
  }

  /** `can_be_proctor(exam_date, exam_time)` of every teacher, `None` where it raises. */
  function Answers(ps: seq<Profile>, ls: seq<Load>, x: Sitting): (r: seq<Option<bool>>)
    requires |ps| == |ls|
    ensures |r| == |ps| && forall t :: 0 <= t < |ps| ==> r[t] == Proctorable(ps[t], ls[t], x.date, x.time)
  {
    seq(|ps|, t requires 0 <= t < |ps| => Proctorable(ps[t], ls[t], x.date, x.time))
  }

  /** `can_be_proctor` raises for some teacher among the first `n` it is asked about. */
  predicate Raises(ps: seq<Profile>, cs: seq<Info>, x: Sitting, v: seq<Option<bool>>, n: nat)
    requires Within(cs, x.members) && n <= |ps| == |v|
  {
    exists t :: 0 <= t < n && Asked(ps, cs, x, t) && v[t].None?
  }

  /** `other_teachers` (lines 196-198, 257-259), among the first `n`, given the answers `v` of
      `can_be_proctor`: the teachers it is asked about who may proctor, or `None` when it
      raises. */
  function Others(ps: seq<Profile>, cs: seq<Info>, x: Sitting, v: seq<Option<bool>>, n: nat): (r: Option<seq<nat>>)
    requires Within(cs, x.members) && n <= |ps| == |v|
    ensures r.None? <==> Raises(ps, cs, x, v, n)
    ensures r.Some? ==> Increasing(r.value) && forall k :: 0 <= k < |r.value| ==> r.value[k] < n
    ensures r.Some? ==> forall t: nat :: t in r.value <==> t < n && Asked(ps, cs, x, t) && v[t] == Some(true)
  {
    if n == 0 then Some([])
    else
      var o := Others(ps, cs, x, v, n - 1);
      var t := n - 1;
      if o.None? then None
      else if !Asked(ps, cs, x, t) then o
      else if v[t].None? then None
      else if v[t].value then Some(o.value + [t])
      else o
  }

  /** `name` proctors as main a class of another exam on the exam's date, at its time or in
      another room (lines 157-170, 201-214). */
  predicate MainClash(cs: seq<Info>, mains: seq<Option<string>>, x: Sitting, name: string)
    requires |mains| == |cs|
  {
    exists c :: 0 <= c < |cs| && c !in x.members && cs[c].date == x.date
                && (cs[c].time == x.time || cs[c].location != x.location) && mains[c] == Some(name)
  }

  function MainClashing(ps: seq<Profile>, cs: seq<Info>, mains: seq<Option<string>>, x: Sitting): (r: set<nat>)
    requires |mains| == |cs|
    ensures forall t: nat :: t in r <==> t < |ps| && MainClash(cs, mains, x, ps[t].name)
  {
    set t | 0 <= t < |ps| && MainClash(cs, mains, x, ps[t].name)
  }

  /** The name occurs in a class's joint entry. */
  predicate Named(j: Option<string>, name: string)
  {
    j.Some? && Contains(j.value, name)
  }

  /** `name` proctors, as main or joint, a class of any exam (this one too) on the exam's date,
      at its time or in another room (lines 262-296); a joint entry is searched for the name
      as a substring. */
  predicate JointClash(cs: seq<Info>, d: Desk, x: Sitting, name: string)
    requires |d.mains| == |cs| && |d.joints| == |cs|
  {
    exists c :: 0 <= c < |cs| && cs[c].date == x.date && (cs[c].time == x.time || cs[c].location != x.location)
                && (d.mains[c] == Some(name) || Named(d.joints[c], name))
  }

  function JointClashing(ps: seq<Profile>, cs: seq<Info>, d: Desk, x: Sitting): (r: set<nat>)
    requires |d.mains| == |cs| && |d.joints| == |cs|
    ensures forall t: nat :: t in r <==> t < |ps| && JointClash(cs, d, x, ps[t].name)
  {
    set t | 0 <= t < |ps| && JointClash(cs, d, x, ps[t].name)
  }

  /** Not exempt from main duty and free on the date (line 173). */
  function MainFree(ps: seq<Profile>, date: string): (r: set<nat>)
    ensures forall t: nat :: t in r <==> t < |ps| && ps[t].exemptedMain.None? && date !in ps[t].unavailableDates
  {
    set t | 0 <= t < |ps| && ps[t].exemptedMain.None? && date !in ps[t].unavailableDates
  }

  /** Free on the date of every class of the exam (line 230). */
  function AllFree(ps: seq<Profile>, cs: seq<Info>, g: seq<nat>): (r: set<nat>)
    requires Within(cs, g)
    ensures forall t: nat :: t in r <==> t < |ps| && forall k :: 0 <= k < |g| ==> cs[g[k]].date !in ps[t].unavailableDates
  {
    set t | 0 <= t < |ps| && forall k :: 0 <= k < |g| ==> cs[g[k]].date !in ps[t].unavailableDates
  }

  /** Free on the date (lines 306, 321). */
  function DateFree(ps: seq<Profile>, date: string): (r: set<nat>)
    ensures forall t: nat :: t in r <==> t < |ps| && date !in ps[t].unavailableDates
  {
    set t | 0 <= t < |ps| && date !in ps[t].unavailableDates
  }

  // ---------------------------------------------------------------------------
  // Assignments.

  /** Teacher `t` becomes the main proctor of every class of the exam (lines 174-178, 231-235). */
  function Crown(ps: seq<Profile>, cs: seq<Info>, d: Desk, x: Sitting, t: nat): (r: Desk)
    requires Shaped(ps, cs, d) && Proper(cs, x) && t < |ps|
    ensures Shaped(ps, cs, r)
    ensures r.loads == d.loads[t := CreditMain(d.loads[t], LastCourse(cs, x))] && r.joints == d.joints
    ensures forall c :: 0 <= c < |cs| ==> r.mains[c] == if c in x.members then Some(ps[t].name) else d.mains[c]
  {
    Desk(d.loads[t := CreditMain(d.loads[t], LastCourse(cs, x))], Assign(d.mains, x.members, ps[t].name), d.joints)
  }

  /** Teacher `t` becomes the joint proctor of every class of the exam (lines 307-311). */
  function Deputy(ps: seq<Profile>, cs: seq<Info>, d: Desk, x: Sitting, t: nat): (r: Desk)
    requires Shaped(ps, cs, d) && Proper(cs, x) && t < |ps|
    ensures Shaped(ps, cs, r)
    ensures r.loads == d.loads[t := CreditJoint(d.loads[t], LastCourse(cs, x))] && r.mains == d.mains
    ensures forall c :: 0 <= c < |cs| ==> r.joints[c] == if c in x.members then Some(ps[t].name) else d.joints[c]
  {
    Desk(d.loads[t := CreditJoint(d.loads[t], LastCourse(cs, x))], d.mains, Assign(d.joints, x.members, ps[t].name))
  }

  /** One more name on a joint entry (lines 323-326). */
  function Append(j: Option<string>, name: string): (r: Option<string>)
    ensures r.Some? && (Truthy(j) ==> r.value == j.value + ", " + name) && (!Truthy(j) ==> r.value == name)
  {
    if Truthy(j) then Some(j.value + ", " + name) else Some(name)
  }

  function Extend(joints: seq<Option<string>>, g: seq<nat>, name: string): (r: seq<Option<string>>)
    ensures |r| == |joints|
    ensures forall c :: 0 <= c < |joints| ==> r[c] == if c in g then Append(joints[c], name) else joints[c]
  {
    seq(|joints|, c requires 0 <= c < |joints| => if c in g then Append(joints[c], name) else joints[c])
  }

  /** Teacher `t` is added to the joint entries of the exam (lines 321-330). */
  function Second(ps: seq<Profile>, cs: seq<Info>, d: Desk, x: Sitting, t: nat): (r: Desk)
    requires Shaped(ps, cs, d) && Proper(cs, x) && t < |ps|
    ensures Shaped(ps, cs, r)
    ensures r.loads == d.loads[t := CreditJoint(d.loads[t], LastCourse(cs, x))] && r.mains == d.mains
    ensures r.joints == Extend(d.joints, x.members, ps[t].name)
  {
    Desk(d.loads[t := CreditJoint(d.loads[t], LastCourse(cs, x))], d.mains, Extend(d.joints, x.members, ps[t].name))
  }

  /** `Second` for each of `picks`, in order. */
  function Seconds(ps: seq<Profile>, cs: seq<Info>, d: Desk, x: Sitting, picks: seq<nat>): (r: Desk)
    requires Shaped(ps, cs, d) && Proper(cs, x) && forall k :: 0 <= k < |picks| ==> picks[k] < |ps|
    ensures Shaped(ps, cs, r) && r.mains == d.mains
    decreases |picks|
  {
    if picks == [] then d else Seconds(ps, cs, Second(ps, cs, d, x, picks[0]), x, picks[1..])
  }

  // ---------------------------------------------------------------------------
  // One exam of each pass.

  /** The teaching pass (lines 143-179): unless a class already has a main proctor, the
      first teacher of the exam's classes left by the sieve who is not exempt and free that
      day. */
  function MainTurn(ps: seq<Profile>, cs: seq<Info>, d: Desk, x: Sitting): (r: Turn)
    requires Shaped(ps, cs, d) && Proper(cs, x)
    ensures Shaped(ps, cs, r.desk) && |r.picks| <= 1
  {
    if Engaged(d.mains, x.members) then Turn(d, []) else MainPick(ps, cs, d, x)
  }

  /** The pick of the teaching pass among the exam's teachers. */
  function MainPick(ps: seq<Profile>, cs: seq<Info>, d: Desk, x: Sitting): (r: Turn)
    requires Shaped(ps, cs, d) && Proper(cs, x)
    ensures Shaped(ps, cs, r.desk) && |r.picks| <= 1
  {
    var s := Sieve(Teaching(ps, cs, x.members, |ps|), MainClashing(ps, cs, d.mains, x));
    match First(s, MainFree(ps, x.date))
    case None => Turn(d, [])
    case Some(k) =>
      assert s[k] in Teaching(ps, cs, x.members, |ps|);
      Turn(Crown(ps, cs, d, x, s[k]), [s[k]])
  }

  /** The non-teaching candidates of the main pass, lightest first (lines 196-216). */
  function MainQueue(ps: seq<Profile>, cs: seq<Info>, d: Desk, o: seq<nat>, x: Sitting): (r: seq<nat>)
    requires Shaped(ps, cs, d) && Proper(cs, x)
    ensures forall t :: t in r ==> t in o
    ensures forall t :: t in r <==> t in Sieve(o, MainClashing(ps, cs, d.mains, x))
    ensures forall i, j :: 0 <= i < j < |r| ==> Key(Workloads(d.loads), r[i]) <= Key(Workloads(d.loads), r[j])
  {
    var s := Sieve(o, MainClashing(ps, cs, d.mains, x));
    var r := ByKey(s, Workloads(d.loads));
    assert forall t :: t in r <==> t in s by {
      forall t ensures t in r <==> t in s {
        assert t in r <==> t in multiset(r);
        assert t in s <==> t in multiset(s);
      }
    }
    r
  }

  /** The non-teaching pass (lines 182-236): unless a class already has a main proctor, the
      lightest non-teaching teacher left by the sieve who is free on every class's date. */
  function OtherTurn(ps: seq<Profile>, cs: seq<Info>, d: Desk, x: Sitting): (r: Option<Turn>)
    requires Shaped(ps, cs, d) && Proper(cs, x)
    ensures r.Some? ==> Shaped(ps, cs, r.value.desk) && |r.value.picks| <= 1
    ensures r.None? <==> !Engaged(d.mains, x.members) && Raises(ps, cs, x, Answers(ps, d.loads, x), |ps|)
  {
    if Engaged(d.mains, x.members) then Some(Turn(d, []))
    else
      match Others(ps, cs, x, Answers(ps, d.loads, x), |ps|)
      case None => None
      case Some(o) => Some(OtherPick(ps, cs, d, x, o))
  }

  /** The pick of the non-teaching pass among the candidates `o`. */
  function OtherPick(ps: seq<Profile>, cs: seq<Info>, d: Desk, x: Sitting, o: seq<nat>): (r: Turn)
    requires Shaped(ps, cs, d) && Proper(cs, x) && forall t :: t in o ==> t < |ps|
    ensures Shaped(ps, cs, r.desk) && |r.picks| <= 1
  {
    var s := MainQueue(ps, cs, d, o, x);
    match First(s, AllFree(ps, cs, x.members))
    case None => Turn(d, [])
    case Some(k) =>
      assert s[k] in o;
      Turn(Crown(ps, cs, d, x, s[k]), [s[k]])
  }

  /** Exams of 31 to 80 students (lines 303-314): the first teaching teacher free that day, and
      if that leaves no class with a joint proctor, the first such of the others. */
  function SingleJoint(ps: seq<Profile>, cs: seq<Info>, d: Desk, x: Sitting, te: seq<nat>, ot: seq<nat>): (r: Turn)
    requires Shaped(ps, cs, d) && Proper(cs, x)
    requires forall t :: t in te ==> t < |ps|
    requires forall t :: t in ot ==> t < |ps|
    ensures Shaped(ps, cs, r.desk) && forall k :: 0 <= k < |r.picks| ==> r.picks[k] < |ps|
  {
    var ok := DateFree(ps, x.date);
    var t1 := match First(te, ok)
              case None => Turn(d, [])
              case Some(k) => Turn(Deputy(ps, cs, d, x, te[k]), [te[k]]);
    if Engaged(t1.desk.joints, x.members) then t1
    else
      match First(ot, ok)
      case None => t1
      case Some(k) => Turn(Deputy(ps, cs, t1.desk, x, ot[k]), t1.picks + [ot[k]])
  }

  /** The candidates of the joint pass: the exam's teachers, then the others lightest first,
      each without a clashing duty (lines 253-299). */
  datatype Pools = Pools(teaching: seq<nat>, others: seq<nat>)

  function JointPools(ps: seq<Profile>, cs: seq<Info>, d: Desk, x: Sitting, o: seq<nat>): (r: Pools)
    requires Shaped(ps, cs, d) && Proper(cs, x)
    requires forall t :: t in o ==> t < |ps|
    ensures forall t: nat :: t in r.teaching <==> t < |ps| && Taught(cs, x.members, ps[t].name) && t !in JointClashing(ps, cs, d, x)
    ensures forall t :: t in r.others <==> t in o && t !in JointClashing(ps, cs, d, x)
    ensures forall i, j :: 0 <= i < j < |r.others| ==> Key(Workloads(d.loads), r.others[i]) <= Key(Workloads(d.loads), r.others[j])
  {
    var bad := JointClashing(ps, cs, d, x);
    var kept := Keep(o, bad);
    var sorted := ByKey(kept, Workloads(d.loads));
    assert forall t :: t in sorted <==> t in kept by {
      forall t ensures t in sorted <==> t in kept {
        assert t in sorted <==> t in multiset(sorted);
        assert t in kept <==> t in multiset(kept);
      }
    }
    Pools(Keep(Teaching(ps, cs, x.members, |ps|), bad), sorted)
  }

  /** The joint pass (lines 242-332). */
  function JointTurn(ps: seq<Profile>, cs: seq<Info>, d: Desk, x: Sitting): (r: Option<Turn>)
    requires Shaped(ps, cs, d) && Proper(cs, x)
    ensures r.Some? ==> Shaped(ps, cs, r.value.desk)
    ensures r.None? <==> x.stu > 30 && Raises(ps, cs, x, Answers(ps, d.loads, x), |ps|)
  {
    if x.stu <= 30 then Some(Turn(d, []))
    else
      match Others(ps, cs, x, Answers(ps, d.loads, x), |ps|)
      case None => None
      case Some(o) => Some(JointPick(ps, cs, d, x, o))
  }

  /** The picks of the joint pass for an exam of more than 30 students, among the exam's
      teachers and the candidates `o`. */
  function JointPick(ps: seq<Profile>, cs: seq<Info>, d: Desk, x: Sitting, o: seq<nat>): (r: Turn)
    requires Shaped(ps, cs, d) && Proper(cs, x) && forall t :: t in o ==> t < |ps|
    ensures Shaped(ps, cs, r.desk) && forall k :: 0 <= k < |r.picks| ==> r.picks[k] < |ps|
  {
    var p := JointPools(ps, cs, d, x, o);
    if x.stu <= 80 then SingleJoint(ps, cs, d, x, p.teaching, p.others)
    else
      var picks := Earliest(p.teaching + p.others, DateFree(ps, x.date), 2);
      assert forall k :: 0 <= k < |picks| ==> picks[k] < |ps| by {
        forall k | 0 <= k < |picks| ensures picks[k] < |ps| {
          assert picks[k] in p.teaching + p.others;
        }
      }
      Turn(Seconds(ps, cs, d, x, picks), picks)
  }

  // ---------------------------------------------------------------------------
  // The passes over the exam list.

  predicate AllProper(cs: seq<Info>, plan: seq<Sitting>)
  {
    forall k :: 0 <= k < |plan| ==> Proper(cs, plan[k])
  }

  /** The teaching pass over the first `n` exams. */
  function MainPass(ps: seq<Profile>, cs: seq<Info>, d: Desk, plan: seq<Sitting>, n: nat): (r: Desk)
    requires Shaped(ps, cs, d) && AllProper(cs, plan) && n <= |plan|
    ensures Shaped(ps, cs, r)
  {
    if n == 0 then d else MainTurn(ps, cs, MainPass(ps, cs, d, plan, n - 1), plan[n - 1]).desk
  }

  /** The non-teaching pass over the exams from `n` on, starting from the desk `d`; `None` once
      one raises. */
  function OtherPass(ps: seq<Profile>, cs: seq<Info>, d: Desk, plan: seq<Sitting>, n: nat): (r: Option<Desk>)
    requires Shaped(ps, cs, d) && AllProper(cs, plan) && n <= |plan|
    ensures r.Some? ==> Shaped(ps, cs, r.value)
    decreases |plan| - n
  {
    if n == |plan| then Some(d)
    else
      match OtherTurn(ps, cs, d, plan[n])
      case None => None
      case Some(t) => OtherPass(ps, cs, t.desk, plan, n + 1)
  }

  /** The joint pass over the exams from `n` on, starting from the desk `d`; `None` once
      one raises. */
  function JointPass(ps: seq<Profile>, cs: seq<Info>, d: Desk, plan: seq<Sitting>, n: nat): (r: Option<Desk>)
    requires Shaped(ps, cs, d) && AllProper(cs, plan) && n <= |plan|
    ensures r.Some? ==> Shaped(ps, cs, r.value)
    decreases |plan| - n
  {
    if n == |plan| then Some(d)
    else
      match JointTurn(ps, cs, d, plan[n])
      case None => None
      case Some(t) => JointPass(ps, cs, t.desk, plan, n + 1)
  }

  /** Every entry of the exam list the classes' ids give is proper, its classes in order. */
  lemma {:induction false} PlanProper(cs: seq<Info>, ids: seq<Option<string>>)
    requires |ids| == |cs|
    ensures AllProper(cs, Plan(cs, ids))
    ensures forall k :: 0 <= k < |Plan(cs, ids)| ==> Increasing(Plan(cs, ids)[k].members)
  {
    forall k | 0 <= k < |Plan(cs, ids)|
      ensures Proper(cs, Plan(cs, ids)[k]) && Increasing(Plan(cs, ids)[k].members)
    {
      PlanEntries(cs, ids, k);
    }
  }

  /** The three passes over the exam list `plan`, in turn. */
  function Passes(ps: seq<Profile>, cs: seq<Info>, plan: seq<Sitting>, d: Desk): (r: Option<Desk>)
    requires Shaped(ps, cs, d) && AllProper(cs, plan)
    ensures r.Some? ==> Shaped(ps, cs, r.value)
  {
    var d1 := MainPass(ps, cs, d, plan, |plan|);
    match OtherPass(ps, cs, d1, plan, 0)
    case None => None
    case Some(d2) => JointPass(ps, cs, d2, plan, 0)
  }

  /** `assign_proctors` (lines 50-332) from the classes' ids and entries and the teachers'
      counters: the id pass, the exam list, then the three passes. */
  function Proctors(ps: seq<Profile>, cs: seq<Info>, ids: seq<Option<string>>, d: Desk): (r: Option<Desk>)
    requires Shaped(ps, cs, d) && |ids| == |cs|
    ensures r.Some? ==> Shaped(ps, cs, r.value)
  {
    PlanProper(cs, Ids(cs, ids, |cs|));
    Passes(ps, cs, Plan(cs, Ids(cs, ids, |cs|)), d)
  }
}
