/** The exam-id grouping of utils/exam_scu.py (lines 62-106): every class is given the id of
    the exam it sits, and small classes of one course, teacher list and room may share one. */
module ScuIds {
  import opened Base
  import opened Text
  import opened Order

  /** What `Class.__init__` stores and nothing later changes; `classId` is `str(class_id)` and
      `teachers` the list of teacher names. */
  datatype Info = Info(course: string, classId: string, teachers: seq<string>, stu: int,
                       date: string, time: string, location: string)

  /** `course + "_" + "_".join(ids) + "_" + location`. */
  function Label(course: string, ids: seq<string>, location: string): string
  {
    course + "_" + Join(ids, '_') + "_" + location
  }

  /** The id a class is given on its own. */
  function OwnId(c: Info): string
  {
    Label(c.course, [c.classId], c.location)
  }

  lemma {:induction false} OwnIdIs(c: Info)
    ensures OwnId(c) == c.course + "_" + c.classId + "_" + c.location
  {
  }

  /** Classes that may share an exam: the same course, the same teacher list, the same room. */
  predicate Alike(a: Info, b: Info)
  {
    a.course == b.course && a.teachers == b.teachers && a.location == b.location
  }

  predicate Within(cs: seq<Info>, g: seq<nat>)
  {
    forall k :: 0 <= k < |g| ==> g[k] < |cs|
  }

  predicate AllAlike(cs: seq<Info>, g: seq<nat>, x: Info)
    requires Within(cs, g)
  {
    forall k :: 0 <= k < |g| ==> Alike(cs[g[k]], x)
  }

  predicate Increasing(g: seq<nat>)
  {
    forall k, l :: 0 <= k < l < |g| ==> g[k] < g[l]
  }

  /** Every class below `n` alike `x` is in `g`. */
  predicate Complete(cs: seq<Info>, g: seq<nat>, x: Info, n: nat)
    requires n <= |cs|
  {
    forall j :: 0 <= j < n && Alike(cs[j], x) ==> j in g
  }

  /** The positions below `n` of the classes alike `x`, in class order (`teach_cls`). */
  function Mates(cs: seq<Info>, x: Info, n: nat): (r: seq<nat>)
    requires n <= |cs|
    ensures Within(cs, r) && AllAlike(cs, r, x) && Increasing(r) && Complete(cs, r, x, n)
    ensures forall k :: 0 <= k < |r| ==> r[k] < n
  {
    if n == 0 then []
    else if Alike(cs[n - 1], x) then Mates(cs, x, n - 1) + [n - 1]
    else Mates(cs, x, n - 1)
  }

  /** Alike classes have the same mates. */
  lemma {:induction false} MatesAlike(cs: seq<Info>, x: Info, y: Info, n: nat)
    requires n <= |cs| && Alike(x, y)
    ensures Mates(cs, x, n) == Mates(cs, y, n)
  {
    if n > 0 {
      MatesAlike(cs, x, y, n - 1);
    }
  }

  /** The classes alike class `j`, itself included. */
  function Group(cs: seq<Info>, j: nat): (g: seq<nat>)
    requires j < |cs|
    ensures j in g && Within(cs, g)
  {
    Mates(cs, cs[j], |cs|)
  }

  function ClassIds(cs: seq<Info>, g: seq<nat>): (r: seq<string>)
    requires Within(cs, g)
    ensures |r| == |g| && forall k :: 0 <= k < |g| ==> r[k] == cs[g[k]].classId
  {
    seq(|g|, k requires 0 <= k < |g| => cs[g[k]].classId)
  }

  /** The student counts, by position: the key `teach_cls` is sorted by. */
  function Stus(cs: seq<Info>): (r: seq<int>)
    ensures |r| == |cs| && forall i :: 0 <= i < |cs| ==> r[i] == cs[i].stu
  {
    seq(|cs|, i requires 0 <= i < |cs| => cs[i].stu)
  }

  /** `teach_cls.sort(key=lambda c: c.stu_count)` for three classes: the same three, fewest
      students first, classes with as many students in class order (the sort is stable). */
  function Ranked(cs: seq<Info>, a: nat, b: nat, c: nat): (s: seq<nat>)
    requires a < |cs| && b < |cs| && c < |cs|
    ensures |s| == 3 && s[0] < |cs| && s[1] < |cs| && s[2] < |cs|
    ensures s[0] in {a, b, c} && s[1] in {a, b, c} && s[2] in {a, b, c} && a in s && b in s && c in s
    ensures a != b && a != c && b != c ==> s[0] != s[1] && s[0] != s[2] && s[1] != s[2]
    ensures cs[s[0]].stu <= cs[s[1]].stu <= cs[s[2]].stu
    ensures a < b < c ==> (cs[s[0]].stu == cs[s[1]].stu ==> s[0] < s[1]) && (cs[s[1]].stu == cs[s[2]].stu ==> s[1] < s[2])
  {
    if cs[a].stu <= cs[b].stu then
      if cs[a].stu > cs[c].stu then [c, a, b]
      else if cs[b].stu > cs[c].stu then [a, c, b]
      else [a, b, c]
    else
      if cs[b].stu > cs[c].stu then [c, b, a]
      else if cs[a].stu > cs[c].stu then [b, c, a]
      else [b, a, c]
  }

  /** `sum(c.stu_count for c in g)`. */
  function Total(cs: seq<Info>, g: seq<nat>): int
    requires Within(cs, g)
  {
    if g == [] then 0 else Total(cs, g[..|g| - 1]) + cs[g[|g| - 1]].stu
  }

  /** `for c in g: c.exam_id = id`. */
  function Assign(ids: seq<Option<string>>, g: seq<nat>, id: string): (r: seq<Option<string>>)
    ensures |r| == |ids|
    ensures forall j :: 0 <= j < |ids| ==> r[j] == if j in g then Some(id) else ids[j]
  {
    if g == [] then ids
    else
      var r := Assign(ids, g[1..], id);
      if g[0] < |r| then r[g[0] := Some(id)] else r
  }

  /** One turn of the loop, for class `i`. */
  function IdStep(cs: seq<Info>, ids: seq<Option<string>>, i: nat): (r: seq<Option<string>>)
    requires |ids| == |cs| && i < |cs|
    ensures |r| == |cs|
  {
    var c := cs[i];
    if ids[i].Some? then ids
    else if c.stu > 25 then ids[i := Some(OwnId(c))]
    else
      var g := Group(cs, i);
      if |g| == 2 then Assign(ids, g, Label(c.course, ClassIds(cs, g), c.location))
      else if |g| == 3 then
        if Total(cs, g) <= 60 then ids
        else
          var s := Ranked(cs, g[0], g[1], g[2]);
          var pair := Assign(ids, [s[0], s[1]], Label(c.course, ClassIds(cs, [s[0], s[1]]), c.location));
          Assign(pair, [s[2]], Label(c.course, [cs[s[2]].classId], c.location))
      else if |g| > 3 then ids
      else ids[i := Some(OwnId(c))]
  }

  /** The ids after the turns of the first `n` classes. */
  function Ids(cs: seq<Info>, ids: seq<Option<string>>, n: nat): (r: seq<Option<string>>)
    requires |ids| == |cs| && n <= |cs|
    ensures |r| == |cs|
  {
    if n == 0 then ids else IdStep(cs, Ids(cs, ids, n - 1), n - 1)
  }

  // ---------------------------------------------------------------------------
  // The outcome of the whole loop, stated group by group.

  /** A group is written to when its first small class without an id comes up: a pair or a
      single class always, three classes only when they hold more than 60 students, four or
      more never. */
  predicate Writes(cs: seq<Info>, g: seq<nat>)
    requires Within(cs, g)
  {
    |g| <= 2 || (|g| == 3 && Total(cs, g) > 60)
  }

  /** What that turn gives member `y` of `g`: pairs and single classes share the joined id; of
      three, the two with fewest students share one and the largest is given its own. */
  function Fixed(cs: seq<Info>, g: seq<nat>, y: nat): string
    requires Within(cs, g) && y < |cs|
  {
    var c := cs[y];
    if |g| <= 2 then Label(c.course, ClassIds(cs, g), c.location)
    else if |g| == 3 then
      var s := Ranked(cs, g[0], g[1], g[2]);
      if y == s[2] then Label(c.course, [c.classId], c.location)
      else Label(c.course, ClassIds(cs, [s[0], s[1]]), c.location)
    else OwnId(c)
  }

  /** Some class of `g` among the first `n` is small and had no id before the loop. */
  predicate Triggered(cs: seq<Info>, ids: seq<Option<string>>, g: seq<nat>, n: nat)
    requires |ids| == |cs| && Within(cs, g)
  {
    exists k :: 0 <= k < |g| && g[k] < n && ids[g[k]].None? && cs[g[k]].stu <= 25
  }

  /** The id of class `j` once the first `n` classes have had their turn. */
  function Outcome(cs: seq<Info>, ids: seq<Option<string>>, n: nat, j: nat): Option<string>
    requires |ids| == |cs| && j < |cs|
  {
    var g := Group(cs, j);
    if Writes(cs, g) && Triggered(cs, ids, g, n) then Some(Fixed(cs, g, j))
    else if j < n && ids[j].None? && cs[j].stu > 25 then Some(OwnId(cs[j]))
    else ids[j]
  }

  /** The turn of a small class without an id, when its group is two classes. */
  lemma {:induction false} PairTurn(cs: seq<Info>, ids: seq<Option<string>>, i: nat)
    requires |ids| == |cs| && i < |cs| && ids[i].None? && cs[i].stu <= 25 && |Group(cs, i)| == 2
    ensures var g := Group(cs, i);
            forall j :: 0 <= j < |cs| ==> IdStep(cs, ids, i)[j] == if j in g then Some(Fixed(cs, g, j)) else ids[j]
  {
    var g := Group(cs, i);
    assert AllAlike(cs, g, cs[i]);
    assert Alike(cs[g[0]], cs[i]) && Alike(cs[g[1]], cs[i]);
  }

  /** The turn of a small class without an id, when its group is three classes of more than
      60 students. */
  lemma {:induction false} TripleTurn(cs: seq<Info>, ids: seq<Option<string>>, i: nat)
    requires |ids| == |cs| && i < |cs| && ids[i].None? && cs[i].stu <= 25
    requires |Group(cs, i)| == 3 && Total(cs, Group(cs, i)) > 60
    ensures var g := Group(cs, i);
            forall j :: 0 <= j < |cs| ==> IdStep(cs, ids, i)[j] == if j in g then Some(Fixed(cs, g, j)) else ids[j]
  {
    var c := cs[i];
    var g := Group(cs, i);
    var g0, g1, g2 := g[0], g[1], g[2];
    var s := Ranked(cs, g0, g1, g2);
    var s0, s1, s2 := s[0], s[1], s[2];
    var pair := Assign(ids, [s0, s1], Label(c.course, ClassIds(cs, [s0, s1]), c.location));
    var r := Assign(pair, [s2], Label(c.course, [cs[s2].classId], c.location));
    assert IdStep(cs, ids, i) == r;
    assert AllAlike(cs, g, c);
    forall j | 0 <= j < |cs|
      ensures r[j] == if j in g then Some(Fixed(cs, g, j)) else ids[j]
    {
      if j in g {
        assert j == g0 || j == g1 || j == g2;
        assert Alike(cs[j], c);
      }
    }
  }

  /** The turn of a small class without an id: its group's outcome, when the group is written
      to, and no change otherwise. */
  lemma {:induction false} SmallTurn(cs: seq<Info>, ids: seq<Option<string>>, i: nat)
    requires |ids| == |cs| && i < |cs| && ids[i].None? && cs[i].stu <= 25
    ensures var g := Group(cs, i);
            forall j :: 0 <= j < |cs| ==>
              IdStep(cs, ids, i)[j] == if j in g && Writes(cs, g) then Some(Fixed(cs, g, j)) else ids[j]
  {
    var g := Group(cs, i);
    if |g| == 2 {
      PairTurn(cs, ids, i);
    } else if |g| == 3 && Total(cs, g) > 60 {
      TripleTurn(cs, ids, i);
    } else if |g| < 2 {
      assert g == [i] by {
        assert i in g;
      }
      assert ClassIds(cs, g) == [cs[i].classId];
    }
  }

  /** A turn changes only classes alike the one whose turn it is. */
  lemma {:induction false} StepTouches(cs: seq<Info>, ids: seq<Option<string>>, i: nat, j: nat)
    requires |ids| == |cs| && i < |cs| && j < |cs| && !Alike(cs[j], cs[i])
    ensures IdStep(cs, ids, i)[j] == ids[j]
  {
    if ids[i].None? && cs[i].stu <= 25 {
      SmallTurn(cs, ids, i);
      assert j !in Group(cs, i);
    } else {
      assert j != i;
    }
  }

  /** A turn of a small class without an id applies the group's outcome. */
  lemma {:induction false} StepTriggers(cs: seq<Info>, ids: seq<Option<string>>, i: nat, j: nat)
    requires |ids| == |cs| && i < |cs| && j < |cs| && Alike(cs[j], cs[i])
    requires ids[i].None? && cs[i].stu <= 25
    ensures Group(cs, j) == Group(cs, i)
    ensures var g := Group(cs, i);
            IdStep(cs, ids, i)[j] == if Writes(cs, g) then Some(Fixed(cs, g, j)) else ids[j]
  {
    MatesAlike(cs, cs[j], cs[i], |cs|);
    SmallTurn(cs, ids, i);
  }

  /** A turn leaves the outcome of classes not alike the one whose turn it is. */
  lemma {:induction false} OutcomeApart(cs: seq<Info>, ids: seq<Option<string>>, before: seq<Option<string>>, i: nat, j: nat)
    requires |ids| == |cs| && |before| == |cs| && i < |cs| && j < |cs| && !Alike(cs[j], cs[i])
    requires before[j] == Outcome(cs, ids, i, j)
    ensures IdStep(cs, before, i)[j] == Outcome(cs, ids, i + 1, j)
  {
    StepTouches(cs, before, i, j);
    var g := Group(cs, j);
    assert i !in g;
    assert Triggered(cs, ids, g, i + 1) == Triggered(cs, ids, g, i);
  }

  /** Once a written group has been triggered, later turns of its classes change nothing. */
  lemma {:induction false} OutcomeSettled(cs: seq<Info>, ids: seq<Option<string>>, before: seq<Option<string>>, i: nat, j: nat)
    requires |ids| == |cs| && |before| == |cs| && i < |cs| && j < |cs| && Group(cs, i) == Group(cs, j)
    requires Writes(cs, Group(cs, j)) && Triggered(cs, ids, Group(cs, j), i)
    requires before[j] == Outcome(cs, ids, i, j) && before[i] == Outcome(cs, ids, i, i)
    ensures IdStep(cs, before, i)[j] == Outcome(cs, ids, i + 1, j)
  {
    var g := Group(cs, j);
    assert before[i].Some?;
    var k :| 0 <= k < |g| && g[k] < i && ids[g[k]].None? && cs[g[k]].stu <= 25;
    assert Triggered(cs, ids, g, i + 1);
  }

  /** The turn of a class that had an id before the loop, or is large. */
  lemma {:induction false} OutcomeOwn(cs: seq<Info>, ids: seq<Option<string>>, before: seq<Option<string>>, i: nat, j: nat)
    requires |ids| == |cs| && |before| == |cs| && i < |cs| && j < |cs| && Group(cs, i) == Group(cs, j)
    requires !(Writes(cs, Group(cs, j)) && Triggered(cs, ids, Group(cs, j), i))
    requires ids[i].Some? || cs[i].stu > 25
    requires before[j] == Outcome(cs, ids, i, j) && before[i] == Outcome(cs, ids, i, i)
    ensures IdStep(cs, before, i)[j] == Outcome(cs, ids, i + 1, j)
  {
    var g := Group(cs, j);
    assert before[i] == ids[i];
    assert Triggered(cs, ids, g, i + 1) == Triggered(cs, ids, g, i);
  }

  /** The turn of a small class without an id before the loop, which triggers its group. */
  lemma {:induction false} OutcomeSmall(cs: seq<Info>, ids: seq<Option<string>>, before: seq<Option<string>>, i: nat, j: nat)
    requires |ids| == |cs| && |before| == |cs| && i < |cs| && j < |cs| && Alike(cs[j], cs[i])
    requires Group(cs, i) == Group(cs, j)
    requires !(Writes(cs, Group(cs, j)) && Triggered(cs, ids, Group(cs, j), i))
    requires ids[i].None? && cs[i].stu <= 25
    requires before[j] == Outcome(cs, ids, i, j) && before[i] == Outcome(cs, ids, i, i)
    ensures IdStep(cs, before, i)[j] == Outcome(cs, ids, i + 1, j)
  {
    var g := Group(cs, j);
    assert before[i] == ids[i];
    StepTriggers(cs, before, i, j);
    var k :| 0 <= k < |g| && g[k] == i;
    assert Triggered(cs, ids, g, i + 1);
  }

  /** A turn moves alike classes to their outcome one turn later. */
  lemma {:induction false} OutcomeAlike(cs: seq<Info>, ids: seq<Option<string>>, before: seq<Option<string>>, i: nat, j: nat)
    requires |ids| == |cs| && |before| == |cs| && i < |cs| && j < |cs| && Alike(cs[j], cs[i])
    requires before[j] == Outcome(cs, ids, i, j) && before[i] == Outcome(cs, ids, i, i)
    ensures IdStep(cs, before, i)[j] == Outcome(cs, ids, i + 1, j)
  {
    var g := Group(cs, j);
    MatesAlike(cs, cs[j], cs[i], |cs|);
    if Writes(cs, g) && Triggered(cs, ids, g, i) {
      OutcomeSettled(cs, ids, before, i, j);
    } else if ids[i].Some? || cs[i].stu > 25 {
      OutcomeOwn(cs, ids, before, i, j);
    } else {
      OutcomeSmall(cs, ids, before, i, j);
    }
  }

  /** The loop invariant: after `n` turns every class holds its outcome. */
  lemma {:induction false} IdsOutcome(cs: seq<Info>, ids: seq<Option<string>>, n: nat, j: nat)
    requires |ids| == |cs| && n <= |cs| && j < |cs|
    ensures Ids(cs, ids, n)[j] == Outcome(cs, ids, n, j)
  {
    if n > 0 {
      var i := n - 1;
      var before := Ids(cs, ids, i);
      IdsOutcome(cs, ids, i, j);
      if !Alike(cs[j], cs[i]) {
        OutcomeApart(cs, ids, before, i, j);
      } else {
        IdsOutcome(cs, ids, i, i);
        OutcomeAlike(cs, ids, before, i, j);
      }
    }
  }

  /** The whole loop: every class ends with the id of its group's outcome. */
  lemma {:induction false} IdsFinal(cs: seq<Info>, ids: seq<Option<string>>, j: nat)
    requires |ids| == |cs| && j < |cs|
    ensures Ids(cs, ids, |cs|)[j] == Outcome(cs, ids, |cs|, j)
  {
    IdsOutcome(cs, ids, |cs|, j);
  }

  /** A class is left without an id exactly when it had none, holds at most 25 students and
      its group is three classes of at most 60 students in all, or four or more classes. */
  lemma {:induction false} Unassigned(cs: seq<Info>, ids: seq<Option<string>>, j: nat)
    requires |ids| == |cs| && j < |cs|
    ensures Ids(cs, ids, |cs|)[j].None? <==>
            ids[j].None? && cs[j].stu <= 25 && !Writes(cs, Group(cs, j))
  {
    IdsOutcome(cs, ids, |cs|, j);
    var g := Group(cs, j);
    if ids[j].None? && cs[j].stu <= 25 {
      var k :| 0 <= k < |g| && g[k] == j;
      assert Triggered(cs, ids, g, |cs|);
    }
  }

  /** An id, once given, is never taken away: a class that had one, or holds more than 25
      students, ends with one. */
  lemma {:induction false} Kept(cs: seq<Info>, ids: seq<Option<string>>, j: nat)
    requires |ids| == |cs| && j < |cs|
    requires ids[j].Some? || cs[j].stu > 25
    ensures Ids(cs, ids, |cs|)[j].Some?
  {
    Unassigned(cs, ids, j);
  }

  /** Exactly two alike classes, one of them small and without an id: both end with the id
      joining their class ids, in class order. */
  lemma {:induction false} PairShares(cs: seq<Info>, ids: seq<Option<string>>, a: nat, b: nat)
    requires |ids| == |cs| && a < b < |cs| && Group(cs, a) == [a, b]
    requires (ids[a].None? && cs[a].stu <= 25) || (ids[b].None? && cs[b].stu <= 25)
    ensures var id := Some(Label(cs[a].course, [cs[a].classId, cs[b].classId], cs[a].location));
            Ids(cs, ids, |cs|)[a] == id && Ids(cs, ids, |cs|)[b] == id
  {
    var g := [a, b];
    assert b in Group(cs, a);
    MatesAlike(cs, cs[b], cs[a], |cs|);
    assert Group(cs, b) == g;
    assert Triggered(cs, ids, g, |cs|) by {
      if ids[a].None? && cs[a].stu <= 25 {
        assert g[0] == a;
      } else {
        assert g[1] == b;
      }
    }
    IdsOutcome(cs, ids, |cs|, a);
    IdsOutcome(cs, ids, |cs|, b);
    assert ClassIds(cs, g) == [cs[a].classId, cs[b].classId];
  }

  /** Three distinct classes ranked by students: the same three, each once. */
  lemma {:induction false} RankedThree(cs: seq<Info>, g: seq<nat>)
    requires Within(cs, g) && |g| == 3 && Increasing(g)
    ensures var s := Ranked(cs, g[0], g[1], g[2]);
            && s[0] in g && s[1] in g && s[2] in g && s[0] != s[1] && s[0] != s[2] && s[1] != s[2]
  {
    assert g[0] < g[1] < g[2];
  }

  /** A member of a group that is written to ends with what the group's turn gives it. */
  lemma {:induction false} MemberFixed(cs: seq<Info>, ids: seq<Option<string>>, j: nat, y: nat)
    requires |ids| == |cs| && j < |cs| && y in Group(cs, j)
    requires Writes(cs, Group(cs, j)) && Triggered(cs, ids, Group(cs, j), |cs|)
    ensures Alike(cs[y], cs[j]) && Ids(cs, ids, |cs|)[y] == Some(Fixed(cs, Group(cs, j), y))
  {
    var g := Group(cs, j);
    assert AllAlike(cs, g, cs[j]);
    MatesAlike(cs, cs[y], cs[j], |cs|);
    IdsOutcome(cs, ids, |cs|, y);
  }

  /** Three alike classes of more than 60 students, one of them small and without an id: the
      two with fewest students (the earlier on a tie) share an id and the largest has its own. */
  lemma {:induction false} TripleSplits(cs: seq<Info>, ids: seq<Option<string>>, j: nat)
    requires |ids| == |cs| && j < |cs|
    requires var g := Group(cs, j); |g| == 3 && Total(cs, g) > 60 && Triggered(cs, ids, g, |cs|)
    ensures var s := Ranked(cs, Group(cs, j)[0], Group(cs, j)[1], Group(cs, j)[2]);
            && s[0] in Group(cs, j) && s[1] in Group(cs, j) && s[2] in Group(cs, j)
            && s[0] != s[1] && s[0] != s[2] && s[1] != s[2] && cs[s[0]].stu <= cs[s[1]].stu <= cs[s[2]].stu
            && Ids(cs, ids, |cs|)[s[2]] == Some(OwnId(cs[s[2]]))
            && Ids(cs, ids, |cs|)[s[0]] == Ids(cs, ids, |cs|)[s[1]]
            == Some(Label(cs[j].course, [cs[s[0]].classId, cs[s[1]].classId], cs[j].location))
  {
    var g := Group(cs, j);
    var s := Ranked(cs, g[0], g[1], g[2]);
    RankedThree(cs, g);
    MemberFixed(cs, ids, j, s[0]);
    MemberFixed(cs, ids, j, s[1]);
    MemberFixed(cs, ids, j, s[2]);
    assert ClassIds(cs, [s[0], s[1]]) == [cs[s[0]].classId, cs[s[1]].classId];
  }
}
