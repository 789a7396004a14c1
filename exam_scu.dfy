/** `assign_proctors` of utils/exam_scu.py (lines 50-332) as the steps it takes on the `Teacher`
    and `Class` objects. Every method is proved against the functions of `ScuIds`, `ScuPlan`
    and `ScuPass`: ghost values carry the state those functions describe, and the
    predicates `IdsHold` and `Holds` say that the objects hold it. */
module ExamScu {
  import opened Base
  import opened Text
  import opened Order
  import opened Staff
  import opened ScuIds
  import opened ScuPlan
  import opened ScuPass
  import opened ScuLaws

  /** `Class` (lines 36-47). */
  class Section {
    const course: string
    const classId: string
    const teachers: seq<string>
    const stu: int
    const date: string
    const time: string
    const location: string
    var examId: Option<string>
    var mainProctor: Option<string>
    var jointProctor: Option<string>

    constructor (course: string, classId: string, teachers: seq<string>, stu: int,
                 date: string, time: string, location: string)
      ensures InfoOf(this) == Info(course, classId, teachers, stu, date, time, location)
      ensures examId == None && mainProctor == None && jointProctor == None
    {
      this.course := course;
      this.classId := classId;
      this.teachers := teachers;
      this.stu := stu;
      this.date := date;
      this.time := time;
      this.location := location;
      examId := None;
      mainProctor := None;
      jointProctor := None;
    }
  }

  function InfoOf(s: Section): Info
  {
    Info(s.course, s.classId, s.teachers, s.stu, s.date, s.time, s.location)
  }

  function Infos(secs: seq<Section>): (r: seq<Info>)
    ensures |r| == |secs| && forall i :: 0 <= i < |secs| ==> r[i] == InfoOf(secs[i])
  {
    seq(|secs|, i requires 0 <= i < |secs| => InfoOf(secs[i]))
  }

  /** No class object appears twice. */
  predicate ApartSections(secs: seq<Section>)
  {
    forall i, j :: 0 <= i < |secs| && 0 <= j < |secs| && i != j ==> secs[i] != secs[j]
  }

  /** The classes hold the exam ids `ids`. */
  ghost predicate IdsHold(secs: seq<Section>, ids: seq<Option<string>>)
    reads secs
  {
    |ids| == |secs| && forall c :: 0 <= c < |secs| ==> secs[c].examId == ids[c]
  }

  /** The classes hold the proctor entries `mains` and `joints`. */
  ghost predicate EntriesHold(secs: seq<Section>, mains: seq<Option<string>>, joints: seq<Option<string>>)
    reads secs
  {
    && |mains| == |secs| && |joints| == |secs|
    && forall c :: 0 <= c < |secs| ==> secs[c].mainProctor == mains[c] && secs[c].jointProctor == joints[c]
  }

  /** The teachers hold the counters of `d`, the classes the ids `ids` and the proctor
      entries of `d`. */
  ghost predicate Holds(ts: seq<Teacher>, secs: seq<Section>, ids: seq<Option<string>>, d: Desk)
    reads ts, secs
  {
    TeachersHold(ts, d.loads) && IdsHold(secs, ids) && EntriesHold(secs, d.mains, d.joints)
  }

  // ---------------------------------------------------------------------------
  // The exam ids (lines 62-106).

  /** `for c in g: c.exam_id = id`. */
  method SetIds(secs: seq<Section>, g: seq<nat>, id: string, ghost ids: seq<Option<string>>, ghost d: Desk)
    requires ApartSections(secs) && IdsHold(secs, ids) && EntriesHold(secs, d.mains, d.joints)
    requires Within(Infos(secs), g)
    modifies secs
    ensures IdsHold(secs, Assign(ids, g, id)) && EntriesHold(secs, d.mains, d.joints)
  {
    for k := 0 to |g|
      invariant EntriesHold(secs, d.mains, d.joints)
      invariant forall c :: 0 <= c < |secs| ==> secs[c].examId == if c in g[..k] then Some(id) else ids[c]
    {
      secs[g[k]].examId := Some(id);
      assert forall c :: c in g[..k + 1] <==> c in g[..k] || c == g[k] by {
        assert g[..k + 1] == g[..k] + [g[k]];
      }
    }
    assert g[..|g|] == g;
  }

  /** `c.exam_id = id` for the one class `c`. */
  method SetId(secs: seq<Section>, c: nat, id: string, ghost ids: seq<Option<string>>, ghost d: Desk)
    requires ApartSections(secs) && IdsHold(secs, ids) && EntriesHold(secs, d.mains, d.joints) && c < |secs|
    modifies secs[c]
    ensures IdsHold(secs, ids[c := Some(id)]) && EntriesHold(secs, d.mains, d.joints)
  {
    secs[c].examId := Some(id);
  }

  /** One turn of the loop of lines 63-106, for class `i`. */
  method IdTurn(secs: seq<Section>, i: nat, ghost ids: seq<Option<string>>, ghost d: Desk)
    requires ApartSections(secs) && IdsHold(secs, ids) && EntriesHold(secs, d.mains, d.joints) && i < |secs|
    modifies secs
    ensures IdsHold(secs, IdStep(Infos(secs), ids, i)) && EntriesHold(secs, d.mains, d.joints)
  {
    var cls := secs[i];
    if cls.examId.Some? {
      return;
    }
    var cs := Infos(secs);
    if cls.stu > 25 {
      OwnIdIs(cs[i]);
      SetId(secs, i, cls.course + "_" + cls.classId + "_" + cls.location, ids, d);
      return;
    }
    var teachCls := Group(cs, i);
    if |teachCls| > 1 {
      if |teachCls| == 2 {
        SetIds(secs, teachCls, Label(cls.course, ClassIds(cs, teachCls), cls.location), ids, d);
      } else if |teachCls| == 3 {
        if Total(cs, teachCls) > 60 {
          // At 60 students or fewer an id is formed and never stored.
          SplitThree(secs, i, teachCls, ids, d);
        }
      }
    } else {
      OwnIdIs(cs[i]);
      SetId(secs, i, cls.course + "_" + cls.classId + "_" + cls.location, ids, d);
    }
  }

  /** Lines 100-103: of three classes, the two with fewest students share an id and the third
      is given its own. */
  method SplitThree(secs: seq<Section>, i: nat, g: seq<nat>, ghost ids: seq<Option<string>>, ghost d: Desk)
    requires ApartSections(secs) && IdsHold(secs, ids) && EntriesHold(secs, d.mains, d.joints)
    requires i < |secs| && Within(Infos(secs), g) && |g| == 3
    modifies secs
    ensures var cs := Infos(secs);
            var s := Ranked(cs, g[0], g[1], g[2]);
            var pair := Assign(ids, [s[0], s[1]], Label(cs[i].course, ClassIds(cs, [s[0], s[1]]), cs[i].location));
            IdsHold(secs, Assign(pair, [s[2]], Label(cs[i].course, [cs[s[2]].classId], cs[i].location)))
    ensures EntriesHold(secs, d.mains, d.joints)
  {
    var cs := Infos(secs);
    var cls := secs[i];
    var sorted := Ranked(cs, g[0], g[1], g[2]);
    var pair := [sorted[0], sorted[1]];
    var id := Label(cls.course, ClassIds(cs, pair), cls.location);
    SetIds(secs, pair, id, ids, d);
    ghost var ids' := Assign(ids, pair, id);
    var last := Label(cls.course, [secs[sorted[2]].classId], cls.location);
    SetId(secs, sorted[2], last, ids', d);
    assert Assign(ids', [sorted[2]], last) == ids'[sorted[2] := Some(last)];
  }

  /** The loop of lines 63-106: every class has its turn. */
  method AssignIds(secs: seq<Section>, ghost ids0: seq<Option<string>>, ghost d: Desk) returns (ghost ids: seq<Option<string>>)
    requires ApartSections(secs) && IdsHold(secs, ids0) && EntriesHold(secs, d.mains, d.joints)
    modifies secs
    ensures ids == Ids(Infos(secs), ids0, |secs|)
    ensures IdsHold(secs, ids) && EntriesHold(secs, d.mains, d.joints)
  {
    ids := ids0;
    for i := 0 to |secs|
      invariant ids == Ids(Infos(secs), ids0, i)
      invariant IdsHold(secs, ids) && EntriesHold(secs, d.mains, d.joints)
    {
      IdTurn(secs, i, ids, d);
      ids := IdStep(Infos(secs), ids, i);
    }
  }

  // ---------------------------------------------------------------------------
  // The exam list (lines 110-139).

  /** The classes among the first `n` filed under `key`, in the order they were filed. */
  function Bucket(ids: seq<Option<string>>, key: Option<string>, n: nat): seq<nat>
    requires n <= |ids|
  {
    if n == 0 then [] else if ids[n - 1] == key then Bucket(ids, key, n - 1) + [n - 1] else Bucket(ids, key, n - 1)
  }

  /** Filing the classes one by one gives each key its members. */
  lemma {:induction false} BucketMembers(ids: seq<Option<string>>, key: Option<string>, n: nat)
    requires n <= |ids|
    ensures Bucket(ids, key, n) == Members(ids, key, n)
  {
    if n > 0 {
      BucketMembers(ids, key, n - 1);
    }
  }

  /** A key that none of the first `n` classes carries has nothing filed under it. */
  lemma {:induction false} BucketFresh(ids: seq<Option<string>>, key: Option<string>, n: nat)
    requires n <= |ids| && key !in Keys(ids, n)
    ensures Bucket(ids, key, n) == []
  {
    if n > 0 {
      assert ids[n - 1] in Keys(ids, n);
      BucketFresh(ids, key, n - 1);
    }
  }

  /** One class filed under its id: a new key gets a group of its own, a known one grows. */
  lemma {:induction false} GatherStep(ids: seq<Option<string>>, keys: seq<Option<string>>, groups: seq<seq<nat>>, n: nat)
    requires n < |ids| && keys == Keys(ids, n) && |groups| == |keys|
    requires forall k :: 0 <= k < |keys| ==> groups[k] == Bucket(ids, keys[k], n)
    ensures var id := ids[n];
            match IndexOf(keys, id)
            case None => && keys + [id] == Keys(ids, n + 1)
                         && forall k :: 0 <= k < |keys| + 1 ==> (groups + [[n]])[k] == Bucket(ids, (keys + [id])[k], n + 1)
            case Some(p) => && keys == Keys(ids, n + 1)
                            && forall k :: 0 <= k < |keys| ==> groups[p := groups[p] + [n]][k] == Bucket(ids, keys[k], n + 1)
  {
    var id := ids[n];
    match IndexOf(keys, id)
    case None =>
      BucketFresh(ids, id, n);
      forall k | 0 <= k < |keys| + 1 ensures (groups + [[n]])[k] == Bucket(ids, (keys + [id])[k], n + 1) {
        if k < |keys| {
          assert keys[k] != id;
        }
      }
    case Some(p) =>
      forall k | 0 <= k < |keys| ensures groups[p := groups[p] + [n]][k] == Bucket(ids, keys[k], n + 1) {
        if k != p {
          assert keys[k] != keys[p];
        }
      }
  }

  /** The `exams` dictionary (lines 110-114): its keys in insertion order and, key by key,
      the positions of its classes; a lookup by key is a search of the keys. */
  method Gather(secs: seq<Section>, ghost ids: seq<Option<string>>)
    returns (keys: seq<Option<string>>, groups: seq<seq<nat>>)
    requires IdsHold(secs, ids)
    ensures keys == Keys(ids, |ids|) && |groups| == |keys|
    ensures forall k :: 0 <= k < |keys| ==> groups[k] == Members(ids, keys[k], |ids|)
  {
    keys, groups := [], [];
    for i := 0 to |secs|
      invariant keys == Keys(ids, i) && |groups| == |keys|
      invariant forall k :: 0 <= k < |keys| ==> groups[k] == Bucket(ids, keys[k], i)
    {
      keys, groups := File(ids, keys, groups, i, secs[i].examId);
    }
    BucketsMembers(ids, keys, groups);
  }

  /** Lines 110-114 for one class: the class at `n`, whose id is `id`, filed under it. */
  method File(ghost ids: seq<Option<string>>, keys: seq<Option<string>>, groups: seq<seq<nat>>, n: nat, id: Option<string>)
    returns (keys': seq<Option<string>>, groups': seq<seq<nat>>)
    requires n < |ids| && id == ids[n] && keys == Keys(ids, n) && |groups| == |keys|
    requires forall k :: 0 <= k < |keys| ==> groups[k] == Bucket(ids, keys[k], n)
    ensures keys' == Keys(ids, n + 1) && |groups'| == |keys'|
    ensures forall k :: 0 <= k < |keys'| ==> groups'[k] == Bucket(ids, keys'[k], n + 1)
  {
    GatherStep(ids, keys, groups, n);
    match IndexOf(keys, id)
    case None =>
      keys', groups' := keys + [id], groups + [[n]];
    case Some(p) =>
      keys', groups' := keys, groups[p := groups[p] + [n]];
  }

  /** Once every class is filed, each group holds the members of its key. */
  lemma BucketsMembers(ids: seq<Option<string>>, keys: seq<Option<string>>, groups: seq<seq<nat>>)
    requires |groups| == |keys|
    requires forall k :: 0 <= k < |keys| ==> groups[k] == Bucket(ids, keys[k], |ids|)
    ensures forall k :: 0 <= k < |keys| ==> groups[k] == Members(ids, keys[k], |ids|)
  {
    forall k | 0 <= k < |keys| ensures groups[k] == Members(ids, keys[k], |ids|) {
      BucketMembers(ids, keys[k], |ids|);
    }
  }

  /** `list` holds the entries of the first `k` of `keys`. */
  ghost predicate Listed(cs: seq<Info>, ids: seq<Option<string>>, keys: seq<Option<string>>, list: seq<Sitting>, k: nat)
    requires |ids| == |cs|
  {
    k <= |keys| && |list| == k && forall q :: 0 <= q < k ==> keys[q] in ids && list[q] == SittingOf(cs, ids, keys[q])
  }

  /** The entry of key `k`, built from its group and the group's first class. */
  lemma {:induction false} ListStep(cs: seq<Info>, ids: seq<Option<string>>, keys: seq<Option<string>>, groups: seq<seq<nat>>,
                                    list: seq<Sitting>, k: nat)
    requires |ids| == |cs| && keys == Keys(ids, |ids|) && |groups| == |keys| && k < |keys|
    requires groups[k] == Members(ids, keys[k], |ids|)
    requires Listed(cs, ids, keys, list, k)
    ensures groups[k] != [] && Within(cs, groups[k])
    ensures var c := cs[groups[k][0]];
            Listed(cs, ids, keys, list + [Sitting(keys[k], groups[k], c.course, c.date, c.time, c.location, Total(cs, groups[k]))], k + 1)
  {
    var x := SittingOf(cs, ids, keys[k]);
    var c := cs[groups[k][0]];
    var list' := list + [Sitting(keys[k], groups[k], c.course, c.date, c.time, c.location, Total(cs, groups[k]))];
    forall q | 0 <= q < k + 1 ensures keys[q] in ids && list'[q] == SittingOf(cs, ids, keys[q]) {
      if q < k {
        assert list'[q] == list[q];
      }
    }
  }

  /** `exam_classes_list` before the sort (lines 117-136): one entry per key, summarised by
      its first class, with the students of all its classes. */
  method ExamList(secs: seq<Section>, keys: seq<Option<string>>, groups: seq<seq<nat>>,
                  ghost ids: seq<Option<string>>)
    returns (list: seq<Sitting>)
    requires |ids| == |secs| && keys == Keys(ids, |ids|)
    requires |groups| == |keys| && forall k :: 0 <= k < |keys| ==> groups[k] == Members(ids, keys[k], |ids|)
    ensures list == Sittings(Infos(secs), ids)
  {
    var cs := Infos(secs);
    list := [];
    for k := 0 to |keys|
      invariant Listed(cs, ids, keys, list, k)
    {
      var examClasses := groups[k];
      ListStep(cs, ids, keys, groups, list, k);
      var first := secs[examClasses[0]];
      list := list + [Sitting(keys[k], examClasses, first.course, first.date, first.time, first.location,
                              Total(cs, examClasses))];
    }
    assert forall q :: 0 <= q < |keys| ==> list[q] == Sittings(cs, ids)[q];
  }

  /** Lines 110-139: the exam list, sorted. */
  method ExamPlan(secs: seq<Section>, ghost ids: seq<Option<string>>) returns (plan: seq<Sitting>)
    requires IdsHold(secs, ids)
    ensures plan == Plan(Infos(secs), ids)
  {
    var keys, groups := Gather(secs, ids);
    var list := ExamList(secs, keys, groups, ids);
    plan := SortBy(list, PlanOrder());
  }

  // ---------------------------------------------------------------------------
  // The clash tests of the passes (lines 157-170, 201-214, 262-296).

  /** Class `c` sits on the exam's date, at its time (`byTime`) or else in another room. */
  predicate Slot(cs: seq<Info>, x: Sitting, c: nat, byTime: bool)
    requires c < |cs|
  {
    cs[c].date == x.date && (if byTime then cs[c].time == x.time else cs[c].location != x.location)
  }

  /** One inner loop of lines 158-163 (`byTime`) or 165-170: a class of another exam in that
      slot has `name` as its main proctor. */
  method MainHeld(secs: seq<Section>, x: Sitting, name: string, byTime: bool, ghost d: Desk) returns (found: bool)
    requires EntriesHold(secs, d.mains, d.joints)
    ensures found <==> exists c :: 0 <= c < |secs| && c !in x.members && Slot(Infos(secs), x, c, byTime) && d.mains[c] == Some(name)
  {
    ghost var cs := Infos(secs);
    for c := 0 to |secs|
      invariant forall e :: 0 <= e < c && e !in x.members && Slot(cs, x, e, byTime) ==> d.mains[e] != Some(name)
    {
      var cls := secs[c];
      if c !in x.members && cls.date == x.date && (if byTime then cls.time == x.time else cls.location != x.location) {
        if cls.mainProctor == Some(name) {
          return true;
        }
      }
    }
    return false;
  }

  /** One inner loop of lines 263-278 (`byTime`) or 281-296: a class of any exam in that slot
      has `name` as its main proctor or within its joint entry. */
  method JointHeld(secs: seq<Section>, x: Sitting, name: string, byTime: bool, ghost d: Desk) returns (found: bool)
    requires EntriesHold(secs, d.mains, d.joints)
    ensures found <==> exists c :: 0 <= c < |secs| && Slot(Infos(secs), x, c, byTime)
                                   && (d.mains[c] == Some(name) || Named(d.joints[c], name))
  {
    ghost var cs := Infos(secs);
    for c := 0 to |secs|
      invariant forall e :: 0 <= e < c && Slot(cs, x, e, byTime) ==> d.mains[e] != Some(name) && !Named(d.joints[e], name)
    {
      var cls := secs[c];
      if cls.date == x.date && (if byTime then cls.time == x.time else cls.location != x.location) {
        if cls.mainProctor == Some(name) {
          return true;
        }
        if cls.jointProctor.Some? && Contains(cls.jointProctor.value, name) {
          return true;
        }
      }
    }
    return false;
  }

  /** Dropping the element at `i` of a list without repeats is `list.remove` of it. */
  lemma {:induction false} DropAt(r: seq<nat>, i: nat)
    requires Distinct(r) && i < |r|
    ensures RemoveFirst(r, r[i]) == r[..i] + r[i + 1..]
    ensures Distinct(r[..i] + r[i + 1..])
  {
    IndexOfDistinct(r, i);
    RemoveFirstCut(r, r[i]);
    RemoveFirstGone(r, r[i]);
  }

  /** One step of the walk of `Sieve`: a teacher kept moves the walk on by one, a teacher
      removed makes it step over the next one. */
  lemma {:induction false} SieveStep(s: seq<nat>, bad: set<nat>, r: seq<nat>, i: nat)
    requires i < |r| && Sieve(s, bad) == r[..i] + Sieve(r[i..], bad)
    ensures r[i] !in bad ==> Sieve(s, bad) == r[..i + 1] + Sieve(r[i + 1..], bad)
    ensures r[i] in bad ==> var r' := r[..i] + r[i + 1..];
                            && (i + 1 <= |r'| ==> Sieve(s, bad) == r'[..i + 1] + Sieve(r'[i + 1..], bad))
                            && (i + 1 == |r'| + 1 ==> Sieve(s, bad) == r')
  {
    var u := r[i..];
    assert u[1..] == r[i + 1..];
    if r[i] !in bad {
      assert r[..i + 1] == r[..i] + [r[i]];
    } else {
      var r' := r[..i] + r[i + 1..];
      if i + 1 <= |r'| {
        assert u[2..] == r'[i + 1..];
        assert r'[..i + 1] == r[..i] + [r[i + 1]];
      } else {
        assert r[..i] == r';
      }
    }
  }

  /** The removal loops of lines 157-170 and 201-214: walking the list, every teacher with a
      clashing main duty is removed from it, and the one after each removal is stepped over. */
  method Pare(ts: seq<Teacher>, secs: seq<Section>, x: Sitting, s: seq<nat>, ghost d: Desk) returns (r: seq<nat>)
    requires EntriesHold(secs, d.mains, d.joints)
    requires Distinct(s) && forall k :: 0 <= k < |s| ==> s[k] < |ts|
    ensures r == Sieve(s, MainClashing(Profiles(ts), Infos(secs), d.mains, x))
  {
    ghost var bad := MainClashing(Profiles(ts), Infos(secs), d.mains, x);
    r := s;
    var i: nat := 0;
    while i < |r|
      invariant Distinct(r) && forall k :: 0 <= k < |r| ==> r[k] < |ts|
      invariant i <= |r| + 1
      invariant i <= |r| ==> Sieve(s, bad) == r[..i] + Sieve(r[i..], bad)
      invariant i == |r| + 1 ==> Sieve(s, bad) == r
      decreases |r| + 1 - i
    {
      ghost var r0 := r;
      var t := r[i];
      var teacher := ts[t];
      var clash := MainHeld(secs, x, teacher.name, true, d);
      if !clash && t in r {
        clash := MainHeld(secs, x, teacher.name, false, d);
      }
      assert clash <==> t in bad by {
        if t in bad {
          var c :| 0 <= c < |secs| && c !in x.members && Infos(secs)[c].date == x.date
                   && (Infos(secs)[c].time == x.time || Infos(secs)[c].location != x.location)
                   && d.mains[c] == Some(teacher.name);
          assert Slot(Infos(secs), x, c, true) || Slot(Infos(secs), x, c, false);
        }
      }
      if clash {
        DropAt(r, i);
        r := RemoveFirst(r, t);
      }
      SieveStep(s, bad, r0, i);
      i := i + 1;
    }
    if i == |r| {
      assert r[..i] == r;
    }
  }

  // ---------------------------------------------------------------------------
  // The candidate lists.

  /** One more teacher asked: `asked` is whether they are, `answer` what `can_be_proctor`
      says when they are. */
  lemma {:induction false} OthersNext(ps: seq<Profile>, cs: seq<Info>, x: Sitting, v: seq<Option<bool>>, t: nat,
                                      r: seq<nat>, asked: bool, answer: Option<bool>)
    requires Within(cs, x.members) && t < |ps| == |v| && Others(ps, cs, x, v, t) == Some(r)
    requires asked == Asked(ps, cs, x, t) && answer == if asked then v[t] else Some(false)
    ensures Others(ps, cs, x, v, t + 1) == if answer.None? then None else if answer.value then Some(r + [t]) else Some(r)
  {
  }

  /** Once `can_be_proctor` has raised, it has raised for every longer prefix. */
  lemma {:induction false} OthersStayNone(ps: seq<Profile>, cs: seq<Info>, x: Sitting, v: seq<Option<bool>>, n: nat, m: nat)
    requires Within(cs, x.members) && n <= m <= |ps| == |v| && Others(ps, cs, x, v, n).None?
    ensures Others(ps, cs, x, v, m).None?
  {
    var t :| 0 <= t < n && Asked(ps, cs, x, t) && v[t].None?;
    assert Raises(ps, cs, x, v, m);
  }

  /** The condition of the comprehension of lines 196-198 and 257-259 for teacher `t`:
      `can_be_proctor` is asked only about a teacher outside `te` whose preferred room fits. */
  method Ask(ts: seq<Teacher>, secs: seq<Section>, x: Sitting, te: seq<nat>, t: nat, ghost d: Desk) returns (answer: Option<bool>)
    requires TeachersHold(ts, d.loads) && Within(Infos(secs), x.members) && t < |ts|
    requires te == Teaching(Profiles(ts), Infos(secs), x.members, |ts|)
    ensures answer == if Asked(Profiles(ts), Infos(secs), x, t) then Answers(Profiles(ts), d.loads, x)[t] else Some(false)
  {
    var teacher := ts[t];
    if t !in te && (teacher.preferredLocation == Some(x.location) || teacher.preferredLocation.None?) {
      answer := teacher.CanBeProctor(x.date, x.time);
    } else {
      answer := Some(false);
    }
  }

  /** Teacher `t` considered: the answer extends the candidates of the first `t` teachers. */
  method Consider(ts: seq<Teacher>, secs: seq<Section>, x: Sitting, te: seq<nat>, t: nat, ghost d: Desk,
                  ghost r: seq<nat>) returns (answer: Option<bool>)
    requires TeachersHold(ts, d.loads) && Within(Infos(secs), x.members) && t < |ts|
    requires te == Teaching(Profiles(ts), Infos(secs), x.members, |ts|)
    requires Others(Profiles(ts), Infos(secs), x, Answers(Profiles(ts), d.loads, x), t) == Some(r)
    ensures Others(Profiles(ts), Infos(secs), x, Answers(Profiles(ts), d.loads, x), t + 1)
            == if answer.None? then None else if answer.value then Some(r + [t]) else Some(r)
  {
    answer := Ask(ts, secs, x, te, t, d);
    OthersNext(Profiles(ts), Infos(secs), x, Answers(Profiles(ts), d.loads, x), t, r, Asked(Profiles(ts), Infos(secs), x, t), answer);
  }

  /** `other_teachers` (lines 196-198, 257-259): the teachers not in `te` whose preferred room
      fits the exam and whom `can_be_proctor` admits, or `None` when it raises. */
  method Candidates(ts: seq<Teacher>, secs: seq<Section>, x: Sitting, te: seq<nat>, ghost d: Desk) returns (o: Option<seq<nat>>)
    requires TeachersHold(ts, d.loads) && Within(Infos(secs), x.members)
    requires te == Teaching(Profiles(ts), Infos(secs), x.members, |ts|)
    ensures o == Others(Profiles(ts), Infos(secs), x, Answers(Profiles(ts), d.loads, x), |ts|)
  {
    var r := [];
    for t := 0 to |ts|
      invariant Others(Profiles(ts), Infos(secs), x, Answers(Profiles(ts), d.loads, x), t) == Some(r)
    {
      var answer := Consider(ts, secs, x, te, t, d, r);
      if answer.None? {
        OthersStayNone(Profiles(ts), Infos(secs), x, Answers(Profiles(ts), d.loads, x), t + 1, |ts|);
        return None;
      }
      if answer.value {
        r := r + [t];
      }
    }
    return Some(r);
  }

  // ---------------------------------------------------------------------------
  // The searches of the passes.

  /** Lines 172-179: the first teacher of `s` not exempt from main duty and free on `date`. */
  method SeekMain(ts: seq<Teacher>, s: seq<nat>, date: string) returns (k: Option<nat>)
    requires forall q :: 0 <= q < |s| ==> s[q] < |ts|
    ensures k == First(s, MainFree(Profiles(ts), date))
  {
    ghost var ok := MainFree(Profiles(ts), date);
    for i := 0 to |s|
      invariant forall q :: 0 <= q < i ==> s[q] !in ok
    {
      var teacher := ts[s[i]];
      if teacher.exemptedMain.None? && date !in teacher.unavailableDates {
        assert s[i] in ok;
        return Some(i);
      }
    }
    return None;
  }

  /** Lines 229-236: the first teacher of `s` free on the date of every class of the exam. */
  method SeekAll(ts: seq<Teacher>, secs: seq<Section>, s: seq<nat>, x: Sitting) returns (k: Option<nat>)
    requires forall q :: 0 <= q < |s| ==> s[q] < |ts|
    requires Within(Infos(secs), x.members)
    ensures k == First(s, AllFree(Profiles(ts), Infos(secs), x.members))
  {
    ghost var ok := AllFree(Profiles(ts), Infos(secs), x.members);
    for i := 0 to |s|
      invariant forall q :: 0 <= q < i ==> s[q] !in ok
    {
      var teacher := ts[s[i]];
      if forall c :: 0 <= c < |x.members| ==> secs[x.members[c]].date !in teacher.unavailableDates {
        assert s[i] in ok;
        return Some(i);
      }
    }
    return None;
  }

  /** Lines 305-306 and 320-321: the first teacher of `s` free on `date`. */
  method SeekFree(ts: seq<Teacher>, s: seq<nat>, date: string) returns (k: Option<nat>)
    requires forall q :: 0 <= q < |s| ==> s[q] < |ts|
    ensures k == First(s, DateFree(Profiles(ts), date))
  {
    ghost var ok := DateFree(Profiles(ts), date);
    for i := 0 to |s|
      invariant forall q :: 0 <= q < i ==> s[q] !in ok
    {
      if date !in ts[s[i]].unavailableDates {
        assert s[i] in ok;
        return Some(i);
      }
    }
    return None;
  }

  // ---------------------------------------------------------------------------
  // Recording a pick.

  /** `for cls in exam_classes: cls.main_proctor = name`. */
  method SetMains(secs: seq<Section>, g: seq<nat>, name: string, ghost ids: seq<Option<string>>, ghost d: Desk)
    requires ApartSections(secs) && IdsHold(secs, ids) && EntriesHold(secs, d.mains, d.joints)
    requires Within(Infos(secs), g)
    modifies secs
    ensures IdsHold(secs, ids) && EntriesHold(secs, Assign(d.mains, g, name), d.joints)
  {
    for k := 0 to |g|
      invariant IdsHold(secs, ids)
      invariant forall c :: 0 <= c < |secs| ==> && secs[c].jointProctor == d.joints[c]
                                                && secs[c].mainProctor == if c in g[..k] then Some(name) else d.mains[c]
    {
      secs[g[k]].mainProctor := Some(name);
      assert forall c :: c in g[..k + 1] <==> c in g[..k] || c == g[k] by {
        assert g[..k + 1] == g[..k] + [g[k]];
      }
    }
    assert g[..|g|] == g;
  }

  /** `for cls in exam_classes: cls.joint_proctor = name`. */
  method SetJoints(secs: seq<Section>, g: seq<nat>, name: string, ghost ids: seq<Option<string>>, ghost d: Desk)
    requires ApartSections(secs) && IdsHold(secs, ids) && EntriesHold(secs, d.mains, d.joints)
    requires Within(Infos(secs), g)
    modifies secs
    ensures IdsHold(secs, ids) && EntriesHold(secs, d.mains, Assign(d.joints, g, name))
  {
    for k := 0 to |g|
      invariant IdsHold(secs, ids)
      invariant forall c :: 0 <= c < |secs| ==> && secs[c].mainProctor == d.mains[c]
                                                && secs[c].jointProctor == if c in g[..k] then Some(name) else d.joints[c]
    {
      secs[g[k]].jointProctor := Some(name);
      assert forall c :: c in g[..k + 1] <==> c in g[..k] || c == g[k] by {
        assert g[..k + 1] == g[..k] + [g[k]];
      }
    }
    assert g[..|g|] == g;
  }

  /** Lines 322-326: `name` on the joint entry of every class of the exam, after the names
      already there. */
  method ExtendJoints(secs: seq<Section>, g: seq<nat>, name: string, ghost ids: seq<Option<string>>, ghost d: Desk)
    requires ApartSections(secs) && IdsHold(secs, ids) && EntriesHold(secs, d.mains, d.joints)
    requires Within(Infos(secs), g) && Increasing(g)
    modifies secs
    ensures IdsHold(secs, ids) && EntriesHold(secs, d.mains, Extend(d.joints, g, name))
  {
    for k := 0 to |g|
      invariant IdsHold(secs, ids)
      invariant forall c :: 0 <= c < |secs| ==> && secs[c].mainProctor == d.mains[c]
                                                && secs[c].jointProctor == if c in g[..k] then Append(d.joints[c], name) else d.joints[c]
    {
      var cls := secs[g[k]];
      assert g[k] !in g[..k];
      if !Truthy(cls.jointProctor) {
        cls.jointProctor := Some(name);
      } else {
        cls.jointProctor := Some(cls.jointProctor.value + ", " + name);
      }
      assert forall c :: c in g[..k + 1] <==> c in g[..k] || c == g[k] by {
        assert g[..k + 1] == g[..k] + [g[k]];
      }
    }
    assert g[..|g|] == g;
  }

  /** Every teacher but `t` keeps their counters. */
  lemma {:induction false} OneCredited(ts: seq<Teacher>, ls: seq<Load>, t: nat, l: Load)
    requires Apart(ts) && |ls| == |ts| && t < |ts| && LoadOf(ts[t]) == l
    requires forall i :: 0 <= i < |ts| && i != t ==> LoadOf(ts[i]) == ls[i]
    ensures TeachersHold(ts, ls[t := l])
  {
  }

  /** Lines 174-178 and 231-235: teacher `t` becomes the main proctor of every class of the
      exam, and their counters are stepped for the course of its last class. */
  method Crowned(ts: seq<Teacher>, secs: seq<Section>, x: Sitting, t: nat, ghost ids: seq<Option<string>>, ghost d: Desk)
    requires Apart(ts) && ApartSections(secs) && Holds(ts, secs, ids, d) && Proper(Infos(secs), x) && t < |ts|
    modifies ts[t], secs
    ensures Holds(ts, secs, ids, Crown(Profiles(ts), Infos(secs), d, x, t))
  {
    var teacher := ts[t];
    SetMains(secs, x.members, teacher.name, ids, d);
    var cls := secs[x.members[|x.members| - 1]];
    teacher.mainProctorCount := teacher.mainProctorCount + 1;
    teacher.mainProctorCourses := Bump(teacher.mainProctorCourses, cls.course);
    teacher.workload := teacher.workload + 1;
    OneCredited(ts, d.loads, t, CreditMain(d.loads[t], cls.course));
  }

  /** Lines 307-311: teacher `t` becomes the joint proctor of every class of the exam. */
  method Deputed(ts: seq<Teacher>, secs: seq<Section>, x: Sitting, t: nat, ghost ids: seq<Option<string>>, ghost d: Desk)
    requires Apart(ts) && ApartSections(secs) && Holds(ts, secs, ids, d) && Proper(Infos(secs), x) && t < |ts|
    modifies ts[t], secs
    ensures Holds(ts, secs, ids, Deputy(Profiles(ts), Infos(secs), d, x, t))
  {
    var teacher := ts[t];
    SetJoints(secs, x.members, teacher.name, ids, d);
    var cls := secs[x.members[|x.members| - 1]];
    teacher.jointProctorCount := teacher.jointProctorCount + 1;
    teacher.jointProctorCourses := Bump(teacher.jointProctorCourses, cls.course);
    teacher.workload := teacher.workload + 1;
    OneCredited(ts, d.loads, t, CreditJoint(d.loads[t], cls.course));
  }

  /** Lines 322-330: teacher `t` is added to the joint entries of every class of the exam. */
  method Seconded(ts: seq<Teacher>, secs: seq<Section>, x: Sitting, t: nat, ghost ids: seq<Option<string>>, ghost d: Desk)
    requires Apart(ts) && ApartSections(secs) && Holds(ts, secs, ids, d) && Proper(Infos(secs), x) && t < |ts|
    requires Increasing(x.members)
    modifies ts[t], secs
    ensures Holds(ts, secs, ids, Second(Profiles(ts), Infos(secs), d, x, t))
  {
    var teacher := ts[t];
    ExtendJoints(secs, x.members, teacher.name, ids, d);
    var cls := secs[x.members[|x.members| - 1]];
    teacher.jointProctorCount := teacher.jointProctorCount + 1;
    teacher.jointProctorCourses := Bump(teacher.jointProctorCourses, cls.course);
    teacher.workload := teacher.workload + 1;
    OneCredited(ts, d.loads, t, CreditJoint(d.loads[t], cls.course));
  }

  // ---------------------------------------------------------------------------
  // The main passes, one exam at a time.

  /** `any(cls.main_proctor for cls in exam_classes)`. */
  method MainEngaged(secs: seq<Section>, x: Sitting, ghost d: Desk) returns (engaged: bool)
    requires EntriesHold(secs, d.mains, d.joints) && Within(Infos(secs), x.members)
    ensures engaged == Engaged(d.mains, x.members)
  {
    engaged := exists k :: 0 <= k < |x.members| && Truthy(secs[x.members[k]].mainProctor);
  }

  /** `any(cls.joint_proctor for cls in exam_classes)`. */
  method JointEngaged(secs: seq<Section>, x: Sitting, ghost d: Desk) returns (engaged: bool)
    requires EntriesHold(secs, d.mains, d.joints) && Within(Infos(secs), x.members)
    ensures engaged == Engaged(d.joints, x.members)
  {
    engaged := exists k :: 0 <= k < |x.members| && Truthy(secs[x.members[k]].jointProctor);
  }

  /** The teachers' current workloads, the key of `sort(key=lambda t: t.workload)`. */
  method CurrentWorkloads(ts: seq<Teacher>, ghost d: Desk) returns (keys: seq<int>)
    requires TeachersHold(ts, d.loads)
    ensures keys == Workloads(d.loads)
  {
    keys := seq(|ts|, i requires 0 <= i < |ts| reads ts => ts[i].workload);
  }

  /** One exam of the teaching pass (lines 143-179). */
  method MainExam(ts: seq<Teacher>, secs: seq<Section>, x: Sitting, ghost ids: seq<Option<string>>, ghost d: Desk)
    returns (ghost r: Turn)
    requires Apart(ts) && ApartSections(secs) && Holds(ts, secs, ids, d) && Proper(Infos(secs), x)
    modifies ts, secs
    ensures r == MainTurn(Profiles(ts), Infos(secs), d, x) && Holds(ts, secs, ids, r.desk)
  {
    var engaged := MainEngaged(secs, x, d);
    if engaged {
      return Turn(d, []);
    }
    r := MainChoose(ts, secs, x, ids, d);
  }

  /** Lines 149-179: the exam's teachers without a clashing main duty, and the first of them
      who may be its main proctor. */
  method MainChoose(ts: seq<Teacher>, secs: seq<Section>, x: Sitting, ghost ids: seq<Option<string>>, ghost d: Desk)
    returns (ghost r: Turn)
    requires Apart(ts) && ApartSections(secs) && Holds(ts, secs, ids, d) && Proper(Infos(secs), x)
    modifies ts, secs
    ensures r == MainPick(Profiles(ts), Infos(secs), d, x) && Holds(ts, secs, ids, r.desk)
  {
    var ps, cs := Profiles(ts), Infos(secs);
    var te := Teaching(ps, cs, x.members, |ts|);
    var s := Pare(ts, secs, x, te, d);
    assert forall q :: 0 <= q < |s| ==> s[q] < |ts| by {
      assert forall q :: 0 <= q < |s| ==> s[q] in te;
    }
    var k := SeekMain(ts, s, x.date);
    if k.None? {
      return Turn(d, []);
    }
    var t := s[k.value];
    Crowned(ts, secs, x, t, ids, d);
    r := Turn(Crown(ps, cs, d, x, t), [t]);
  }

  /** One exam of the non-teaching pass (lines 182-236); `ok` is false when `can_be_proctor`
      raises, and then nothing has changed. */
  method OtherExam(ts: seq<Teacher>, secs: seq<Section>, x: Sitting, ghost ids: seq<Option<string>>, ghost d: Desk)
    returns (ok: bool, ghost r: Option<Turn>)
    requires Apart(ts) && ApartSections(secs) && Holds(ts, secs, ids, d) && Proper(Infos(secs), x)
    modifies ts, secs
    ensures r == OtherTurn(Profiles(ts), Infos(secs), d, x) && ok == r.Some?
    ensures Holds(ts, secs, ids, if r.Some? then r.value.desk else d)
  {
    var engaged := MainEngaged(secs, x, d);
    if engaged {
      return true, Some(Turn(d, []));
    }
    var te := Teaching(Profiles(ts), Infos(secs), x.members, |ts|);
    var o := Candidates(ts, secs, x, te, d);
    if o.None? {
      return false, None;
    }
    ghost var t := OtherChoose(ts, secs, x, o.value, ids, d);
    return true, Some(t);
  }

  /** Lines 200-236: the candidates without a clashing main duty, lightest first, and the first
      of them free on the date of every class of the exam. */
  method OtherChoose(ts: seq<Teacher>, secs: seq<Section>, x: Sitting, o: seq<nat>, ghost ids: seq<Option<string>>, ghost d: Desk)
    returns (ghost r: Turn)
    requires Apart(ts) && ApartSections(secs) && Holds(ts, secs, ids, d) && Proper(Infos(secs), x)
    requires Increasing(o) && forall k :: 0 <= k < |o| ==> o[k] < |ts|
    modifies ts, secs
    ensures r == OtherPick(Profiles(ts), Infos(secs), d, x, o) && Holds(ts, secs, ids, r.desk)
  {
    var ps, cs := Profiles(ts), Infos(secs);
    var s := Pare(ts, secs, x, o, d);
    var keys := CurrentWorkloads(ts, d);
    var q := ByKey(s, keys);
    assert q == MainQueue(ps, cs, d, o, x);
    assert forall j :: 0 <= j < |q| ==> q[j] < |ts| by {
      assert forall j :: 0 <= j < |q| ==> q[j] in o;
    }
    var k := SeekAll(ts, secs, q, x);
    if k.None? {
      return Turn(d, []);
    }
    var t := q[k.value];
    Crowned(ts, secs, x, t, ids, d);
    r := Turn(Crown(ps, cs, d, x, t), [t]);
  }

  // ---------------------------------------------------------------------------
  // The joint pass, one exam at a time.

  /** Keeping with nothing dropped keeps everything. */
  lemma {:induction false} KeepNothing(s: seq<nat>)
    ensures Keep(s, {}) == s
  {
    if s != [] {
      KeepNothing(s[1..]);
      assert s == [s[0]] + s[1..];
    }
  }

  /** Two drop sets that agree on `s` keep the same of it. */
  lemma {:induction false} KeepSame(s: seq<nat>, a: set<nat>, b: set<nat>)
    requires forall t :: t in s ==> (t in a <==> t in b)
    ensures Keep(s, a) == Keep(s, b)
  {
    if s != [] {
      assert s[0] in s;
      assert forall t :: t in s[1..] ==> t in s;
      KeepSame(s[1..], a, b);
    }
  }

  /** Removing a kept teacher is dropping one more. */
  lemma {:induction false} KeepRemove(s: seq<nat>, gone: set<nat>, t: nat)
    requires Distinct(s) && t in s && t !in gone
    ensures t in Keep(s, gone) && RemoveFirst(Keep(s, gone), t) == Keep(s, gone + {t})
  {
    DistinctTail(s);
    var k, k' := Keep(s[1..], gone), Keep(s[1..], gone + {t});
    if s[0] == t {
      KeepSame(s[1..], gone, gone + {t});
      assert Keep(s, gone) == [t] + k;
      assert ([t] + k)[1..] == k;
    } else {
      assert t in s[1..];
      KeepRemove(s[1..], gone, t);
      if s[0] !in gone {
        assert Keep(s, gone) == [s[0]] + k && Keep(s, gone + {t}) == [s[0]] + k';
        assert ([s[0]] + k)[1..] == k;
      } else {
        assert Keep(s, gone) == k && Keep(s, gone + {t}) == k';
      }
    }
  }

  /** The teacher removed in one pool is not in the other. */
  lemma {:induction false} KeepOut(s: seq<nat>, gone: set<nat>, t: nat)
    requires t !in s
    ensures Keep(s, gone + {t}) == Keep(s, gone)
  {
    KeepSame(s, gone + {t}, gone);
  }

  /** The two halves of a list without repeats have none. */
  lemma {:induction false} DistinctHalves(a: seq<nat>, b: seq<nat>)
    requires Distinct(a + b)
    ensures Distinct(a) && Distinct(b)
  {
    forall i, j | 0 <= i < j < |b| ensures b[i] != b[j] {
      assert (a + b)[|a| + i] == b[i] && (a + b)[|a| + j] == b[j];
    }
    forall i, j | 0 <= i < j < |a| ensures a[i] != a[j] {
      assert (a + b)[i] == a[i] && (a + b)[j] == a[j];
    }
  }

  /** A clash in either slot is a clash of the joint pass. */
  lemma {:induction false} JointClashSlots(cs: seq<Info>, d: Desk, x: Sitting, name: string)
    requires |d.mains| == |cs| && |d.joints| == |cs|
    ensures JointClash(cs, d, x, name) <==>
            (exists c :: 0 <= c < |cs| && Slot(cs, x, c, true) && (d.mains[c] == Some(name) || Named(d.joints[c], name))) ||
            (exists c :: 0 <= c < |cs| && Slot(cs, x, c, false) && (d.mains[c] == Some(name) || Named(d.joints[c], name)))
  {
    if JointClash(cs, d, x, name) {
      var c :| 0 <= c < |cs| && cs[c].date == x.date && (cs[c].time == x.time || cs[c].location != x.location)
               && (d.mains[c] == Some(name) || Named(d.joints[c], name));
      assert Slot(cs, x, c, true) || Slot(cs, x, c, false);
    }
  }

  /** One teacher of a walk of `Winnow`: a clashing one is removed from the pool. */
  lemma {:induction false} WinnowStep(pool: seq<nat>, bad: set<nat>, gone: set<nat>, i: nat)
    requires Distinct(pool) && i < |pool|
    requires forall u :: u in gone <==> u in bad && u in pool[..i]
    ensures var t := pool[i];
            && t in Keep(pool, gone)
            && (t in bad ==> RemoveFirst(Keep(pool, gone), t) == Keep(pool, gone + {t}))
            && forall u :: u in (if t in bad then gone + {t} else gone) <==> u in bad && u in pool[..i + 1]
  {
    var t := pool[i];
    assert t !in gone;
    assert pool[..i + 1] == pool[..i] + [t];
    if t in bad {
      KeepRemove(pool, gone, t);
    }
  }

  /** Lines 264-292, one teacher: a duty in the exam's time slot, or else, while the teacher
      is still in their pool, a duty elsewhere on that day. */
  method WinnowClash(ts: seq<Teacher>, secs: seq<Section>, x: Sitting, t: nat, kept: seq<nat>, ghost d: Desk)
    returns (clash: bool)
    requires EntriesHold(secs, d.mains, d.joints) && t < |ts| && t in kept
    ensures clash <==> t in JointClashing(Profiles(ts), Infos(secs), d, x)
  {
    var teacher := ts[t];
    clash := JointHeld(secs, x, teacher.name, true, d);
    if !clash && t in kept {
      clash := JointHeld(secs, x, teacher.name, false, d);
    }
    JointClashSlots(Infos(secs), d, x, teacher.name);
  }

  /** The walk of lines 262-296 over the teachers of one pool: every teacher with a clashing
      duty is removed from it. */
  method WinnowPool(ts: seq<Teacher>, secs: seq<Section>, x: Sitting, pool: seq<nat>, ghost d: Desk)
    returns (kept: seq<nat>)
    requires EntriesHold(secs, d.mains, d.joints)
    requires Distinct(pool) && forall k :: 0 <= k < |pool| ==> pool[k] < |ts|
    ensures kept == Keep(pool, JointClashing(Profiles(ts), Infos(secs), d, x))
  {
    ghost var bad := JointClashing(Profiles(ts), Infos(secs), d, x);
    kept := pool;
    ghost var gone: set<nat> := {};
    KeepNothing(pool);
    for i := 0 to |pool|
      invariant kept == Keep(pool, gone)
      invariant forall u :: u in gone <==> u in bad && u in pool[..i]
    {
      var t := pool[i];
      WinnowStep(pool, bad, gone, i);
      var clash := WinnowClash(ts, secs, x, t, kept, d);
      if clash {
        kept := RemoveFirst(kept, t);
        gone := gone + {t};
      }
    }
    assert pool[..|pool|] == pool;
    KeepSame(pool, gone, bad);
  }

  /** Lines 262-296: walking a copy of the two pools, every teacher with a clashing duty is
      removed from the pool that holds them. The pools share no teacher, so the walk is one
      walk over `te` and one over `ot`. */
  method Winnow(ts: seq<Teacher>, secs: seq<Section>, x: Sitting, te: seq<nat>, ot: seq<nat>, ghost d: Desk)
    returns (te': seq<nat>, ot': seq<nat>)
    requires EntriesHold(secs, d.mains, d.joints)
    requires Distinct(te + ot) && forall k :: 0 <= k < |te + ot| ==> (te + ot)[k] < |ts|
    ensures te' == Keep(te, JointClashing(Profiles(ts), Infos(secs), d, x))
    ensures ot' == Keep(ot, JointClashing(Profiles(ts), Infos(secs), d, x))
  {
    DistinctHalves(te, ot);
    assert forall k :: 0 <= k < |te| ==> te[k] == (te + ot)[k];
    assert forall k :: 0 <= k < |ot| ==> ot[k] == (te + ot)[|te| + k];
    te' := WinnowPool(ts, secs, x, te, d);
    ot' := WinnowPool(ts, secs, x, ot, d);
  }

  /** `t0` and then the first teacher of `pool` free that day as a joint proctor of the exam. */
  function WithFirst(ps: seq<Profile>, cs: seq<Info>, x: Sitting, pool: seq<nat>, t0: Turn): (r: Turn)
    requires Shaped(ps, cs, t0.desk) && Proper(cs, x) && forall k :: 0 <= k < |pool| ==> pool[k] < |ps|
    ensures Shaped(ps, cs, r.desk)
  {
    match First(pool, DateFree(ps, x.date))
    case None => t0
    case Some(k) => Turn(Deputy(ps, cs, t0.desk, x, pool[k]), t0.picks + [pool[k]])
  }

  /** Lines 305-312 over one pool: the first teacher free that day becomes the joint proctor
      of every class of the exam. */
  method DeputeFirst(ts: seq<Teacher>, secs: seq<Section>, x: Sitting, pool: seq<nat>,
                     ghost ids: seq<Option<string>>, ghost t0: Turn)
    returns (ghost r: Turn)
    requires Apart(ts) && ApartSections(secs) && Holds(ts, secs, ids, t0.desk) && Proper(Infos(secs), x)
    requires forall k :: 0 <= k < |pool| ==> pool[k] < |ts|
    modifies ts, secs
    ensures r == WithFirst(Profiles(ts), Infos(secs), x, pool, t0) && Holds(ts, secs, ids, r.desk)
  {
    var k := SeekFree(ts, pool, x.date);
    r := t0;
    if k.Some? {
      var t := pool[k.value];
      Deputed(ts, secs, x, t, ids, t0.desk);
      r := Turn(Deputy(Profiles(ts), Infos(secs), t0.desk, x, t), t0.picks + [t]);
    }
  }

  /** The single joint proctor of lines 303-314, in two steps. */
  lemma SingleJointSteps(ps: seq<Profile>, cs: seq<Info>, d: Desk, x: Sitting, te: seq<nat>, ot: seq<nat>)
    requires Shaped(ps, cs, d) && Proper(cs, x)
    requires forall k :: 0 <= k < |te| ==> te[k] < |ps|
    requires forall k :: 0 <= k < |ot| ==> ot[k] < |ps|
    ensures var t1 := WithFirst(ps, cs, x, te, Turn(d, []));
            SingleJoint(ps, cs, d, x, te, ot) == if Engaged(t1.desk.joints, x.members) then t1 else WithFirst(ps, cs, x, ot, t1)
  {
    match First(te, DateFree(ps, x.date))
    case None =>
    case Some(k) => assert [] + [te[k]] == [te[k]];
  }

  /** Lines 303-314, exams of 31 to 80 students: the first teacher of `te` free that day, and
      when no class then has a joint proctor, the first such of `ot`. */
  method JointSingle(ts: seq<Teacher>, secs: seq<Section>, x: Sitting, te: seq<nat>, ot: seq<nat>,
                     ghost ids: seq<Option<string>>, ghost d: Desk)
    returns (ghost r: Turn)
    requires Apart(ts) && ApartSections(secs) && Holds(ts, secs, ids, d) && Proper(Infos(secs), x)
    requires forall k :: 0 <= k < |te| ==> te[k] < |ts|
    requires forall k :: 0 <= k < |ot| ==> ot[k] < |ts|
    modifies ts, secs
    ensures r == SingleJoint(Profiles(ts), Infos(secs), d, x, te, ot) && Holds(ts, secs, ids, r.desk)
  {
    SingleJointSteps(Profiles(ts), Infos(secs), d, x, te, ot);
    r := DeputeFirst(ts, secs, x, te, ids, Turn(d, []));
    var engaged := JointEngaged(secs, x, r.desk);
    if !engaged {
      r := DeputeFirst(ts, secs, x, ot, ids, r);
    }
  }

  /** One more teacher looked at: `Earliest` takes them while it has fewer than `n`. */
  lemma {:induction false} EarliestSnoc(s: seq<nat>, t: nat, ok: set<nat>, n: nat)
    ensures Earliest(s + [t], ok, n) == if |Earliest(s, ok, n)| < n && t in ok then Earliest(s, ok, n) + [t] else Earliest(s, ok, n)
  {
    var st := s + [t];
    if s == [] {
      assert st == [t] && st[1..] == [];
    } else if n > 0 {
      assert st[0] == s[0] && st[1..] == s[1..] + [t];
      if s[0] in ok {
        var e1 := Earliest(s[1..], ok, n - 1);
        EarliestSnoc(s[1..], t, ok, n - 1);
        assert Earliest(st, ok, n) == [s[0]] + Earliest(s[1..] + [t], ok, n - 1);
        assert Earliest(s, ok, n) == [s[0]] + e1;
        if |e1| < n - 1 && t in ok {
          assert ([s[0]] + e1) + [t] == [s[0]] + (e1 + [t]);
          assert Earliest(st, ok, n) == Earliest(s, ok, n) + [t];
        } else {
          assert Earliest(st, ok, n) == Earliest(s, ok, n);
        }
      } else {
        EarliestSnoc(s[1..], t, ok, n);
        assert Earliest(st, ok, n) == Earliest(s[1..] + [t], ok, n);
        assert Earliest(s, ok, n) == Earliest(s[1..], ok, n);
      }
    }
  }

  /** Once `n` are taken, the rest of the list changes nothing. */
  lemma {:induction false} EarliestFull(s: seq<nat>, u: seq<nat>, ok: set<nat>, n: nat)
    requires |Earliest(s, ok, n)| == n
    ensures Earliest(s + u, ok, n) == Earliest(s, ok, n)
  {
    if n > 0 {
      assert s != [];
      var su := s + u;
      assert su[0] == s[0] && su[1..] == s[1..] + u;
      if s[0] in ok {
        EarliestFull(s[1..], u, ok, n - 1);
        assert Earliest(su, ok, n) == [s[0]] + Earliest(s[1..] + u, ok, n - 1);
      } else {
        EarliestFull(s[1..], u, ok, n);
        assert Earliest(su, ok, n) == Earliest(s[1..] + u, ok, n);
      }
    }
  }

  /** `Seconds` of one more pick is `Second` of it after the others. */
  lemma {:induction false} SecondsSnoc(ps: seq<Profile>, cs: seq<Info>, d: Desk, x: Sitting, picks: seq<nat>, t: nat)
    requires Shaped(ps, cs, d) && Proper(cs, x) && t < |ps| && forall k :: 0 <= k < |picks| ==> picks[k] < |ps|
    ensures Seconds(ps, cs, d, x, picks + [t]) == Second(ps, cs, Seconds(ps, cs, d, x, picks), x, t)
    decreases |picks|
  {
    if picks == [] {
      assert [] + [t] == [t] && [t][1..] == [];
    } else {
      assert (picks + [t])[1..] == picks[1..] + [t];
      SecondsSnoc(ps, cs, Second(ps, cs, d, x, picks[0]), x, picks[1..], t);
    }
  }

  /** The joints `Earliest` takes from `s` for an exam of more than 80 students. */
  function Drafted(ps: seq<Profile>, x: Sitting, s: seq<nat>): (r: seq<nat>)
    requires forall k :: 0 <= k < |s| ==> s[k] < |ps|
    ensures forall k :: 0 <= k < |r| ==> r[k] < |ps|
  {
    var r := Earliest(s, DateFree(ps, x.date), 2);
    assert forall k :: 0 <= k < |r| ==> r[k] in s;
    r
  }

  /** A walk of `g` after `a`, cut at `i`. */
  lemma PrefixSplit(a: seq<nat>, g: seq<nat>, i: nat, j: nat, n: nat)
    requires i < |g| && j == i + 1
    requires (forall k :: 0 <= k < |a| ==> a[k] < n) && forall k :: 0 <= k < |g| ==> g[k] < n
    ensures a + g[..j] == (a + g[..i]) + [g[i]] && a + g == (a + g[..i]) + g[i..]
    ensures forall k :: 0 <= k < |a + g[..j]| ==> (a + g[..j])[k] < n
  {
    assert g[..i + 1] == g[..i] + [g[i]];
    assert g == g[..i] + g[i..];
  }

  /** Lines 320-330, one teacher looked at while fewer than two are assigned: a teacher free
      that day is added to the exam's joint entries. */
  method EnlistTurn(ts: seq<Teacher>, secs: seq<Section>, x: Sitting, t: nat,
                    ghost s: seq<nat>, ghost ids: seq<Option<string>>, ghost d: Desk)
    returns (took: bool)
    requires Apart(ts) && ApartSections(secs) && Proper(Infos(secs), x) && Increasing(x.members)
    requires Shaped(Profiles(ts), Infos(secs), d) && t < |ts|
    requires forall k :: 0 <= k < |s| ==> s[k] < |ts|
    requires |Drafted(Profiles(ts), x, s)| < 2
    requires Holds(ts, secs, ids, Seconds(Profiles(ts), Infos(secs), d, x, Drafted(Profiles(ts), x, s)))
    modifies ts, secs
    ensures |Drafted(Profiles(ts), x, s + [t])| == |Drafted(Profiles(ts), x, s)| + (if took then 1 else 0)
    ensures Holds(ts, secs, ids, Seconds(Profiles(ts), Infos(secs), d, x, Drafted(Profiles(ts), x, s + [t])))
  {
    ghost var ps, cs := Profiles(ts), Infos(secs);
    ghost var picks := Drafted(ps, x, s);
    EarliestSnoc(s, t, DateFree(ps, x.date), 2);
    took := x.date !in ts[t].unavailableDates;
    if took {
      Seconded(ts, secs, x, t, ids, Seconds(ps, cs, d, x, picks));
      SecondsSnoc(ps, cs, d, x, picks, t);
    }
  }

  /** The inner loop of lines 318-330 over one pool, after the teachers `before`: every
      teacher free that day is added to the exam's joint entries until two are assigned. */
  method Enlist(ts: seq<Teacher>, secs: seq<Section>, x: Sitting, group: seq<nat>, given: nat,
                ghost before: seq<nat>, ghost ids: seq<Option<string>>, ghost d: Desk)
    returns (count: nat)
    requires Apart(ts) && ApartSections(secs) && Proper(Infos(secs), x) && Increasing(x.members)
    requires Shaped(Profiles(ts), Infos(secs), d)
    requires forall k :: 0 <= k < |before| ==> before[k] < |ts|
    requires forall k :: 0 <= k < |group| ==> group[k] < |ts|
    requires given == |Drafted(Profiles(ts), x, before)|
    requires Holds(ts, secs, ids, Seconds(Profiles(ts), Infos(secs), d, x, Drafted(Profiles(ts), x, before)))
    modifies ts, secs
    ensures count == |Drafted(Profiles(ts), x, before + group)|
    ensures Holds(ts, secs, ids, Seconds(Profiles(ts), Infos(secs), d, x, Drafted(Profiles(ts), x, before + group)))
  {
    ghost var ps := Profiles(ts);
    count := given;
    assert before + group[..0] == before;
    for i := 0 to |group|
      invariant forall k :: 0 <= k < |before + group[..i]| ==> (before + group[..i])[k] < |ts|
      invariant count == |Drafted(ps, x, before + group[..i])|
      invariant Holds(ts, secs, ids, Seconds(ps, Infos(secs), d, x, Drafted(ps, x, before + group[..i])))
    {
      ghost var s := before + group[..i];
      if count >= 2 {
        EarliestFull(s, group[i..], DateFree(ps, x.date), 2);
        PrefixSplit(before, group, i, i + 1, |ts|);
        return;
      }
      var t := group[i];
      PrefixSplit(before, group, i, i + 1, |ts|);
      var took := EnlistTurn(ts, secs, x, t, s, ids, d);
      if took {
        count := count + 1;
      }
    }
    assert group[..|group|] == group;
  }

  /** Lines 315-332, exams of more than 80 students: the first two teachers of `te` and then
      `ot` free that day, each added to the joint entries. */
  method JointMany(ts: seq<Teacher>, secs: seq<Section>, x: Sitting, te: seq<nat>, ot: seq<nat>,
                   ghost ids: seq<Option<string>>, ghost d: Desk)
    returns (ghost r: Turn)
    requires Apart(ts) && ApartSections(secs) && Holds(ts, secs, ids, d) && Proper(Infos(secs), x)
    requires Increasing(x.members)
    requires forall k :: 0 <= k < |te| ==> te[k] < |ts|
    requires forall k :: 0 <= k < |ot| ==> ot[k] < |ts|
    modifies ts, secs
    ensures r.picks == Drafted(Profiles(ts), x, te + ot)
    ensures r.desk == Seconds(Profiles(ts), Infos(secs), d, x, r.picks) && Holds(ts, secs, ids, r.desk)
  {
    ghost var ps, cs := Profiles(ts), Infos(secs);
    assert [] + te == te;
    var count := Enlist(ts, secs, x, te, 0, [], ids, d);
    if count < 2 {
      count := Enlist(ts, secs, x, ot, count, te, ids, d);
    } else {
      EarliestFull(te, ot, DateFree(ps, x.date), 2);
    }
    ghost var picks := Drafted(ps, x, te + ot);
    r := Turn(Seconds(ps, cs, d, x, picks), picks);
  }
  /** The pools of the joint pass before the clash walk: the exam's teachers and the
      candidates share no teacher. */
  lemma {:induction false} JointStart(ps: seq<Profile>, cs: seq<Info>, d: Desk, x: Sitting, te: seq<nat>, o: seq<nat>)
    requires Shaped(ps, cs, d) && Proper(cs, x)
    requires te == Teaching(ps, cs, x.members, |ps|)
    requires Others(ps, cs, x, Answers(ps, d.loads, x), |ps|) == Some(o)
    ensures Distinct(te + o) && forall k :: 0 <= k < |te + o| ==> (te + o)[k] < |ps|
    ensures forall t :: t in o ==> t < |ps|
  {
    PoolsDisjoint(ps, cs, d, x, te, o);
    assert Distinct(te) && Distinct(o);
    DistinctJoin(te, o);
    JoinBelow(te, o, |ps|);
  }

  /** No teacher of the exam's classes is among the other candidates. */
  lemma PoolsDisjoint(ps: seq<Profile>, cs: seq<Info>, d: Desk, x: Sitting, te: seq<nat>, o: seq<nat>)
    requires Shaped(ps, cs, d) && Proper(cs, x)
    requires te == Teaching(ps, cs, x.members, |ps|)
    requires Others(ps, cs, x, Answers(ps, d.loads, x), |ps|) == Some(o)
    ensures forall t :: t in te ==> t !in o
  {
  }

  lemma {:induction false} JoinBelow(a: seq<nat>, b: seq<nat>, n: nat)
    requires forall k :: 0 <= k < |a| ==> a[k] < n
    requires forall k :: 0 <= k < |b| ==> b[k] < n
    ensures forall k :: 0 <= k < |a + b| ==> (a + b)[k] < n
  {
    forall k | 0 <= k < |a + b| ensures (a + b)[k] < n {
      if k < |a| {
        assert (a + b)[k] == a[k];
      } else {
        assert (a + b)[k] == b[k - |a|];
      }
    }
  }

  /** The pools after the clash walk and the sort hold teachers only. */
  lemma {:induction false} PoolsWithin(ps: seq<Profile>, cs: seq<Info>, d: Desk, x: Sitting, o: seq<nat>)
    requires Shaped(ps, cs, d) && Proper(cs, x) && forall t :: t in o ==> t < |ps|
    ensures var p := JointPools(ps, cs, d, x, o);
            && (forall k :: 0 <= k < |p.teaching| ==> p.teaching[k] < |ps|)
            && (forall k :: 0 <= k < |p.others| ==> p.others[k] < |ps|)
  {
    var p := JointPools(ps, cs, d, x, o);
    assert forall k :: 0 <= k < |p.teaching| ==> p.teaching[k] in p.teaching;
    assert forall k :: 0 <= k < |p.others| ==> p.others[k] in p.others;
  }

  /** One exam of the joint pass (lines 242-332); `ok` is false when `can_be_proctor` raises,
      and then nothing has changed. */
  method JointExam(ts: seq<Teacher>, secs: seq<Section>, x: Sitting, ghost ids: seq<Option<string>>, ghost d: Desk)
    returns (ok: bool, ghost r: Option<Turn>)
    requires Apart(ts) && ApartSections(secs) && Holds(ts, secs, ids, d) && Proper(Infos(secs), x)
    requires Increasing(x.members)
    modifies ts, secs
    ensures r == JointTurn(Profiles(ts), Infos(secs), d, x) && ok == r.Some?
    ensures Holds(ts, secs, ids, if r.Some? then r.value.desk else d)
  {
    var total := Total(Infos(secs), x.members);
    if total <= 30 {
      return true, Some(Turn(d, []));
    }
    var te := Teaching(Profiles(ts), Infos(secs), x.members, |ts|);
    var o := Candidates(ts, secs, x, te, d);
    if o.None? {
      return false, None;
    }
    JointStart(Profiles(ts), Infos(secs), d, x, te, o.value);
    ghost var t := JointChoose(ts, secs, x, total, te, o.value, ids, d);
    return true, Some(t);
  }

  /** Lines 262-332: the pools without a clashing duty, the candidates lightest first, and
      one joint proctor for an exam of up to 80 students, two for a larger one. */
  method JointChoose(ts: seq<Teacher>, secs: seq<Section>, x: Sitting, total: int, te: seq<nat>, o: seq<nat>,
                     ghost ids: seq<Option<string>>, ghost d: Desk)
    returns (ghost r: Turn)
    requires Apart(ts) && ApartSections(secs) && Holds(ts, secs, ids, d) && Proper(Infos(secs), x)
    requires Increasing(x.members) && total == x.stu
    requires te == Teaching(Profiles(ts), Infos(secs), x.members, |ts|)
    requires Distinct(te + o) && forall k :: 0 <= k < |te + o| ==> (te + o)[k] < |ts|
    requires forall t :: t in o ==> t < |ts|
    modifies ts, secs
    ensures r == JointPick(Profiles(ts), Infos(secs), d, x, o) && Holds(ts, secs, ids, r.desk)
  {
    ghost var ps, cs := Profiles(ts), Infos(secs);
    var te', ot' := Winnow(ts, secs, x, te, o, d);
    var keys := CurrentWorkloads(ts, d);
    var ot'' := ByKey(ot', keys);
    ghost var p := JointPools(ps, cs, d, x, o);
    assert p == Pools(te', ot'');
    PoolsWithin(ps, cs, d, x, o);
    if total <= 80 {
      r := JointSingle(ts, secs, x, te', ot'', ids, d);
    } else {
      r := JointMany(ts, secs, x, te', ot'', ids, d);
    }
  }
  // ---------------------------------------------------------------------------
  // The three passes and `assign_proctors`.

  /** Lines 142-179: the teaching pass over the exam list. */
  method MainRound(ts: seq<Teacher>, secs: seq<Section>, plan: seq<Sitting>, ghost ids: seq<Option<string>>, ghost d: Desk)
    returns (ghost e: Desk)
    requires Apart(ts) && ApartSections(secs) && Holds(ts, secs, ids, d) && AllProper(Infos(secs), plan)
    modifies ts, secs
    ensures e == MainPass(Profiles(ts), Infos(secs), d, plan, |plan|) && Holds(ts, secs, ids, e)
  {
    e := d;
    for n := 0 to |plan|
      invariant e == MainPass(Profiles(ts), Infos(secs), d, plan, n) && Holds(ts, secs, ids, e)
    {
      ghost var t := MainExam(ts, secs, plan[n], ids, e);
      e := t.desk;
    }
  }

  /** Exam `n` of the non-teaching pass, from the desk `e`: `ok` is false when it raises, and
      otherwise the rest of the pass runs on from the desk `e'` it leaves. */
  method OtherStep(ts: seq<Teacher>, secs: seq<Section>, plan: seq<Sitting>, n: nat,
                   ghost ids: seq<Option<string>>, ghost e: Desk)
    returns (ok: bool, ghost e': Desk)
    requires Apart(ts) && ApartSections(secs) && Holds(ts, secs, ids, e) && AllProper(Infos(secs), plan)
    requires n < |plan|
    modifies ts, secs
    ensures Holds(ts, secs, ids, e')
    ensures ok ==> OtherPass(Profiles(ts), Infos(secs), e, plan, n) == OtherPass(Profiles(ts), Infos(secs), e', plan, n + 1)
    ensures !ok ==> OtherPass(Profiles(ts), Infos(secs), e, plan, n).None?
  {
    ghost var t;
    ok, t := OtherExam(ts, secs, plan[n], ids, e);
    e' := if t.Some? then t.value.desk else e;
  }

  /** Lines 182-236: the non-teaching pass over the exam list; `ok` is false when
      `can_be_proctor` raises. */
  method OtherRound(ts: seq<Teacher>, secs: seq<Section>, plan: seq<Sitting>, ghost ids: seq<Option<string>>, ghost d: Desk)
    returns (ok: bool, ghost r: Option<Desk>)
    requires Apart(ts) && ApartSections(secs) && Holds(ts, secs, ids, d) && AllProper(Infos(secs), plan)
    modifies ts, secs
    ensures r == OtherPass(Profiles(ts), Infos(secs), d, plan, 0) && ok == r.Some?
    ensures r.Some? ==> Holds(ts, secs, ids, r.value)
  {
    ghost var e := d;
    for n := 0 to |plan|
      invariant Holds(ts, secs, ids, e)
      invariant OtherPass(Profiles(ts), Infos(secs), d, plan, 0) == OtherPass(Profiles(ts), Infos(secs), e, plan, n)
    {
      var fine;
      fine, e := OtherStep(ts, secs, plan, n, ids, e);
      if !fine {
        return false, None;
      }
    }
    return true, Some(e);
  }

  /** Exam `n` of the joint pass, from the desk `e`: `ok` is false when it raises, and
      otherwise the rest of the pass runs on from the desk `e'` it leaves. */
  method JointStep(ts: seq<Teacher>, secs: seq<Section>, plan: seq<Sitting>, n: nat,
                   ghost ids: seq<Option<string>>, ghost e: Desk)
    returns (ok: bool, ghost e': Desk)
    requires Apart(ts) && ApartSections(secs) && Holds(ts, secs, ids, e) && AllProper(Infos(secs), plan)
    requires n < |plan| && Increasing(plan[n].members)
    modifies ts, secs
    ensures Holds(ts, secs, ids, e')
    ensures ok ==> JointPass(Profiles(ts), Infos(secs), e, plan, n) == JointPass(Profiles(ts), Infos(secs), e', plan, n + 1)
    ensures !ok ==> JointPass(Profiles(ts), Infos(secs), e, plan, n).None?
  {
    ghost var t;
    ok, t := JointExam(ts, secs, plan[n], ids, e);
    e' := if t.Some? then t.value.desk else e;
  }

  /** Lines 242-332: the joint pass over the exam list; `ok` is false when `can_be_proctor`
      raises. */
  method JointRound(ts: seq<Teacher>, secs: seq<Section>, plan: seq<Sitting>, ghost ids: seq<Option<string>>, ghost d: Desk)
    returns (ok: bool, ghost r: Option<Desk>)
    requires Apart(ts) && ApartSections(secs) && Holds(ts, secs, ids, d) && AllProper(Infos(secs), plan)
    requires forall k :: 0 <= k < |plan| ==> Increasing(plan[k].members)
    modifies ts, secs
    ensures r == JointPass(Profiles(ts), Infos(secs), d, plan, 0) && ok == r.Some?
    ensures r.Some? ==> Holds(ts, secs, ids, r.value)
  {
    ghost var e := d;
    for n := 0 to |plan|
      invariant Holds(ts, secs, ids, e)
      invariant JointPass(Profiles(ts), Infos(secs), d, plan, 0) == JointPass(Profiles(ts), Infos(secs), e, plan, n)
    {
      var fine;
      fine, e := JointStep(ts, secs, plan, n, ids, e);
      if !fine {
        return false, None;
      }
    }
    return true, Some(e);
  }

  /** Lines 142-332: the three passes over the exam list; `ok` is false when
      `can_be_proctor` raises. */
  method RunPasses(ts: seq<Teacher>, secs: seq<Section>, plan: seq<Sitting>, ghost ids: seq<Option<string>>, ghost d: Desk)
    returns (ok: bool, ghost r: Option<Desk>)
    requires Apart(ts) && ApartSections(secs) && Holds(ts, secs, ids, d) && AllProper(Infos(secs), plan)
    requires forall k :: 0 <= k < |plan| ==> Increasing(plan[k].members)
    modifies ts, secs
    ensures r == Passes(Profiles(ts), Infos(secs), plan, d) && ok == r.Some?
    ensures r.Some? ==> Holds(ts, secs, ids, r.value)
  {
    ghost var d1 := MainRound(ts, secs, plan, ids, d);
    var fine;
    ghost var d2;
    fine, d2 := OtherRound(ts, secs, plan, ids, d1);
    if !fine {
      return false, None;
    }
    ok, r := JointRound(ts, secs, plan, ids, d2.value);
  }

  /** `assign_proctors` (lines 50-332): the exam ids, the exam list, then the three passes;
      `ok` is false when `can_be_proctor` raises, and `ids` are the exam ids it sets. */
  method AssignProctors(ts: seq<Teacher>, secs: seq<Section>, ghost ids0: seq<Option<string>>, ghost d0: Desk)
    returns (ok: bool, ghost ids: seq<Option<string>>, ghost r: Option<Desk>)
    requires Apart(ts) && ApartSections(secs) && Holds(ts, secs, ids0, d0)
    modifies ts, secs
    ensures r == Proctors(Profiles(ts), Infos(secs), ids0, d0) && ok == r.Some?
    ensures ids == Ids(Infos(secs), ids0, |secs|) && (r.Some? ==> Holds(ts, secs, ids, r.value))
  {
    ids := AssignIdsTo(ts, secs, ids0, d0);
    var plan := ExamPlan(secs, ids);
    PlanProper(Infos(secs), ids);
    ok, r := RunPasses(ts, secs, plan, ids, d0);
  }

  /** `AssignIds` leaves the teachers' counters as they are. */
  method AssignIdsTo(ts: seq<Teacher>, secs: seq<Section>, ghost ids0: seq<Option<string>>, ghost d0: Desk)
    returns (ghost ids: seq<Option<string>>)
    requires ApartSections(secs) && Holds(ts, secs, ids0, d0)
    modifies secs
    ensures ids == Ids(Infos(secs), ids0, |secs|) && Holds(ts, secs, ids, d0)
  {
    ids := AssignIds(secs, ids0, d0);
  }
}
