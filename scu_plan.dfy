/** The exam list of utils/exam_scu.py (lines 110-139): the classes are gathered by exam id
    into exams, each exam is summarised by its first class and its total of students, and the
    list is sorted by room, date, time, course and, largest first, students. */
module ScuPlan {
  import opened Base
  import opened Order
  import opened ScuIds

  // ---------------------------------------------------------------------------
  // The `exams` dictionary (lines 110-114): keys in the order they first appear, each with
  // its classes in class order.

  /** The distinct ids among the first `n` classes, in the order they first appear. */
  function Keys(ids: seq<Option<string>>, n: nat): (r: seq<Option<string>>)
    requires n <= |ids|
    ensures Distinct(r)
    ensures forall j :: 0 <= j < n ==> ids[j] in r
    ensures forall k :: 0 <= k < |r| ==> r[k] in ids[..n]
  {
    if n == 0 then []
    else
      var r := Keys(ids, n - 1);
      assert ids[..n] == ids[..n - 1] + [ids[n - 1]];
      if ids[n - 1] in r then r
      else
        DistinctAppend(r, ids[n - 1]);
        r + [ids[n - 1]]
  }

  /** The positions among the first `n` classes whose id is `key`, in class order. */
  function Members(ids: seq<Option<string>>, key: Option<string>, n: nat): (r: seq<nat>)
    requires n <= |ids|
    ensures Increasing(r)
    ensures forall k :: 0 <= k < |r| ==> r[k] < n
    ensures forall j :: j in r ==> j < n && ids[j] == key
    ensures forall j :: 0 <= j < n && ids[j] == key ==> j in r
  {
    if n == 0 then []
    else if ids[n - 1] == key then Members(ids, key, n - 1) + [n - 1]
    else Members(ids, key, n - 1)
  }

  // ---------------------------------------------------------------------------
  // `exam_classes_list` before the sort (lines 117-136).

  /** One entry of the list: the id, the classes, the first class's course, date, time and
      room, and the students of all its classes. */
  datatype Sitting = Sitting(id: Option<string>, members: seq<nat>, course: string, date: string,
                             time: string, location: string, stu: int)

  /** The entry for `key`. */
  function SittingOf(cs: seq<Info>, ids: seq<Option<string>>, key: Option<string>): (x: Sitting)
    requires |ids| == |cs| && key in ids
    ensures x.id == key && x.members == Members(ids, key, |ids|) && x.members != []
    ensures Within(cs, x.members)
    ensures var c := cs[x.members[0]];
            x.course == c.course && x.date == c.date && x.time == c.time && x.location == c.location
    ensures x.stu == Total(cs, Members(ids, key, |ids|))
  {
    var m := Members(ids, key, |ids|);
    var j :| 0 <= j < |ids| && ids[j] == key;
    assert j in m;
    var c := cs[m[0]];
    Sitting(key, m, c.course, c.date, c.time, c.location, Total(cs, m))
  }

  /** The entries in dictionary order. */
  function Sittings(cs: seq<Info>, ids: seq<Option<string>>): (r: seq<Sitting>)
    requires |ids| == |cs|
    ensures |r| == |Keys(ids, |ids|)|
    ensures forall k :: 0 <= k < |r| ==> r[k] == SittingOf(cs, ids, Keys(ids, |ids|)[k])
  {
    var keys := Keys(ids, |ids|);
    seq(|keys|, k requires 0 <= k < |keys| => SittingOf(cs, ids, keys[k]))
  }

  /** Every class sits exactly one exam of the list: the one carrying its id. */
  lemma {:induction false} SittingsPartition(cs: seq<Info>, ids: seq<Option<string>>, j: nat)
    requires |ids| == |cs| && j < |cs|
    ensures exists k :: 0 <= k < |Sittings(cs, ids)| && Sittings(cs, ids)[k].id == ids[j]
    ensures forall k :: 0 <= k < |Sittings(cs, ids)| ==> (j in Sittings(cs, ids)[k].members <==> Sittings(cs, ids)[k].id == ids[j])
    ensures forall k, l :: 0 <= k < l < |Sittings(cs, ids)| ==> Sittings(cs, ids)[k].id != Sittings(cs, ids)[l].id
  {
    var keys := Keys(ids, |ids|);
    var s := Sittings(cs, ids);
    assert ids[j] in keys;
    var k :| 0 <= k < |keys| && keys[k] == ids[j];
    assert s[k].id == ids[j];
    forall k | 0 <= k < |s|
      ensures j in s[k].members <==> s[k].id == ids[j]
    {
      SittingHolds(cs, ids, keys[k], j);
    }
    forall k, l | 0 <= k < l < |s|
      ensures s[k].id != s[l].id
    {
      assert s[k].id == keys[k] && s[l].id == keys[l];
    }
  }

  /** Class `j` is among the classes of `key`'s entry exactly when it carries `key`. */
  lemma {:induction false} SittingHolds(cs: seq<Info>, ids: seq<Option<string>>, key: Option<string>, j: nat)
    requires |ids| == |cs| && key in ids && j < |cs|
    ensures j in SittingOf(cs, ids, key).members <==> ids[j] == key
  {
    var m := SittingOf(cs, ids, key).members;
    if j in m {
      var q :| 0 <= q < |m| && m[q] == j;
    }
  }

  // ---------------------------------------------------------------------------
  // The sort (line 139).

  /** Python's `<` on strings: code point by code point, a proper prefix first. */
  predicate StrLt(a: string, b: string)
  {
    if a == [] then b != []
    else if b == [] then false
    else if a[0] == b[0] then StrLt(a[1..], b[1..])
    else a[0] < b[0]
  }

  lemma {:induction false} StrLtIrreflexive(a: string)
    ensures !StrLt(a, a)
  {
    if a != [] {
      StrLtIrreflexive(a[1..]);
    }
  }

  lemma {:induction false} StrLtTotal(a: string, b: string)
    requires a != b
    ensures StrLt(a, b) || StrLt(b, a)
  {
    if a != [] && b != [] && a[0] == b[0] {
      assert a == [a[0]] + a[1..] && b == [b[0]] + b[1..];
      StrLtTotal(a[1..], b[1..]);
    }
  }

  lemma {:induction false} StrLtTransitive(a: string, b: string, c: string)
    requires StrLt(a, b) && StrLt(b, c)
    ensures StrLt(a, c)
  {
    if a != [] && b != [] && c != [] && a[0] == b[0] && b[0] == c[0] {
      StrLtTransitive(a[1..], b[1..], c[1..]);
    }
  }

  lemma {:induction false} StrLtAsymmetric(a: string, b: string)
    requires StrLt(a, b)
    ensures !StrLt(b, a)
  {
    if a != [] && b != [] && a[0] == b[0] {
      StrLtAsymmetric(a[1..], b[1..]);
    }
  }

  /** The order of the list: `(exam_location, exam_date, exam_time, course, -stu_count)`
      compared as Python compares tuples; `SitLe(x, y)` when `x`'s key is not above `y`'s. */
  predicate SitLe(x: Sitting, y: Sitting)
  {
    if x.location != y.location then StrLt(x.location, y.location)
    else if x.date != y.date then StrLt(x.date, y.date)
    else if x.time != y.time then StrLt(x.time, y.time)
    else if x.course != y.course then StrLt(x.course, y.course)
    else y.stu <= x.stu
  }

  /** The comparison `list.sort` uses. */
  function PlanOrder(): (Sitting, Sitting) -> bool
  {
    (x: Sitting, y: Sitting) => SitLe(x, y)
  }

  lemma {:induction false} SitLeTotal(x: Sitting, y: Sitting)
    ensures SitLe(x, y) || SitLe(y, x)
  {
    if x.location != y.location {
      StrLtTotal(x.location, y.location);
    } else if x.date != y.date {
      StrLtTotal(x.date, y.date);
    } else if x.time != y.time {
      StrLtTotal(x.time, y.time);
    } else if x.course != y.course {
      StrLtTotal(x.course, y.course);
    }
  }

  lemma {:induction false} SitLeTransitive(x: Sitting, y: Sitting, z: Sitting)
    requires SitLe(x, y) && SitLe(y, z)
    ensures SitLe(x, z)
  {
    if x.location != y.location || y.location != z.location {
      if x.location != y.location && y.location != z.location {
        StrLtTransitive(x.location, y.location, z.location);
        if x.location == z.location {
          StrLtAsymmetric(x.location, y.location);
        }
      }
    } else if x.date != y.date || y.date != z.date {
      if x.date != y.date && y.date != z.date {
        StrLtTransitive(x.date, y.date, z.date);
        if x.date == z.date {
          StrLtAsymmetric(x.date, y.date);
        }
      }
    } else if x.time != y.time || y.time != z.time {
      if x.time != y.time && y.time != z.time {
        StrLtTransitive(x.time, y.time, z.time);
        if x.time == z.time {
          StrLtAsymmetric(x.time, y.time);
        }
      }
    } else if x.course != y.course || y.course != z.course {
      if x.course != y.course && y.course != z.course {
        StrLtTransitive(x.course, y.course, z.course);
        if x.course == z.course {
          StrLtAsymmetric(x.course, y.course);
        }
      }
    }
  }

  /** Entries whose keys are equal compare level both ways, and only they do. */
  lemma {:induction false} SitLeLevel(x: Sitting, y: Sitting)
    ensures SitLe(x, y) && SitLe(y, x) <==>
            x.location == y.location && x.date == y.date && x.time == y.time && x.course == y.course && x.stu == y.stu
  {
    if x.location != y.location && SitLe(x, y) {
      StrLtAsymmetric(x.location, y.location);
    } else if x.date != y.date && SitLe(x, y) {
      StrLtAsymmetric(x.date, y.date);
    } else if x.time != y.time && SitLe(x, y) {
      StrLtAsymmetric(x.time, y.time);
    } else if x.course != y.course && SitLe(x, y) {
      StrLtAsymmetric(x.course, y.course);
    }
  }

  lemma {:induction false} PlanPreorder()
    ensures Preorder(PlanOrder())
  {
    var le := PlanOrder();
    forall x, y ensures le(x, y) || le(y, x) {
      SitLeTotal(x, y);
    }
    forall x, y, z | le(x, y) && le(y, z) ensures le(x, z) {
      SitLeTransitive(x, y, z);
    }
  }

  /** `exam_classes_list` after the sort. */
  function Plan(cs: seq<Info>, ids: seq<Option<string>>): (r: seq<Sitting>)
    requires |ids| == |cs|
    ensures multiset(r) == multiset(Sittings(cs, ids))
    ensures forall i, j :: 0 <= i < j < |r| ==> SitLe(r[i], r[j])
  {
    PlanPreorder();
    SortBySorted(Sittings(cs, ids), PlanOrder());
    SortBy(Sittings(cs, ids), PlanOrder())
  }

  /** The sort is stable: entries with equal keys keep their dictionary order. */
  lemma {:induction false} PlanStable(cs: seq<Info>, ids: seq<Option<string>>, x: Sitting)
    requires |ids| == |cs|
    ensures Level(Plan(cs, ids), x, PlanOrder()) == Level(Sittings(cs, ids), x, PlanOrder())
  {
    PlanPreorder();
    SortByStable(Sittings(cs, ids), x, PlanOrder());
  }

  /** Every entry of the list is a proper exam: a non-empty run of classes that all carry its
      id, described by the first of them. */
  lemma {:induction false} PlanEntries(cs: seq<Info>, ids: seq<Option<string>>, k: nat)
    requires |ids| == |cs| && k < |Plan(cs, ids)|
    ensures var x := Plan(cs, ids)[k];
            && x.members != [] && Within(cs, x.members) && Increasing(x.members)
            && (forall q :: 0 <= q < |x.members| ==> ids[x.members[q]] == x.id)
            && (forall j :: 0 <= j < |cs| && ids[j] == x.id ==> j in x.members)
            && x.date == cs[x.members[0]].date && x.time == cs[x.members[0]].time
            && x.location == cs[x.members[0]].location && x.stu == Total(cs, x.members)
  {
    var p := Plan(cs, ids);
    assert p[k] in multiset(p);
    SittingEntry(cs, ids, p[k]);
  }

  /** The same facts of an entry of the unsorted list. */
  lemma {:induction false} SittingEntry(cs: seq<Info>, ids: seq<Option<string>>, x: Sitting)
    requires |ids| == |cs| && x in Sittings(cs, ids)
    ensures && x.members != [] && Within(cs, x.members) && Increasing(x.members)
            && (forall q :: 0 <= q < |x.members| ==> ids[x.members[q]] == x.id)
            && (forall j :: 0 <= j < |cs| && ids[j] == x.id ==> j in x.members)
            && x.date == cs[x.members[0]].date && x.time == cs[x.members[0]].time
            && x.location == cs[x.members[0]].location && x.stu == Total(cs, x.members)
  {
    var keys := Keys(ids, |ids|);
    var l :| 0 <= l < |Sittings(cs, ids)| && Sittings(cs, ids)[l] == x;
    assert keys[l] in ids;
    forall q | 0 <= q < |x.members| ensures ids[x.members[q]] == x.id {
      assert x.members[q] in x.members;
    }
  }
}
