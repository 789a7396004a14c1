/** The occupant list that a school or programme keeps: `(score, name)` pairs in
    descending score order, and the append-sort-pop step by which a newcomer is admitted.
    Python's `list.sort(reverse=True, key=lambda x: x[0])` is a stable sort, so entries with
    equal scores keep the order in which they were appended. */
module Roster {

  import opened Base

  /** One occupant: the score the school ranks by (GPA or total score) and the student's name. */
  datatype Entry = Entry(key: int, name: string)

  predicate SortedDesc(s: seq<Entry>)
  {
    forall i, j :: 0 <= i < j < |s| ==> s[i].key >= s[j].key
  }

  /** Places `e` after every leading entry whose key is at least `e.key`. */
  function Insert(s: seq<Entry>, e: Entry): (r: seq<Entry>)
    ensures |r| == |s| + 1 && multiset(r) == multiset(s) + multiset{e}
  {
    if s == [] then [e]
    else
      assert s == [s[0]] + s[1..];
      if s[0].key >= e.key then [s[0]] + Insert(s[1..], e)
      else [e] + s
  }

  /** The number of leading entries whose key is at least `g`. */
  function Lead(t: seq<Entry>, g: int): (k: nat)
    ensures k <= |t|
  {
    if t != [] && t[0].key >= g then 1 + Lead(t[1..], g) else 0
  }

  lemma {:induction false} LeadBounds(t: seq<Entry>, g: int)
    ensures forall i :: 0 <= i < Lead(t, g) ==> t[i].key >= g
    ensures Lead(t, g) < |t| ==> t[Lead(t, g)].key < g
  {
    if t != [] && t[0].key >= g {
      var rest := t[1..];
      LeadBounds(rest, g);
      assert forall i :: 1 <= i < |t| ==> t[i] == rest[i - 1];
    }
  }

  lemma {:induction false} SeqAssoc3(a: seq<Entry>, b: seq<Entry>, c: seq<Entry>, d: seq<Entry>)
    ensures a + (b + c + d) == (a + b) + c + d
  {
  }

  /** `Insert` splices `e` in after the leading run of keys at least `e.key`. */
  lemma {:induction false} InsertIsSplice(t: seq<Entry>, e: Entry)
    ensures Insert(t, e) == t[..Lead(t, e.key)] + [e] + t[Lead(t, e.key)..]
  {
    if t != [] && t[0].key >= e.key {
      var rest := t[1..];
      InsertIsSplice(rest, e);
      var k := Lead(rest, e.key);
      assert Lead(t, e.key) == k + 1;
      assert t[..k + 1] == [t[0]] + rest[..k];
      assert t[k + 1..] == rest[k..];
      calc {
        Insert(t, e);
        [t[0]] + Insert(rest, e);
        [t[0]] + (rest[..k] + [e] + rest[k..]);
        { SeqAssoc3([t[0]], rest[..k], [e], rest[k..]); }
        ([t[0]] + rest[..k]) + [e] + rest[k..];
        t[..k + 1] + [e] + t[k + 1..];
      }
    } else {
      assert t[..0] == [] && t[0..] == t;
    }
  }

  /** Inserting into a descending list keeps it descending. */
  lemma {:induction false} InsertSorted(t: seq<Entry>, e: Entry)
    requires SortedDesc(t)
    ensures SortedDesc(Insert(t, e))
  {
    InsertIsSplice(t, e);
    LeadBounds(t, e.key);
    var k := Lead(t, e.key);
    var r := Insert(t, e);
    assert forall i :: 0 <= i < |r| ==> r[i] == (if i < k then t[i] else if i == k then e else t[i - 1]);
    forall i, j | 0 <= i < j < |r| ensures r[i].key >= r[j].key {
      if j == k {
      } else if i == k {
        assert t[k].key >= t[j - 1].key;
      } else if j < k {
      } else if i < k {
        assert t[i].key >= t[j - 1].key;
      } else {
        assert t[i - 1].key >= t[j - 1].key;
      }
    }
  }

  /** The stable descending sort: insertion sort, each later entry going behind the
      earlier ones with the same key. */
  function SortDesc(s: seq<Entry>): (r: seq<Entry>)
    ensures |r| == |s| && multiset(r) == multiset(s) && SortedDesc(r)
  {
    if s == [] then []
    else
      assert s == s[..|s| - 1] + [s[|s| - 1]];
      var t := SortDesc(s[..|s| - 1]);
      InsertSorted(t, s[|s| - 1]);
      Insert(t, s[|s| - 1])
  }

  /** The entries with key `v`, in order. */
  function WithKey(s: seq<Entry>, v: int): seq<Entry>
  {
    if s == [] then [] else (if s[0].key == v then [s[0]] else []) + WithKey(s[1..], v)
  }

  lemma {:induction false} WithKeyAppend(a: seq<Entry>, b: seq<Entry>, v: int)
    ensures WithKey(a + b, v) == WithKey(a, v) + WithKey(b, v)
  {
    if a != [] {
      assert (a + b)[1..] == a[1..] + b;
      WithKeyAppend(a[1..], b, v);
    } else {
      assert a + b == b;
    }
  }

  lemma {:induction false} WithKeyNone(s: seq<Entry>, v: int)
    requires forall i :: 0 <= i < |s| ==> s[i].key != v
    ensures WithKey(s, v) == []
  {
    if s != [] {
      WithKeyNone(s[1..], v);
    }
  }

  lemma {:induction false} WithKeyCons(x: Entry, s: seq<Entry>, v: int)
    ensures WithKey([x] + s, v) == (if x.key == v then [x] else []) + WithKey(s, v)
  {
    assert ([x] + s)[1..] == s;
  }

  lemma {:induction false} WithKeyInsert(t: seq<Entry>, e: Entry, v: int)
    requires SortedDesc(t)
    ensures WithKey(Insert(t, e), v) == WithKey(t, v) + (if e.key == v then [e] else [])
  {
    if t == [] {
    } else if t[0].key >= e.key {
      var rest := t[1..];
      assert SortedDesc(rest) by {
        forall i, j | 0 <= i < j < |rest| ensures rest[i].key >= rest[j].key {
          assert rest[i] == t[i + 1] && rest[j] == t[j + 1];
        }
      }
      WithKeyInsert(rest, e, v);
      WithKeyCons(t[0], Insert(rest, e), v);
      assert t == [t[0]] + rest;
      WithKeyCons(t[0], rest, v);
    } else {
      if e.key == v {
        forall i | 0 <= i < |t| ensures t[i].key != v {
          assert t[0].key >= t[i].key;
        }
        WithKeyNone(t, v);
      }
      WithKeyCons(e, t, v);
    }
  }

  /** Stability: among entries with the same key the sort keeps the input order. */
  lemma {:induction false} SortDescStable(s: seq<Entry>, v: int)
    ensures WithKey(SortDesc(s), v) == WithKey(s, v)
  {
    if s != [] {
      var init, last := s[..|s| - 1], s[|s| - 1];
      var t := SortDesc(init);
      var tail := if last.key == v then [last] else [];
      assert s == init + [last];
      calc {
        WithKey(SortDesc(s), v);
        WithKey(Insert(t, last), v);
        { WithKeyInsert(t, last, v); }
        WithKey(t, v) + tail;
        { SortDescStable(init, v); }
        WithKey(init, v) + tail;
        { assert WithKey([last], v) == tail; }
        WithKey(init, v) + WithKey([last], v);
        { WithKeyAppend(init, [last], v); }
        WithKey(s, v);
      }
    }
  }

  lemma {:induction false} InsertAtEnd(t: seq<Entry>, e: Entry)
    requires forall i :: 0 <= i < |t| ==> t[i].key >= e.key
    ensures Insert(t, e) == t + [e]
  {
    if t != [] {
      InsertAtEnd(t[1..], e);
      assert t == [t[0]] + t[1..];
    }
  }

  /** Sorting a list that is already in descending order leaves it as it is. */
  lemma {:induction false} SortDescOfSorted(s: seq<Entry>)
    requires SortedDesc(s)
    ensures SortDesc(s) == s
  {
    if s != [] {
      var init := s[..|s| - 1];
      assert s == init + [s[|s| - 1]];
      assert SortedDesc(init) by {
        forall i, j | 0 <= i < j < |init| ensures init[i].key >= init[j].key {
          assert init[i] == s[i] && init[j] == s[j];
        }
      }
      SortDescOfSorted(init);
      forall i | 0 <= i < |init| ensures init[i].key >= s[|s| - 1].key {
        assert init[i] == s[i];
      }
      InsertAtEnd(init, s[|s| - 1]);
    }
  }

  /** What admitting a newcomer gives: the occupants kept and the entry popped, if any. */
  datatype Admission = Admission(kept: seq<Entry>, removed: Option<Entry>)

  /** Append the newcomer, re-sort by key descending, and pop the last entry when the
      list is longer than the quota. */
  function Admit(occupants: seq<Entry>, quota: nat, e: Entry): Admission
  {
    var sorted := SortDesc(occupants + [e]);
    if |sorted| > quota then Admission(sorted[..|sorted| - 1], Some(sorted[|sorted| - 1]))
    else Admission(sorted, None)
  }

  function AsMultiset(o: Option<Entry>): multiset<Entry>
  {
    if o.Some? then multiset{o.value} else multiset{}
  }

  /** The occupants stay in descending order, the quota holds whenever it held before,
      something is popped exactly when the list overflows, and nothing is lost or made up:
      the entries kept plus the one popped are the old occupants plus the newcomer. */
  lemma {:induction false} AdmitContract(occupants: seq<Entry>, quota: nat, e: Entry)
    ensures SortedDesc(Admit(occupants, quota, e).kept)
    ensures |occupants| <= quota ==> |Admit(occupants, quota, e).kept| <= quota
    ensures Admit(occupants, quota, e).removed.None? <==> |occupants| < quota
    ensures Admit(occupants, quota, e).removed.Some? ==> |Admit(occupants, quota, e).kept| == |occupants|
    ensures multiset(Admit(occupants, quota, e).kept) + AsMultiset(Admit(occupants, quota, e).removed)
         == multiset(occupants) + multiset{e}
  {
    var sorted := SortDesc(occupants + [e]);
    if |sorted| > quota {
      assert sorted == sorted[..|sorted| - 1] + [sorted[|sorted| - 1]];
    }
  }

  /** The same conservation, counted entry by entry. */
  lemma {:induction false} AdmitCount(occupants: seq<Entry>, quota: nat, e: Entry, x: Entry)
    ensures var a := Admit(occupants, quota, e);
      multiset(a.kept)[x] + (if a.removed == Some(x) then 1 else 0)
        == multiset(occupants)[x] + (if x == e then 1 else 0)
  {
    AdmitContract(occupants, quota, e);
    var a := Admit(occupants, quota, e);
    assert (multiset(a.kept) + AsMultiset(a.removed))[x] == (multiset(occupants) + multiset{e})[x];
  }

  /** In a descending list the last entry has the lowest key and is the last one with it. */
  lemma {:induction false} LastOfSorted(sorted: seq<Entry>)
    requires SortedDesc(sorted) && sorted != []
    ensures var x := sorted[|sorted| - 1];
      && (forall i :: 0 <= i < |sorted| ==> x.key <= sorted[i].key)
      && var tied := WithKey(sorted, x.key); tied != [] && tied[|tied| - 1] == x
  {
    var n := |sorted|;
    var x := sorted[n - 1];
    assert sorted == sorted[..n - 1] + [x];
    WithKeyAppend(sorted[..n - 1], [x], x.key);
    assert WithKey([x], x.key) == [x];
  }

  /** The popped entry has the lowest key of all, and among the entries with that key it is
      the one appended last: the newest of the tied entries loses. */
  lemma {:induction false} AdmitEvictsNewestMinimum(occupants: seq<Entry>, quota: nat, e: Entry)
    requires Admit(occupants, quota, e).removed.Some?
    ensures var x := Admit(occupants, quota, e).removed.value;
      && x in occupants + [e]
      && (forall y | y in occupants + [e] :: x.key <= y.key)
      && (forall y | y in Admit(occupants, quota, e).kept :: x.key <= y.key)
      && var tied := WithKey(occupants + [e], x.key); tied != [] && tied[|tied| - 1] == x
  {
    var s := occupants + [e];
    var sorted := SortDesc(s);
    var n := |sorted|;
    var x := sorted[n - 1];
    LastOfSorted(sorted);
    assert x in multiset(s) by {
      assert x in multiset(sorted);
    }
    forall y | y in s ensures x.key <= y.key {
      assert y in multiset(sorted);
    }
    SortDescStable(s, x.key);
  }

  /** A newcomer whose key is no higher than any occupant's is the one popped when the list
      is full, and the occupants stay as they were. */
  lemma {:induction false} AdmitRejectsLowestNewcomer(occupants: seq<Entry>, quota: nat, e: Entry)
    requires SortedDesc(occupants) && |occupants| >= quota
    requires forall i :: 0 <= i < |occupants| ==> occupants[i].key >= e.key
    ensures Admit(occupants, quota, e) == Admission(occupants, Some(e))
  {
    var s := occupants + [e];
    assert SortedDesc(s);
    SortDescOfSorted(s);
    assert s[..|s| - 1] == occupants;
  }

  /** A newcomer that is not popped is held. */
  lemma {:induction false} AdmitHolds(occupants: seq<Entry>, quota: nat, e: Entry)
    requires Admit(occupants, quota, e).removed != Some(e)
    ensures e in Admit(occupants, quota, e).kept
  {
    AdmitContract(occupants, quota, e);
    var a := Admit(occupants, quota, e);
    assert e in multiset(a.kept) + AsMultiset(a.removed);
  }

  /** All keys of `s` are at least `g` and the list is full: the condition a rejected
      student finds a school in. */
  predicate FullAbove(s: seq<Entry>, quota: nat, g: int)
  {
    |s| == quota && forall i :: 0 <= i < |s| ==> s[i].key >= g
  }

  /** When the newcomer itself is popped, the occupants are unchanged as a multiset. */
  lemma {:induction false} AdmitRejectsNewcomer(occupants: seq<Entry>, quota: nat, e: Entry)
    requires Admit(occupants, quota, e).removed == Some(e)
    ensures multiset(Admit(occupants, quota, e).kept) == multiset(occupants)
  {
    AdmitContract(occupants, quota, e);
    var mk, mo := multiset(Admit(occupants, quota, e).kept), multiset(occupants);
    assert mk + multiset{e} == mo + multiset{e};
    assert forall z :: mk[z] == (mk + multiset{e})[z] - multiset{e}[z];
    assert forall z :: mo[z] == (mo + multiset{e})[z] - multiset{e}[z];
  }

  /** Admitting anyone into a school that is full of keys at least `g` leaves it full of
      keys at least `g`: the bar a rejected student faced never drops. */
  lemma {:induction false} AdmitKeepsFullAbove(occupants: seq<Entry>, quota: nat, e: Entry, g: int)
    requires FullAbove(occupants, quota, g)
    ensures FullAbove(Admit(occupants, quota, e).kept, quota, g)
  {
    AdmitContract(occupants, quota, e);
    var a := Admit(occupants, quota, e);
    AdmitEvictsNewestMinimum(occupants, quota, e);
    if e.key < g {
      var x := a.removed.value;
      assert x == e;
      AdmitRejectsNewcomer(occupants, quota, e);
      forall i | 0 <= i < |a.kept| ensures a.kept[i].key >= g {
        assert a.kept[i] in multiset(occupants);
      }
    } else {
      forall i | 0 <= i < |a.kept| ensures a.kept[i].key >= g {
        assert a.kept[i] in multiset(occupants) + multiset{e};
      }
    }
  }

  /** A school that pops someone was full, and stays full of keys at least the popped
      one's: the bar the popped entry failed. */
  lemma {:induction false} AdmitPoppedFull(occupants: seq<Entry>, quota: nat, e: Entry)
    requires |occupants| <= quota && Admit(occupants, quota, e).removed.Some?
    ensures var a := Admit(occupants, quota, e); FullAbove(a.kept, quota, a.removed.value.key)
  {
    AdmitContract(occupants, quota, e);
    AdmitEvictsNewestMinimum(occupants, quota, e);
    var a := Admit(occupants, quota, e);
    forall i | 0 <= i < |a.kept| ensures a.kept[i].key >= a.removed.value.key {
      assert a.kept[i] in a.kept;
    }
  }
}
