/** Small value types shared by every part of the model. */
module Base {

  /** A value that may be absent: Python's `None`, or a cell that pandas reads as missing. */
  datatype Option<+T> = None | Some(value: T)

  /** Python's truth test on an optional string: `None` and `""` are both false. */
  predicate Truthy(s: Option<string>)
  {
    s.Some? && s.value != ""
  }

  /** Position of the first `x` in `s`, if any (Python's `list.index`, or a dictionary lookup
      by key when the keys are given in insertion order). */
  function IndexOf<T(==)>(s: seq<T>, x: T): (r: Option<nat>)
    ensures r.Some? ==> r.value < |s| && s[r.value] == x && x !in s[..r.value]
    ensures r.None? <==> x !in s
  {
    if s == [] then None
    else if s[0] == x then Some(0)
    else match IndexOf(s[1..], x)
      case None => None
      case Some(k) => assert s[1..][..k] == s[1..k + 1]; Some(k + 1)
  }

  /** The first occurrence is the one `IndexOf` finds. */
  lemma {:induction false} IndexOfIs<T>(s: seq<T>, x: T, k: nat)
    requires k < |s| && s[k] == x && x !in s[..k]
    ensures IndexOf(s, x) == Some(k)
  {
  }

  /** No element occurs twice: the keys of a Python dictionary, say. */
  predicate Distinct<T(==)>(s: seq<T>)
  {
    forall i, j :: 0 <= i < j < |s| ==> s[i] != s[j]
  }

  /** In a sequence without repeats, `IndexOf` finds every element at its position. */
  lemma {:induction false} IndexOfDistinct<T>(s: seq<T>, k: nat)
    requires Distinct(s) && k < |s|
    ensures IndexOf(s, s[k]) == Some(k)
  {
    forall j | 0 <= j < k ensures s[..k][j] != s[k] {
      assert s[..k][j] == s[j];
    }
    IndexOfIs(s, s[k], k);
  }

  /** A sequence without repeats has each element at most once in its multiset. */
  lemma {:induction false} DistinctCounts<T>(s: seq<T>, x: T)
    requires Distinct(s)
    ensures multiset(s)[x] <= 1
  {
    if s != [] {
      var t := s[1..];
      assert s == [s[0]] + t;
      assert Distinct(t) by {
        forall i, j | 0 <= i < j < |t| ensures t[i] != t[j] {
          assert t[i] == s[i + 1] && t[j] == s[j + 1];
        }
      }
      DistinctCounts(t, x);
    }
  }

  lemma {:induction false} DistinctAppend<T>(s: seq<T>, x: T)
    requires Distinct(s) && x !in s
    ensures Distinct(s + [x])
  {
  }

  /** Dropping the head keeps a sequence without repeats; the head is not in the rest. */
  lemma {:induction false} DistinctTail<T>(s: seq<T>)
    requires Distinct(s) && s != []
    ensures Distinct(s[1..]) && s[0] !in s[1..]
  {
    forall i, j | 0 <= i < j < |s| - 1 ensures s[1..][i] != s[1..][j] {
      assert s[1..][i] == s[i + 1] && s[1..][j] == s[j + 1];
    }
  }

  /** A sequence whose multiset fits inside that of a sequence without repeats has no
      repeats either. */
  lemma {:induction false} DistinctSubMultiset<T>(a: seq<T>, b: seq<T>)
    requires Distinct(b) && multiset(a) <= multiset(b)
    ensures Distinct(a)
  {
    forall i, j | 0 <= i < j < |a| ensures a[i] != a[j] {
      if a[i] == a[j] {
        var x := a[i];
        assert a == a[..j] + [x] + a[j + 1..];
        assert x in multiset(a[..j]) by {
          assert a[..j][i] == x;
        }
        assert multiset(a)[x] >= 2;
        DistinctCounts(b, x);
      }
    }
  }

  /** The sum of a sequence of integers. */
  function Sum(s: seq<int>): int
  {
    if s == [] then 0 else Sum(s[..|s| - 1]) + s[|s| - 1]
  }

  lemma {:induction false} SumAppend(s: seq<int>, t: seq<int>)
    ensures Sum(s + t) == Sum(s) + Sum(t)
  {
    if t != [] {
      assert (s + t)[..|s + t| - 1] == s + t[..|t| - 1];
      SumAppend(s, t[..|t| - 1]);
    } else {
      assert s + t == s;
    }
  }

  /** Python's `list.remove(x)`: the list without the first occurrence of `x` (Python raises
      `ValueError` when `x` is absent). */
  function RemoveFirst<T(==)>(s: seq<T>, x: T): (r: seq<T>)
    requires x in s
    ensures |r| == |s| - 1 && multiset(r) + multiset{x} == multiset(s)
    ensures forall y :: y in r ==> y in s
  {
    if s[0] == x then
      assert s == [s[0]] + s[1..];
      s[1..]
    else
      assert s == [s[0]] + s[1..];
      [s[0]] + RemoveFirst(s[1..], x)
  }

  /** `list.remove(x)` cuts the list at the first occurrence of `x`. */
  lemma {:induction false} RemoveFirstCut<T>(s: seq<T>, x: T)
    requires x in s
    ensures IndexOf(s, x).Some?
    ensures var i := IndexOf(s, x).value; RemoveFirst(s, x) == s[..i] + s[i + 1..]
  {
    if s[0] != x {
      var t := s[1..];
      RemoveFirstCut(t, x);
      var i := IndexOf(t, x).value;
      assert IndexOf(s, x) == Some(i + 1);
      calc {
        RemoveFirst(s, x);
        [s[0]] + RemoveFirst(t, x);
        [s[0]] + (t[..i] + t[i + 1..]);
        { assert [s[0]] + t[..i] == s[..i + 1]; assert t[i + 1..] == s[i + 2..]; }
        s[..i + 1] + s[i + 2..];
      }
    }
  }

  /** Removing an element from a list without repeats leaves a list without repeats and
      without that element. */
  lemma {:induction false} RemoveFirstGone<T>(s: seq<T>, x: T)
    requires Distinct(s) && x in s
    ensures Distinct(RemoveFirst(s, x)) && x !in RemoveFirst(s, x)
  {
    var r := RemoveFirst(s, x);
    DistinctCounts(s, x);
    assert multiset(r)[x] == 0;
    DistinctSubMultiset(r, s);
  }

  /** Python's `d.get(key, 0)` on a dictionary of counts. */
  function Get(m: map<string, int>, key: string): int
  {
    if key in m then m[key] else 0
  }

  /** Python's `d[key] = d.get(key, 0) + 1`. */
  function Bump(m: map<string, int>, key: string): (r: map<string, int>)
    ensures r.Keys == m.Keys + {key} && r[key] == Get(m, key) + 1
    ensures forall x :: x in m && x != key ==> r[x] == m[x]
  {
    m[key := Get(m, key) + 1]
  }

  /** The sum of a dictionary's values, `sum(d.values())`. */
  ghost function MapSum(m: map<string, int>): int
    decreases m.Keys
  {
    if m.Keys == {} then 0
    else
      var x :| x in m.Keys;
      m[x] + MapSum(m - {x})
  }

  lemma {:induction false} MapSumRemove(m: map<string, int>, y: string)
    requires y in m
    ensures MapSum(m) == m[y] + MapSum(m - {y})
    decreases m.Keys
  {
    var x :| x in m.Keys && MapSum(m) == m[x] + MapSum(m - {x});
    if x != y {
      MapSumRemove(m - {x}, y);
      MapSumRemove(m - {y}, x);
      assert (m - {x}) - {y} == (m - {y}) - {x};
    }
  }

  /** Counting one more under `key` adds one to the sum of the values. */
  lemma {:induction false} BumpSum(m: map<string, int>, key: string)
    ensures MapSum(Bump(m, key)) == MapSum(m) + 1
  {
    var r := Bump(m, key);
    MapSumRemove(r, key);
    assert r - {key} == m - {key};
    if key in m {
      MapSumRemove(m, key);
    } else {
      assert m - {key} == m;
    }
  }
}
