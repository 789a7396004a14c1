/** Python's `list.sort(key=...)`: a stable sort, modelled generically over an ordering
    relation `le` ("sorts no later than") that the key induces. */
module Order {

  /** `le` is total and transitive, as any comparison of keys is. */
  ghost predicate Preorder<T(!new)>(le: (T, T) -> bool)
  {
    && (forall a, b :: le(a, b) || le(b, a))
    && (forall a, b, c :: le(a, b) && le(b, c) ==> le(a, c))
  }

  predicate Sorted<T>(s: seq<T>, le: (T, T) -> bool)
  {
    forall i, j :: 0 <= i < j < |s| ==> le(s[i], s[j])
  }

  /** Places `x` behind every leading element that sorts no later than it. */
  function Place<T>(s: seq<T>, x: T, le: (T, T) -> bool): (r: seq<T>)
    ensures |r| == |s| + 1 && multiset(r) == multiset(s) + multiset{x}
  {
    if s == [] then [x]
    else
      assert s == [s[0]] + s[1..];
      if le(s[0], x) then [s[0]] + Place(s[1..], x, le) else [x] + s
  }

  lemma {:induction false} PlaceAbove<T>(s: seq<T>, x: T, le: (T, T) -> bool, w: T)
    requires le(w, x) && forall i :: 0 <= i < |s| ==> le(w, s[i])
    ensures forall i :: 0 <= i < |s| + 1 ==> le(w, Place(s, x, le)[i])
  {
    if s != [] && le(s[0], x) {
      PlaceAbove(s[1..], x, le, w);
      assert forall i :: 1 <= i < |s| + 1 ==> Place(s, x, le)[i] == Place(s[1..], x, le)[i - 1];
    }
  }

  lemma {:induction false} SortedTail<T>(s: seq<T>, le: (T, T) -> bool)
    requires Sorted(s, le) && s != []
    ensures Sorted(s[1..], le) && forall i :: 0 <= i < |s| - 1 ==> le(s[0], s[1..][i])
  {
    forall i, j | 0 <= i < j < |s| - 1 ensures le(s[1..][i], s[1..][j]) {
      assert s[1..][i] == s[i + 1] && s[1..][j] == s[j + 1];
    }
    forall i | 0 <= i < |s| - 1 ensures le(s[0], s[1..][i]) {
      assert s[1..][i] == s[i + 1];
    }
  }

  lemma {:induction false} PlaceSorted<T(!new)>(s: seq<T>, x: T, le: (T, T) -> bool)
    requires Preorder(le) && Sorted(s, le)
    ensures Sorted(Place(s, x, le), le)
  {
    if s != [] {
      var rest := s[1..];
      SortedTail(s, le);
      if le(s[0], x) {
        PlaceSorted(rest, x, le);
        var p := Place(rest, x, le);
        PlaceAbove(rest, x, le, s[0]);
        var r := [s[0]] + p;
        forall i, j | 0 <= i < j < |r| ensures le(r[i], r[j]) {
          assert r[j] == p[j - 1];
          if i > 0 {
            assert r[i] == p[i - 1];
          }
        }
      } else {
        var r := [x] + s;
        forall i, j | 0 <= i < j < |r| ensures le(r[i], r[j]) {
          assert r[j] == s[j - 1];
          if i > 0 {
            assert r[i] == s[i - 1];
          } else {
            assert le(x, s[0]);
            if j > 1 {
              assert le(s[0], s[j - 1]);
            }
          }
        }
      }
    }
  }

  /** The stable sort: insertion sort from the front, each element going behind the
      earlier ones it does not sort before. */
  function SortBy<T>(s: seq<T>, le: (T, T) -> bool): (r: seq<T>)
    ensures |r| == |s| && multiset(r) == multiset(s)
  {
    if s == [] then []
    else
      assert s == s[..|s| - 1] + [s[|s| - 1]];
      Place(SortBy(s[..|s| - 1], le), s[|s| - 1], le)
  }

  lemma {:induction false} SortBySorted<T(!new)>(s: seq<T>, le: (T, T) -> bool)
    requires Preorder(le)
    ensures Sorted(SortBy(s, le), le)
  {
    if s != [] {
      SortBySorted(s[..|s| - 1], le);
      PlaceSorted(SortBy(s[..|s| - 1], le), s[|s| - 1], le);
    }
  }

  /** The elements of `s` that sort level with `x`, in order. */
  function Level<T>(s: seq<T>, x: T, le: (T, T) -> bool): seq<T>
  {
    if s == [] then [] else (if le(s[0], x) && le(x, s[0]) then [s[0]] else []) + Level(s[1..], x, le)
  }

  lemma {:induction false} LevelAppend<T>(a: seq<T>, b: seq<T>, x: T, le: (T, T) -> bool)
    ensures Level(a + b, x, le) == Level(a, x, le) + Level(b, x, le)
  {
    if a != [] {
      assert (a + b)[1..] == a[1..] + b;
      LevelAppend(a[1..], b, x, le);
    } else {
      assert a + b == b;
    }
  }

  lemma {:induction false} LevelNone<T>(s: seq<T>, x: T, le: (T, T) -> bool)
    requires forall i :: 0 <= i < |s| ==> !le(s[i], x)
    ensures Level(s, x, le) == []
  {
    if s != [] {
      LevelNone(s[1..], x, le);
    }
  }

  lemma {:induction false} LevelCons<T>(y: T, s: seq<T>, x: T, le: (T, T) -> bool)
    ensures Level([y] + s, x, le) == (if le(y, x) && le(x, y) then [y] else []) + Level(s, x, le)
  {
    assert ([y] + s)[1..] == s;
  }

  lemma {:induction false} LevelPlace<T(!new)>(s: seq<T>, y: T, x: T, le: (T, T) -> bool)
    requires Preorder(le) && Sorted(s, le)
    ensures Level(Place(s, y, le), x, le) == Level(s, x, le) + (if le(y, x) && le(x, y) then [y] else [])
  {
    if s == [] {
    } else if le(s[0], y) {
      var rest := s[1..];
      SortedTail(s, le);
      LevelPlace(rest, y, x, le);
      LevelCons(s[0], Place(rest, y, le), x, le);
      assert s == [s[0]] + rest;
      LevelCons(s[0], rest, x, le);
    } else {
      if le(y, x) && le(x, y) {
        forall i | 0 <= i < |s| ensures !le(s[i], x) {
          assert le(s[0], s[i]);
        }
        LevelNone(s, x, le);
      }
      LevelCons(y, s, x, le);
    }
  }

  /** Stability: elements that sort level keep their input order. */
  lemma {:induction false} SortByStable<T(!new)>(s: seq<T>, x: T, le: (T, T) -> bool)
    requires Preorder(le)
    ensures Level(SortBy(s, le), x, le) == Level(s, x, le)
  {
    if s != [] {
      var init, last := s[..|s| - 1], s[|s| - 1];
      var t := SortBy(init, le);
      var tail := if le(last, x) && le(x, last) then [last] else [];
      assert s == init + [last];
      calc {
        Level(SortBy(s, le), x, le);
        Level(Place(t, last, le), x, le);
        { SortBySorted(init, le); LevelPlace(t, last, x, le); }
        Level(t, x, le) + tail;
        { SortByStable(init, x, le); }
        Level(init, x, le) + tail;
        { assert Level([last], x, le) == tail; }
        Level(init, x, le) + Level([last], x, le);
        { LevelAppend(init, [last], x, le); }
        Level(s, x, le);
      }
    }
  }

  // ---------------------------------------------------------------------------
  // Sorting positions by an integer key: `sort(key=lambda t: t.workload)` over teachers
  // held by position.

  /** The key of position `i`; positions past the end have key 0. */
  function Key(keys: seq<int>, i: nat): int
  {
    if i < |keys| then keys[i] else 0
  }

  /** Positions `s` in ascending key order, ties in input order. */
  function ByKey(s: seq<nat>, keys: seq<int>): (r: seq<nat>)
    ensures |r| == |s| && multiset(r) == multiset(s)
    ensures forall i, j :: 0 <= i < j < |r| ==> Key(keys, r[i]) <= Key(keys, r[j])
  {
    var le := (a: nat, b: nat) => Key(keys, a) <= Key(keys, b);
    SortBySorted(s, le);
    SortBy(s, le)
  }

  /** The positions of `s` whose key is `v`, in order. */
  function WithKey(s: seq<nat>, keys: seq<int>, v: int): seq<nat>
  {
    if s == [] then [] else (if Key(keys, s[0]) == v then [s[0]] else []) + WithKey(s[1..], keys, v)
  }

  lemma {:induction false} WithKeyLevel(s: seq<nat>, keys: seq<int>, x: nat)
    ensures WithKey(s, keys, Key(keys, x)) == Level(s, x, (a: nat, b: nat) => Key(keys, a) <= Key(keys, b))
  {
    if s != [] {
      WithKeyLevel(s[1..], keys, x);
    }
  }

  /** Stability of `ByKey`: positions with equal keys keep their input order. */
  lemma {:induction false} ByKeyStable(s: seq<nat>, keys: seq<int>, x: nat)
    ensures WithKey(ByKey(s, keys), keys, Key(keys, x)) == WithKey(s, keys, Key(keys, x))
  {
    var le := (a: nat, b: nat) => Key(keys, a) <= Key(keys, b);
    assert ByKey(s, keys) == SortBy(s, le);
    SortByStable(s, x, le);
    WithKeyLevel(SortBy(s, le), keys, x);
    WithKeyLevel(s, keys, x);
  }
}
