/**
 * The orderings the reports rely on: Python's `sorted(keys, reverse=True)`
 * over distinct strings, and a stable sort of rows by a numeric column,
 * largest first, which is both Python's `sorted(rows, key=..., reverse=True)`
 * and SQL's `ORDER BY column DESC`.
 */
module Sorting {
  import opened Text

  // ----- strings, greatest first -----

  /** No string of `s` is greater than `m`, which is in `s`. */
  predicate IsMax(s: set<string>, m: string)
  {
    m in s && forall x :: x in s ==> !StrLess(m, x)
  }

  lemma NewMax(t: set<string>, m: string, y: string)
    requires IsMax(t, m) && StrLess(m, y)
    ensures IsMax(t + {y}, y)
  {
    forall x | x in t + {y} ensures !StrLess(y, x) {
      StrLessIrreflexive(y);
      if x != y && StrLess(y, x) {
        StrLessTransitive(m, y, x);
      }
    }
  }

  lemma {:induction false} KeyMaxExists(s: set<string>)
    requires s != {}
    ensures exists m :: IsMax(s, m)
    decreases |s|
  {
    var y :| y in s;
    var t := s - {y};
    assert s == t + {y};
    if t == {} {
      StrLessIrreflexive(y);
      assert IsMax(s, y);
    } else {
      KeyMaxExists(t);
      var m :| IsMax(t, m);
      if StrLess(m, y) {
        NewMax(t, m, y);
      } else {
        assert IsMax(s, m);
      }
    }
  }

  /** Any two strings are equal or ordered one way round. */
  lemma StrLessConnected()
    ensures forall a: string, b: string :: a == b || StrLess(a, b) || StrLess(b, a)
  {
    forall a: string, b: string ensures a == b || StrLess(a, b) || StrLess(b, a) {
      StrLessTotal(a, b);
    }
  }

  function MaxKey(s: set<string>): (m: string)
    requires s != {}
    ensures IsMax(s, m)
  {
    KeyMaxExists(s);
    StrLessConnected();
    var m :| IsMax(s, m);
    m
  }

  /** The strings of `s` in strictly decreasing order (`sorted(s, reverse=True)`). */
  function KeysDescending(s: set<string>): (r: seq<string>)
    ensures |r| == |s|
    ensures forall x :: x in r <==> x in s
    ensures forall i, j :: 0 <= i < j < |r| ==> StrLess(r[j], r[i])
    decreases |s|
  {
    if s == {} then []
    else
      var m := MaxKey(s);
      assert forall x :: x in s - {m} ==> StrLess(x, m) by {
        forall x | x in s - {m} ensures StrLess(x, m) { StrLessTotal(x, m); }
      }
      [m] + KeysDescending(s - {m})
  }

  // ----- report rows, by a numeric column, largest first, stable -----

  ghost predicate NonIncreasing<T>(s: seq<T>, key: T -> real)
  {
    forall i, j :: 0 <= i < j < |s| ==> key(s[i]) >= key(s[j])
  }

  /** Put `x` in front of the first row whose key is not larger than its own. */
  function InsertDesc<T>(x: T, s: seq<T>, key: T -> real): (r: seq<T>)
    ensures |r| == |s| + 1 && (r[0] == x || (s != [] && r[0] == s[0]))
  {
    if s == [] then [x]
    else if key(s[0]) > key(x) then [s[0]] + InsertDesc(x, s[1..], key)
    else [x] + s
  }

  /** Inserting into a list sorted largest first keeps it sorted. */
  lemma {:induction false} InsertDescSorted<T>(x: T, s: seq<T>, key: T -> real)
    requires NonIncreasing(s, key)
    ensures NonIncreasing(InsertDesc(x, s, key), key)
    decreases |s|
  {
    if s != [] && key(s[0]) > key(x) {
      var tail := s[1..];
      assert NonIncreasing(tail, key) by {
        forall i, j | 0 <= i < j < |tail| ensures key(tail[i]) >= key(tail[j]) {
          assert tail[i] == s[i + 1] && tail[j] == s[j + 1];
        }
      }
      InsertDescSorted(x, tail, key);
      var rest := InsertDesc(x, tail, key);
      assert key(s[0]) >= key(rest[0]) by {
        if rest[0] != x { assert rest[0] == s[1]; }
      }
      assert forall j :: 0 <= j < |rest| ==> key(s[0]) >= key(rest[j]);
    } else if s != [] {
      assert forall j :: 0 <= j < |s| ==> key(s[0]) >= key(s[j]);
    }
  }

  /** Inserting adds exactly one row and loses none. */
  lemma {:induction false} InsertDescPerm<T>(x: T, s: seq<T>, key: T -> real)
    ensures multiset(InsertDesc(x, s, key)) == multiset(s) + multiset{x}
    decreases |s|
  {
    if s != [] && key(s[0]) > key(x) {
      InsertDescPerm(x, s[1..], key);
      assert s == [s[0]] + s[1..];
    }
  }

  /**
   * Python's `sorted(rows, key=key, reverse=True)`: an insertion sort that
   * keeps rows with equal keys in their original order.
   */
  function SortDesc<T>(s: seq<T>, key: T -> real): (r: seq<T>)
    ensures NonIncreasing(r, key)
    ensures multiset(r) == multiset(s)
  {
    if s == [] then []
    else
      assert s == [s[0]] + s[1..];
      var sorted := SortDesc(s[1..], key);
      InsertDescSorted(s[0], sorted, key);
      InsertDescPerm(s[0], sorted, key);
      InsertDesc(s[0], sorted, key)
  }

  /** The rows of `s`, last first. */
  function Reversed<T>(s: seq<T>): (r: seq<T>)
    ensures |r| == |s|
    ensures forall i :: 0 <= i < |s| ==> r[i] == s[|s| - 1 - i]
  {
    if s == [] then [] else Reversed(s[1..]) + [s[0]]
  }

  /** A row smaller than every row of `s` goes to the end. */
  lemma {:induction false} InsertLast<T>(x: T, s: seq<T>, key: T -> real)
    requires forall i :: 0 <= i < |s| ==> key(s[i]) > key(x)
    ensures InsertDesc(x, s, key) == s + [x]
    decreases |s|
  {
    if s != [] {
      InsertLast(x, s[1..], key);
      assert s == [s[0]] + s[1..];
    }
  }

  /** Sorting rows whose keys strictly increase reverses them. */
  lemma {:induction false} SortIncreasing<T>(s: seq<T>, key: T -> real)
    requires forall i, j :: 0 <= i < j < |s| ==> key(s[i]) < key(s[j])
    ensures SortDesc(s, key) == Reversed(s)
    decreases |s|
  {
    if s != [] {
      var tail := s[1..];
      assert forall i, j :: 0 <= i < j < |tail| ==> key(tail[i]) < key(tail[j]) by {
        forall i, j | 0 <= i < j < |tail| ensures key(tail[i]) < key(tail[j]) {
          assert tail[i] == s[i + 1] && tail[j] == s[j + 1];
        }
      }
      SortIncreasing(tail, key);
      var sorted := SortDesc(tail, key);
      forall i | 0 <= i < |sorted| ensures key(sorted[i]) > key(s[0]) {
        assert sorted[i] == s[|tail| - i];
      }
      InsertLast(s[0], sorted, key);
      assert SortDesc(s, key) == InsertDesc(s[0], sorted, key);
      assert Reversed(s) == Reversed(tail) + [s[0]];
    }
  }
}
