/** A stable sort by a numeric key, as `Array.prototype.sort` with a comparator
    `(a, b) => key(a) - key(b)` behaves: ascending, equal keys kept in arrival order. */
module Sorting {

  predicate SortedBy<T>(s: seq<T>, key: T -> real) {
    forall i, j :: 0 <= i < j < |s| ==> key(s[i]) <= key(s[j])
  }

  lemma AppendSorted<T>(s: seq<T>, x: T, key: T -> real)
    requires SortedBy(s, key)
    requires forall i :: 0 <= i < |s| ==> key(s[i]) <= key(x)
    ensures SortedBy(s + [x], key)
  {
    var r := s + [x];
    forall i, j | 0 <= i < j < |r| ensures key(r[i]) <= key(r[j]) {
      if j < |s| {
        assert r[i] == s[i] && r[j] == s[j];
      } else {
        assert r[i] == s[i];
      }
    }
  }

  lemma BoundedBy<T>(r: seq<T>, s: seq<T>, e: T, key: T -> real, b: real)
    requires forall i :: 0 <= i < |r| ==> r[i] == e || r[i] in s
    requires forall j :: 0 <= j < |s| ==> key(s[j]) <= b
    requires key(e) <= b
    ensures forall i :: 0 <= i < |r| ==> key(r[i]) <= b
  {
    forall i | 0 <= i < |r| ensures key(r[i]) <= b {
      if r[i] != e {
        var j :| 0 <= j < |s| && s[j] == r[i];
      }
    }
  }

  /** Places `e` after every element whose key does not exceed its own. */
  function Insert<T>(s: seq<T>, e: T, key: T -> real): (r: seq<T>)
    requires SortedBy(s, key)
    ensures SortedBy(r, key)
    ensures multiset(r) == multiset(s) + multiset{e}
    ensures forall i :: 0 <= i < |r| ==> r[i] == e || r[i] in s
    ensures |r| == |s| + 1
  {
    if |s| == 0 then [e]
    else if key(e) < key(s[|s| - 1]) then
      var init := s[..|s| - 1];
      var last := s[|s| - 1];
      assert s == init + [last];
      var r' := Insert(init, e, key);
      assert forall j :: 0 <= j < |init| ==> key(init[j]) <= key(last) by {
        forall j | 0 <= j < |init| ensures key(init[j]) <= key(last) {
          assert s[j] == init[j];
        }
      }
      BoundedBy(r', init, e, key, key(last));
      AppendSorted(r', last, key);
      r' + [last]
    else
      AppendSorted(s, e, key);
      s + [e]
  }

  /** Insertion sort: every element is inserted behind the equal keys already placed. */
  function SortBy<T>(s: seq<T>, key: T -> real): (r: seq<T>)
    ensures SortedBy(r, key)
    ensures multiset(r) == multiset(s)
    ensures |r| == |s|
  {
    if |s| == 0 then []
    else
      assert s == s[..|s| - 1] + [s[|s| - 1]];
      Insert(SortBy(s[..|s| - 1], key), s[|s| - 1], key)
  }

  lemma SameElements<T>(s: seq<T>, key: T -> real, x: T)
    ensures x in SortBy(s, key) <==> x in s
  {
    assert x in SortBy(s, key) <==> x in multiset(SortBy(s, key));
  }

  /** Every element lies between the first and the last of the sorted sequence. */
  lemma SortedBounds<T>(s: seq<T>, key: T -> real, x: T)
    requires x in s
    ensures var r := SortBy(s, key);
      |r| == |s| && key(r[0]) <= key(x) <= key(r[|r| - 1])
  {
    var r := SortBy(s, key);
    SameElements(s, key, x);
    var j :| 0 <= j < |r| && r[j] == x;
    assert key(r[0]) <= key(r[j]) <= key(r[|r| - 1]);
  }
}
