/** The array method `sort`: stable, by a comparison. */
module StableSort {

  /** `before(a, b)`: a must not come after b. */
  type Compare<!T> = (T, T) -> bool

  ghost predicate Total<T(!new)>(before: Compare<T>) {
    && (forall a, b :: before(a, b) || before(b, a))
    && (forall a, b, c :: before(a, b) && before(b, c) ==> before(a, c))
  }

  function Insert<T>(before: Compare<T>, x: T, s: seq<T>): (r: seq<T>)
    ensures |r| == |s| + 1
  {
    if s == [] || before(x, s[0]) then [x] + s else [s[0]] + Insert(before, x, s[1..])
  }

  function Sort<T>(before: Compare<T>, s: seq<T>): (r: seq<T>)
    ensures |r| == |s|
  {
    if s == [] then [] else Insert(before, s[0], Sort(before, s[1..]))
  }

  lemma {:induction false} InsertContents<T>(before: Compare<T>, x: T, s: seq<T>)
    ensures multiset(Insert(before, x, s)) == multiset(s) + multiset{x}
  {
    if s != [] && !before(x, s[0]) {
      InsertContents(before, x, s[1..]);
      assert s == [s[0]] + s[1..];
    }
  }

  /** Sorting keeps every element, as often as it occurs. */
  lemma {:induction false} SortContents<T>(before: Compare<T>, s: seq<T>)
    ensures multiset(Sort(before, s)) == multiset(s)
  {
    if s != [] {
      SortContents(before, s[1..]);
      InsertContents(before, s[0], Sort(before, s[1..]));
      assert s == [s[0]] + s[1..];
    }
  }

  ghost predicate Sorted<T>(before: Compare<T>, s: seq<T>) {
    forall i, j :: 0 <= i < j < |s| ==> before(s[i], s[j])
  }

  lemma {:induction false} InsertSorted<T(!new)>(before: Compare<T>, x: T, s: seq<T>)
    requires Total(before) && Sorted(before, s)
    ensures Sorted(before, Insert(before, x, s))
  {
    if s != [] && !before(x, s[0]) {
      InsertSorted(before, x, s[1..]);
      InsertContents(before, x, s[1..]);
      var r := Insert(before, x, s[1..]);
      forall k | 0 <= k < |r| ensures before(s[0], r[k]) {
        assert r[k] in multiset(r);
        if r[k] != x {
          assert r[k] in multiset(s[1..]);
          var i :| 0 <= i < |s[1..]| && s[1..][i] == r[k];
        }
      }
    }
  }

  lemma {:induction false} SortSorted<T(!new)>(before: Compare<T>, s: seq<T>)
    requires Total(before)
    ensures Sorted(before, Sort(before, s))
  {
    if s != [] {
      SortSorted(before, s[1..]);
      InsertSorted(before, s[0], Sort(before, s[1..]));
    }
  }

  /** The first element of a sorted list comes before all, and was first among its equals. */
  lemma {:induction false} SortFirst<T(!new)>(before: Compare<T>, s: seq<T>) returns (k: nat)
    requires Total(before) && s != []
    ensures k < |s| && Sort(before, s)[0] == s[k]
    ensures forall i :: 0 <= i < |s| ==> before(s[k], s[i])
    ensures forall i :: 0 <= i < k ==> !before(s[i], s[k])
  {
    if |s| == 1 {
      k := 0;
    } else {
      var rest := s[1..];
      var j := SortFirst(before, rest);
      assert forall i :: 1 <= i < |s| ==> s[i] == rest[i - 1];
      k := if before(s[0], rest[j]) then 0 else j + 1;
    }
  }

  function Filter<T>(p: T -> bool, s: seq<T>): (r: seq<T>) {
    if s == [] then [] else if p(s[0]) then [s[0]] + Filter(p, s[1..]) else Filter(p, s[1..])
  }

  lemma {:induction false} FilterContents<T>(p: T -> bool, s: seq<T>)
    ensures |Filter(p, s)| <= |s|
    ensures forall x :: x in Filter(p, s) <==> x in s && p(x)
  {
    if s != [] {
      FilterContents(p, s[1..]);
      assert s == [s[0]] + s[1..];
    }
  }

  lemma FilterCons<T>(p: T -> bool, x: T, s: seq<T>)
    ensures Filter(p, [x] + s) == if p(x) then [x] + Filter(p, s) else Filter(p, s)
  {
    assert ([x] + s)[1..] == s;
  }

  lemma {:induction false} FilterConcat<T>(p: T -> bool, s: seq<T>, t: seq<T>)
    ensures Filter(p, s + t) == Filter(p, s) + Filter(p, t)
  {
    if s == [] {
      assert s + t == t;
    } else {
      assert s + t == [s[0]] + (s[1..] + t) && s == [s[0]] + s[1..];
      FilterCons(p, s[0], s[1..] + t);
      FilterConcat(p, s[1..], t);
    }
  }

  /** Sorting and filtering commute. */
  lemma {:induction false} SortFilter<T(!new)>(before: Compare<T>, p: T -> bool, s: seq<T>)
    requires Total(before)
    ensures Filter(p, Sort(before, s)) == Sort(before, Filter(p, s))
  {
    hide Insert;
    if s != [] {
      SortFilter(before, p, s[1..]);
      SortSorted(before, s[1..]);
      InsertFilter(before, p, s[0], Sort(before, s[1..]));
      if p(s[0]) { assert ([s[0]] + Filter(p, s[1..]))[1..] == Filter(p, s[1..]); }
    }
  }

  lemma {:induction false} InsertFilter<T(!new)>(before: Compare<T>, p: T -> bool, x: T, s: seq<T>)
    requires Total(before) && Sorted(before, s)
    ensures Filter(p, Insert(before, x, s)) == if p(x) then Insert(before, x, Filter(p, s)) else Filter(p, s)
  {
    hide Total;
    if s == [] || before(x, s[0]) {
      hide Sorted;
      FilterCons(p, x, s);
      InsertAtFront(before, p, x, s);
    } else {
      InsertFilter(before, p, x, s[1..]);
      FilterCons(p, s[0], Insert(before, x, s[1..]));
      InsertBehind(before, x, s[0], Filter(p, s[1..]));
    }
  }

  lemma InsertBehind<T>(before: Compare<T>, x: T, y: T, s: seq<T>)
    requires !before(x, y)
    ensures Insert(before, x, [y] + s) == [y] + Insert(before, x, s)
  {
    assert ([y] + s)[1..] == s;
  }

  lemma InsertAtFront<T(!new)>(before: Compare<T>, p: T -> bool, x: T, s: seq<T>)
    requires Total(before) && Sorted(before, s) && (s == [] || before(x, s[0]))
    ensures Insert(before, x, Filter(p, s)) == [x] + Filter(p, s)
  {
    hide Total;
    hide Sorted;
    if Filter(p, s) != [] { FirstFiltered(before, p, x, s); }
  }

  lemma FirstFiltered<T(!new)>(before: Compare<T>, p: T -> bool, x: T, s: seq<T>)
    requires Total(before) && Sorted(before, s) && s != [] && before(x, s[0]) && Filter(p, s) != []
    ensures before(x, Filter(p, s)[0])
  {
    FilterContents(p, s);
    var y := Filter(p, s)[0];
    assert y in Filter(p, s);
    var i :| 0 <= i < |s| && s[i] == y;
    if i > 0 { assert before(s[0], s[i]); }
  }

  /** Sorting a sorted list again changes nothing. */
  lemma {:induction false} SortOfSorted<T(!new)>(before: Compare<T>, s: seq<T>)
    requires Sorted(before, s)
    ensures Sort(before, s) == s
  {
    if |s| > 1 {
      SortOfSorted(before, s[1..]);
      assert before(s[0], s[1]);
    }
  }
}
