/** Canonical JSON: object members in key order.

    Keys are ordered by `localeCompare`, which is a total preorder: distinct keys may compare equal
    (ignorable or equivalent characters). `le(a, b)` stands for `a.localeCompare(b) <= 0`. */
module CanonicalJson {
  import opened Prelude
  import opened JsonText
  import Stable = StableSort

  type Order = (string, string) -> bool

  ghost predicate TotalPreorder(le: Order) {
    && (forall a, b :: le(a, b) || le(b, a))
    && (forall a, b, c :: le(a, b) && le(b, c) ==> le(a, c))
  }

  predicate Tied(le: Order, a: string, b: string) { le(a, b) && le(b, a) }

  // ---------------------------------------------------------------- stable sorting by key

  function ByKey<V>(le: Order): Stable.Compare<Entry<V>> { (a: Entry<V>, b: Entry<V>) => le(a.key, b.key) }

  function Insert<V>(le: Order, e: Entry<V>, s: seq<Entry<V>>): seq<Entry<V>> { Stable.Insert(ByKey(le), e, s) }

  /** Array sort with a comparator on keys: stable. */
  function Sort<V>(le: Order, s: seq<Entry<V>>): seq<Entry<V>> { Stable.Sort(ByKey(le), s) }

  ghost predicate Ascending<V>(le: Order, s: seq<Entry<V>>) {
    forall i, j :: 0 <= i < j < |s| ==> le(s[i].key, s[j].key)
  }

  lemma SortMembership<V>(le: Order, s: seq<Entry<V>>, e: Entry<V>)
    ensures e in Sort(le, s) <==> e in s
  {
    Stable.SortContents(ByKey(le), s);
    assert e in Sort(le, s) <==> e in multiset(Sort(le, s));
    assert e in s <==> e in multiset(s);
  }

  lemma ByKeyTotal<V(!new)>(le: Order)
    requires TotalPreorder(le)
    ensures Stable.Total(ByKey<V>(le))
  {
    var before := ByKey<V>(le);
    forall a, b ensures before(a, b) || before(b, a) {
      assert le(a.key, b.key) || le(b.key, a.key);
    }
    forall a, b, c | before(a, b) && before(b, c) ensures before(a, c) {
      assert le(a.key, b.key) && le(b.key, c.key);
    }
  }

  lemma AscendingIsSorted<V>(le: Order, s: seq<Entry<V>>)
    ensures Ascending(le, s) <==> Stable.Sorted(ByKey(le), s)
  {
    if Ascending(le, s) {
      forall i, j | 0 <= i < j < |s| ensures ByKey(le)(s[i], s[j]) { assert le(s[i].key, s[j].key); }
    }
    if Stable.Sorted(ByKey(le), s) {
      forall i, j | 0 <= i < j < |s| ensures le(s[i].key, s[j].key) { assert ByKey(le)(s[i], s[j]); }
    }
  }

  lemma SortAscends<V(!new)>(le: Order, s: seq<Entry<V>>)
    requires TotalPreorder(le)
    ensures Ascending(le, Sort(le, s))
  {
    ByKeyTotal<V>(le);
    Stable.SortSorted(ByKey(le), s);
    AscendingIsSorted(le, Sort(le, s));
  }

  function TiesWith<V>(le: Order, key: string): Entry<V> -> bool { (e: Entry<V>) => Tied(le, e.key, key) }

  /** The entries whose key ties with `key`, in order. */
  function TiedWith<V>(le: Order, key: string, s: seq<Entry<V>>): seq<Entry<V>> { Stable.Filter(TiesWith(le, key), s) }

  /** Entries that all tie are in order however they stand. */
  lemma TiesAscend<V(!new)>(le: Order, key: string, s: seq<Entry<V>>)
    requires TotalPreorder(le)
    ensures Ascending(le, TiedWith(le, key, s))
  {
    Stable.FilterContents(TiesWith(le, key), s);
    var t := TiedWith(le, key, s);
    forall i, j | 0 <= i < j < |t| ensures le(t[i].key, t[j].key) {
      assert t[i] in t && t[j] in t;
    }
  }

  /** Stability: sorting does not move entries with tied keys past each other. */
  lemma SortKeepsTies<V(!new)>(le: Order, key: string, s: seq<Entry<V>>)
    requires TotalPreorder(le)
    ensures TiedWith(le, key, Sort(le, s)) == TiedWith(le, key, s)
  {
    ByKeyTotal<V>(le);
    Stable.SortFilter(ByKey(le), TiesWith(le, key), s);
    TiesAscend(le, key, s);
    AscendingIsSorted(le, TiedWith(le, key, s));
    Stable.SortOfSorted(ByKey(le), TiedWith(le, key, s));
  }

  // ---------------------------------------------------------------- the canonical printers

  function EntryText(e: Entry<string>): string { Quote(e.key) + [':'] + e.value }

  function EntriesTail(es: seq<Entry<string>>): string {
    if es == [] then ['}'] else [','] + EntryText(es[0]) + EntriesTail(es[1..])
  }

  function ObjectText(es: seq<Entry<string>>): string {
    ['{'] + (if es == [] then ['}'] else EntryText(es[0]) + EntriesTail(es[1..]))
  }

  /** The audit version: an undefined member prints as null. */
  function Canonical(le: Order, v: Js): string
    decreases v, 1
  {
    match v
    case Arr(items) => ['['] + (if items == [] then [']'] else Canonical(le, items[0]) + CanonicalTail(le, items[1..]))
    case Obj(members) => ObjectText(Sort(le, Rendered(le, members)))
    case _ => Text(v)
  }

  function CanonicalTail(le: Order, items: seq<Js>): string
    decreases items, 0
  {
    if items == [] then [']'] else [','] + Canonical(le, items[0]) + CanonicalTail(le, items[1..])
  }

  function Rendered(le: Order, members: seq<Entry<Js>>): seq<Entry<string>>
    decreases members, 0
  {
    if members == [] then []
    else [Entry(members[0].key, Canonical(le, members[0].value))] + Rendered(le, members[1..])
  }

  /** The coordinator version: an undefined member is dropped. */
  function Dropping(le: Order, v: Js): string
    decreases v, 1
  {
    match v
    case Arr(items) => ['['] + (if items == [] then [']'] else Dropping(le, items[0]) + DroppingTail(le, items[1..]))
    case Obj(members) => ObjectText(Sort(le, RenderedDefined(le, members)))
    case _ => Text(v)
  }

  function DroppingTail(le: Order, items: seq<Js>): string
    decreases items, 0
  {
    if items == [] then [']'] else [','] + Dropping(le, items[0]) + DroppingTail(le, items[1..])
  }

  function RenderedDefined(le: Order, members: seq<Entry<Js>>): seq<Entry<string>>
    decreases members, 0
  {
    if members == [] then []
    else
      (if members[0].value == Undefined then [] else [Entry(members[0].key, Dropping(le, members[0].value))])
      + RenderedDefined(le, members[1..])
  }

  // ---------------------------------------------------------------- canonical text = text of the sorted value

  function Sorted(le: Order, v: Js): Js
    decreases v, 1
  {
    match v
    case Arr(items) => Arr(SortedItems(le, items))
    case Obj(members) => Obj(Sort(le, SortedMembers(le, members)))
    case _ => v
  }

  function SortedItems(le: Order, items: seq<Js>): (r: seq<Js>)
    decreases items, 0
    ensures |r| == |items|
    ensures forall i :: 0 <= i < |items| ==> r[i] == Sorted(le, items[i])
  {
    if items == [] then [] else [Sorted(le, items[0])] + SortedItems(le, items[1..])
  }

  function SortedMembers(le: Order, members: seq<Entry<Js>>): (r: seq<Entry<Js>>)
    decreases members, 0
    ensures |r| == |members|
    ensures forall i :: 0 <= i < |members| ==> r[i] == Entry(members[i].key, Sorted(le, members[i].value))
  {
    if members == [] then []
    else [Entry(members[0].key, Sorted(le, members[0].value))] + SortedMembers(le, members[1..])
  }

  function WithText(es: seq<Entry<Js>>): (r: seq<Entry<string>>)
    ensures |r| == |es| && forall i :: 0 <= i < |es| ==> r[i] == Entry(es[i].key, Text(es[i].value))
  {
    seq(|es|, i requires 0 <= i < |es| => Entry(es[i].key, Text(es[i].value)))
  }

  lemma WithTextCons(e: Entry<Js>, s: seq<Entry<Js>>)
    ensures WithText([e] + s) == [Entry(e.key, Text(e.value))] + WithText(s)
  {
  }

  lemma {:induction false} InsertCommutes(le: Order, e: Entry<Js>, s: seq<Entry<Js>>)
    ensures Insert(le, Entry(e.key, Text(e.value)), WithText(s)) == WithText(Insert(le, e, s))
  {
    hide Text;
    if s == [] || le(e.key, s[0].key) {
      WithTextCons(e, s);
    } else {
      InsertCommutes(le, e, s[1..]);
      assert s == [s[0]] + s[1..];
      WithTextCons(s[0], s[1..]);
      WithTextCons(s[0], Insert(le, e, s[1..]));
    }
  }

  /** Sorting looks only at keys, so it commutes with printing the values. */
  lemma {:induction false} SortCommutes(le: Order, s: seq<Entry<Js>>)
    ensures Sort(le, WithText(s)) == WithText(Sort(le, s))
  {
    if s != [] {
      SortCommutes(le, s[1..]);
      assert WithText(s)[1..] == WithText(s[1..]);
      InsertCommutes(le, s[0], Sort(le, s[1..]));
    }
  }

  lemma {:induction false} TailsAgree(es: seq<Entry<Js>>)
    ensures EntriesTail(WithText(es)) == MembersTail(es)
  {
    if es != [] {
      TailsAgree(es[1..]);
      assert WithText(es)[1..] == WithText(es[1..]);
    }
  }

  lemma ObjectTextAgrees(es: seq<Entry<Js>>)
    ensures ObjectText(WithText(es)) == Text(Obj(es))
  {
    if es != [] {
      TailsAgree(es[1..]);
      assert WithText(es)[1..] == WithText(es[1..]);
    }
  }

  lemma {:induction false} CanonicalIsTextOfSorted(le: Order, v: Js)
    ensures Canonical(le, v) == Text(Sorted(le, v))
    decreases v, 1
  {
    match v
    case Arr(items) =>
      if items != [] {
        CanonicalIsTextOfSorted(le, items[0]);
        CanonicalTailIsText(le, items[1..]);
        assert SortedItems(le, items)[1..] == SortedItems(le, items[1..]);
      }
    case Obj(members) =>
      RenderedIsText(le, members);
      SortCommutes(le, SortedMembers(le, members));
      ObjectTextAgrees(Sort(le, SortedMembers(le, members)));
    case _ =>
  }

  lemma {:induction false} CanonicalTailIsText(le: Order, items: seq<Js>)
    ensures CanonicalTail(le, items) == ItemsTail(SortedItems(le, items))
    decreases items, 0
  {
    if items != [] {
      CanonicalIsTextOfSorted(le, items[0]);
      CanonicalTailIsText(le, items[1..]);
      assert SortedItems(le, items)[1..] == SortedItems(le, items[1..]);
    }
  }

  lemma {:induction false} RenderedIsText(le: Order, members: seq<Entry<Js>>)
    ensures Rendered(le, members) == WithText(SortedMembers(le, members))
    decreases members, 0
  {
    if members != [] {
      CanonicalIsTextOfSorted(le, members[0].value);
      RenderedIsText(le, members[1..]);
    }
  }

  // ---------------------------------------------------------------- the text determines the value up to key order

  ghost predicate DistinctKeys(members: seq<Entry<Js>>) {
    forall i, j :: 0 <= i < j < |members| ==> members[i].key != members[j].key
  }

  /** Every object of a program has distinct keys. */
  ghost predicate WellFormed(v: Js)
    decreases v
  {
    match v
    case Arr(items) => forall x <- items :: WellFormed(x)
    case Obj(members) => DistinctKeys(members) && forall m <- members :: WellFormed(m.value)
    case _ => true
  }

  ghost function Keys(members: seq<Entry<Js>>): set<string> { set m | m in members :: m.key }

  /** Equal up to the order of members, at every depth. */
  ghost predicate Reordered(a: Js, b: Js)
    decreases a
  {
    match a
    case Arr(items) => b.Arr? && |items| == |b.items| && forall i :: 0 <= i < |items| ==>
        Reordered(items[i], b.items[i])
    case Obj(members) =>
      && b.Obj? && Keys(members) == Keys(b.members)
      && forall m <- members, n <- b.members :: m.key == n.key ==> Reordered(m.value, n.value)
    case _ => a == b
  }

  lemma {:induction false} SortedIsPlain(le: Order, v: Js)
    requires Plain(v)
    ensures Plain(Sorted(le, v))
    decreases v
  {
    match v
    case Arr(items) =>
      forall x | x in SortedItems(le, items) ensures Plain(x) {
        var i :| 0 <= i < |items| && x == Sorted(le, items[i]);
        SortedIsPlain(le, items[i]);
      }
    case Obj(members) =>
      forall m | m in Sort(le, SortedMembers(le, members)) ensures Plain(m.value) {
        SortMembership(le, SortedMembers(le, members), m);
        var i :| 0 <= i < |members| && m == Entry(members[i].key, Sorted(le, members[i].value));
        SortedIsPlain(le, members[i].value);
      }
    case _ =>
  }

  lemma SortedFormsEqual(le: Order, a: Js, b: Js)
    requires Plain(a) && Plain(b) && Canonical(le, a) == Canonical(le, b)
    ensures Sorted(le, a) == Sorted(le, b)
  {
    CanonicalIsTextOfSorted(le, a);
    CanonicalIsTextOfSorted(le, b);
    SortedIsPlain(le, a);
    SortedIsPlain(le, b);
    TextIsInjective(Sorted(le, a), Sorted(le, b));
  }

  lemma {:induction false} EqualSortedReordered(le: Order, a: Js, b: Js)
    requires WellFormed(a) && WellFormed(b) && Sorted(le, a) == Sorted(le, b)
    ensures Reordered(a, b)
    decreases a
  {
    match a
    case Arr(items) =>
      forall i | 0 <= i < |items| ensures Reordered(items[i], b.items[i]) {
        assert SortedItems(le, items)[i] == SortedItems(le, b.items)[i];
        EqualSortedReordered(le, items[i], b.items[i]);
      }
    case Obj(members) =>
      var s, t := SortedMembers(le, members), SortedMembers(le, b.members);
      SameEntries(le, s, t);
      SameKeys(members, b.members, s, t);
      forall m, n | m in members && n in b.members && m.key == n.key ensures Reordered(m.value, n.value) {
        var i :| 0 <= i < |members| && members[i] == m;
        var j :| 0 <= j < |b.members| && b.members[j] == n;
        assert s[i] in t;
        var k :| 0 <= k < |t| && t[k] == s[i];
        assert k == j;
        EqualSortedReordered(le, m.value, n.value);
      }
    case _ =>
  }

  lemma SameEntries(le: Order, s: seq<Entry<Js>>, t: seq<Entry<Js>>)
    requires Sort(le, s) == Sort(le, t)
    ensures forall e :: e in s <==> e in t
  {
    forall e ensures e in s <==> e in t {
      SortMembership(le, s, e);
      SortMembership(le, t, e);
    }
  }

  lemma SameKeys(a: seq<Entry<Js>>, b: seq<Entry<Js>>, s: seq<Entry<Js>>, t: seq<Entry<Js>>)
    requires |a| == |s| && |b| == |t| && forall e :: e in s <==> e in t
    requires forall i :: 0 <= i < |a| ==> a[i].key == s[i].key
    requires forall i :: 0 <= i < |b| ==> b[i].key == t[i].key
    ensures Keys(a) == Keys(b)
  {
    forall k | k in Keys(a) ensures k in Keys(b) {
      var i :| 0 <= i < |a| && a[i].key == k;
      assert s[i] in t;
      var j :| 0 <= j < |t| && t[j] == s[i];
      assert b[j] in b;
    }
    forall k | k in Keys(b) ensures k in Keys(a) {
      var j :| 0 <= j < |b| && b[j].key == k;
      assert t[j] in s;
      var i :| 0 <= i < |s| && s[i] == t[j];
      assert a[i] in a;
    }
  }

  // ---------------------------------------------------------------- the canonical text is in order

  /** The members of every object in the value are in key order. */
  ghost predicate InOrder(le: Order, v: Js)
    decreases v
  {
    match v
    case Arr(items) => forall x <- items :: InOrder(le, x)
    case Obj(members) => Ascending(le, members) && forall m <- members :: InOrder(le, m.value)
    case _ => true
  }

  lemma {:induction false} SortedInOrder(le: Order, v: Js)
    requires TotalPreorder(le)
    ensures InOrder(le, Sorted(le, v))
    decreases v
  {
    match v
    case Arr(items) =>
      forall x | x in SortedItems(le, items) ensures InOrder(le, x) {
        var i :| 0 <= i < |items| && x == Sorted(le, items[i]);
        SortedInOrder(le, items[i]);
      }
    case Obj(members) =>
      var s := SortedMembers(le, members);
      SortAscends(le, s);
      forall m | m in Sort(le, s) ensures InOrder(le, m.value) {
        SortMembership(le, s, m);
        var i :| 0 <= i < |members| && m == Entry(members[i].key, Sorted(le, members[i].value));
        assert members[i] in members;
        SortedInOrder(le, members[i].value);
      }
    case _ =>
  }

  lemma {:induction false} SortedIsReordered(le: Order, v: Js)
    requires WellFormed(v)
    ensures Reordered(v, Sorted(le, v))
    decreases v
  {
    match v
    case Arr(items) =>
      forall i | 0 <= i < |items| ensures Reordered(items[i],
                                                    SortedItems(le, items)[i]) { SortedIsReordered(le, items[i]); }
    case Obj(members) => SortedMembersReordered(le, members);
    case _ =>
  }

  lemma {:induction false} SortedMembersReordered(le: Order, members: seq<Entry<Js>>)
    requires WellFormed(Obj(members))
    ensures Reordered(Obj(members), Sorted(le, Obj(members)))
    decreases members
  {
    var s := SortedMembers(le, members);
    var t := Sort(le, s);
    forall e ensures e in s <==> e in t { SortMembership(le, s, e); }
    SameKeys(members, t, s, t);
    forall m, n | m in members && n in t && m.key == n.key ensures Reordered(m.value, n.value) {
      var i :| 0 <= i < |members| && members[i] == m;
      assert n in s;
      var j :| 0 <= j < |s| && s[j] == n;
      assert i == j;
      SortedIsReordered(le, m.value);
    }
  }

  /** The canonical text of a value is the text of that same value with the members of every object in
      key order. */
  lemma CanonicalInOrder(le: Order, v: Js) returns (w: Js)
    requires TotalPreorder(le) && Plain(v) && WellFormed(v)
    ensures Canonical(le, v) == Text(w) && Reordered(v, w) && InOrder(le, w)
  {
    w := Sorted(le, v);
    CanonicalIsTextOfSorted(le, v);
    SortedInOrder(le, v);
    SortedIsReordered(le, v);
  }

  // ---------------------------------------------------------------- key order does not matter, without ties

  ghost predicate Untied(le: Order, keys: set<string>) {
    forall a, b :: a in keys && b in keys && Tied(le, a, b) ==> a == b
  }

  ghost predicate DeepUntied(le: Order, v: Js)
    decreases v
  {
    match v
    case Arr(items) => forall x <- items :: DeepUntied(le, x)
    case Obj(members) => Untied(le, Keys(members)) && forall m <- members :: DeepUntied(le, m.value)
    case _ => true
  }

  /** A strictly ordered list is determined by its elements. */
  lemma {:induction false} StrictlyOrderedUnique(le: Order, s: seq<Entry<Js>>, t: seq<Entry<Js>>)
    requires Ascending(le, s) && Ascending(le, t) && DistinctKeys(s) && DistinctKeys(t)
    requires forall e :: e in s <==> e in t
    requires Untied(le, Keys(s))
    ensures s == t
  {
    assert t != [] ==> t[0] in s;
    if s != [] {
      SameFirst(le, s, t);
      forall e ensures e in s[1..] <==> e in t[1..] {
        if e in s[1..] { RestElement(s, t, e); }
        if e in t[1..] { RestElement(t, s, e); }
      }
      assert forall e <- s[1..] :: e in s;
      StrictlyOrderedUnique(le, s[1..], t[1..]);
    }
  }

  lemma SameFirst(le: Order, s: seq<Entry<Js>>, t: seq<Entry<Js>>)
    requires s != [] && Ascending(le, s) && Ascending(le, t) && DistinctKeys(s) && DistinctKeys(t)
    requires (forall e :: e in s <==> e in t) && Untied(le, Keys(s))
    ensures t != [] && s[0] == t[0]
  {
    assert s[0] in t;
    var i :| 0 <= i < |t| && t[i] == s[0];
    assert t[0] in s;
    var j :| 0 <= j < |s| && s[j] == t[0];
    assert s[0].key in Keys(s) && s[j].key in Keys(s);
    assert Tied(le, s[0].key, t[0].key) || i == 0 || j == 0;
  }

  lemma RestElement(s: seq<Entry<Js>>, t: seq<Entry<Js>>, e: Entry<Js>)
    requires s != [] && t != [] && s[0] == t[0] && DistinctKeys(s) && e in s[1..]
    requires forall x :: x in s <==> x in t
    ensures e in t[1..]
  {
    var i :| 0 <= i < |s[1..]| && s[1..][i] == e;
    assert s[i + 1] == e && e != s[0];
    assert e in s && e in t;
    var k :| 0 <= k < |t| && t[k] == e;
    assert t[1..][k - 1] == e;
  }

  lemma {:induction false} ReorderedSortedEqual(le: Order, a: Js, b: Js)
    requires TotalPreorder(le) && WellFormed(a) && WellFormed(b) && DeepUntied(le, a) && Reordered(a, b)
    ensures Sorted(le, a) == Sorted(le, b)
    decreases a
  {
    match a
    case Arr(items) =>
      forall i | 0 <= i < |items| ensures Sorted(le, items[i]) == Sorted(le, b.items[i]) {
        ReorderedSortedEqual(le, items[i], b.items[i]);
      }
      assert SortedItems(le, items) == SortedItems(le, b.items);
    case Obj(members) =>
      forall m, n | m in members && n in b.members && m.key == n.key
          ensures Sorted(le, m.value) == Sorted(le, n.value) {
        ReorderedSortedEqual(le, m.value, n.value);
      }
      SortedMembersAgree(le, members, b.members);
    case _ =>
  }

  lemma SortedMembersAgree(le: Order, a: seq<Entry<Js>>, b: seq<Entry<Js>>)
    requires TotalPreorder(le) && DistinctKeys(a) && DistinctKeys(b) && Untied(le, Keys(a)) && Keys(a) == Keys(b)
    requires forall m <- a, n <- b :: m.key == n.key ==> Sorted(le, m.value) == Sorted(le, n.value)
    ensures Sort(le, SortedMembers(le, a)) == Sort(le, SortedMembers(le, b))
  {
    var s, t := SortedMembers(le, a), SortedMembers(le, b);
    forall e ensures e in Sort(le, s) <==> e in Sort(le, t) {
      SortMembership(le, s, e);
      SortMembership(le, t, e);
      if e in s { MatchingEntry(le, a, b, e); }
      if e in t { MatchingEntry(le, b, a, e); }
    }
    SortAscends(le, s);
    SortAscends(le, t);
    SortDistinct(le, s);
    SortDistinct(le, t);
    assert Untied(le, Keys(Sort(le, s))) by {
      forall e | e in Sort(le, s) ensures e.key in Keys(a) {
        SortMembership(le, s, e);
        var i :| 0 <= i < |s| && s[i] == e;
        assert a[i] in a;
      }
    }
    StrictlyOrderedUnique(le, Sort(le, s), Sort(le, t));
  }

  lemma MatchingEntry(le: Order, a: seq<Entry<Js>>, b: seq<Entry<Js>>, e: Entry<Js>)
    requires Keys(a) == Keys(b) && e in SortedMembers(le, a)
    requires forall m <- a, n <- b :: m.key == n.key ==> Sorted(le, m.value) == Sorted(le, n.value)
    ensures e in SortedMembers(le, b)
  {
    var i :| 0 <= i < |a| && e == Entry(a[i].key, Sorted(le, a[i].value));
    assert a[i] in a && a[i].key in Keys(b);
    var j :| 0 <= j < |b| && b[j].key == a[i].key;
    assert b[j] in b && SortedMembers(le, b)[j] == e;
  }

  lemma DistinctCons(e: Entry<Js>, s: seq<Entry<Js>>)
    requires DistinctKeys(s) && forall m <- s :: m.key != e.key
    ensures DistinctKeys([e] + s)
  {
  }

  lemma InsertMember(le: Order, e: Entry<Js>, s: seq<Entry<Js>>, m: Entry<Js>)
    requires m in Insert(le, e, s)
    ensures m == e || m in s
  {
    hide Stable.Insert;
    Stable.InsertContents(ByKey(le), e, s);
    assert m in multiset(Insert(le, e, s));
  }

  lemma {:induction false} InsertDistinct(le: Order, e: Entry<Js>, s: seq<Entry<Js>>)
    requires DistinctKeys(s) && forall m <- s :: m.key != e.key
    ensures DistinctKeys(Insert(le, e, s))
  {
    if s == [] || le(e.key, s[0].key) {
      DistinctCons(e, s);
    } else {
      InsertDistinct(le, e, s[1..]);
      var t := Insert(le, e, s[1..]);
      forall m | m in t ensures m.key != s[0].key { InsertMember(le, e, s[1..], m); }
      DistinctCons(s[0], t);
    }
  }

  lemma {:induction false} SortDistinct(le: Order, s: seq<Entry<Js>>)
    requires DistinctKeys(s)
    ensures DistinctKeys(Sort(le, s))
  {
    if s != [] {
      SortDistinct(le, s[1..]);
      forall m | m in Sort(le, s[1..]) ensures m.key != s[0].key { SortMembership(le, s[1..], m); }
      InsertDistinct(le, s[0], Sort(le, s[1..]));
    }
  }

  /** Without tied keys, canonical text is equal exactly for values equal up to member order. */
  lemma CanonicalDecidesEquality(le: Order, a: Js, b: Js)
    requires TotalPreorder(le) && Plain(a) && Plain(b) && WellFormed(a) && WellFormed(b) && DeepUntied(le, a)
    ensures Canonical(le, a) == Canonical(le, b) <==> Reordered(a, b)
  {
    if Reordered(a, b) {
      ReorderedSortedEqual(le, a, b);
      CanonicalIsTextOfSorted(le, a);
      CanonicalIsTextOfSorted(le, b);
    }
    if Canonical(le, a) == Canonical(le, b) {
      SortedFormsEqual(le, a, b);
      EqualSortedReordered(le, a, b);
    }
  }

  // ---------------------------------------------------------------- with ties, member order shows

  /** The same object written in another order. */
  ghost predicate SameObject(a: seq<Entry<Js>>, b: seq<Entry<Js>>) {
    DistinctKeys(a) && DistinctKeys(b) && forall m :: m in a <==> m in b
  }

  lemma UntiedOrderIrrelevant(le: Order, a: seq<Entry<Js>>, b: seq<Entry<Js>>)
    requires TotalPreorder(le) && SameObject(a, b) && Untied(le, Keys(a))
    ensures Canonical(le, Obj(a)) == Canonical(le, Obj(b))
  {
    forall k ensures k in Keys(a) <==> k in Keys(b) {
      if k in Keys(a) { var m :| m in a && m.key == k; assert m in b; }
      if k in Keys(b) { var m :| m in b && m.key == k; assert m in a; }
    }
    forall m, n | m in a && n in b && m.key == n.key ensures m == n {
      assert n in a;
      var i :| 0 <= i < |a| && a[i] == m;
      var j :| 0 <= j < |a| && a[j] == n;
    }
    SortedMembersAgree(le, a, b);
    CanonicalIsTextOfSorted(le, Obj(a));
    CanonicalIsTextOfSorted(le, Obj(b));
  }

  lemma NulledPair(m: Entry<Js>, n: Entry<Js>, rest: seq<Entry<Js>>)
    ensures NulledMembers([m, n] + rest)
         == [Entry(m.key, Nulled(m.value)), Entry(n.key, Nulled(n.value))] + NulledMembers(rest)
  {
    var a := [m, n] + rest;
    assert a[1..] == [n] + rest && ([n] + rest)[1..] == rest;
  }

  /** Two tied keys in front, in either order: the texts differ. */
  lemma TiedOrderShows(le: Order, m: Entry<Js>, n: Entry<Js>, rest: seq<Entry<Js>>)
    requires TotalPreorder(le) && Tied(le, m.key, n.key) && m.key != n.key
    ensures Canonical(le, Obj([m, n] + rest)) != Canonical(le, Obj([n, m] + rest))
  {
    hide Canonical;
    NulledPair(m, n, rest);
    NulledPair(n, m, rest);
    CanonicalOfNulled(le, Obj([m, n] + rest));
    CanonicalOfNulled(le, Obj([n, m] + rest));
    TiedOrderShowsPlain(le, Entry(m.key, Nulled(m.value)), Entry(n.key, Nulled(n.value)), NulledMembers(rest));
  }

  lemma TiedOrderShowsPlain(le: Order, m: Entry<Js>, n: Entry<Js>, rest: seq<Entry<Js>>)
    requires TotalPreorder(le) && Tied(le, m.key, n.key) && m.key != n.key
    requires Plain(Obj([m, n] + rest)) && Plain(Obj([n, m] + rest))
    ensures Canonical(le, Obj([m, n] + rest)) != Canonical(le, Obj([n, m] + rest))
  {
    var a, b := [m, n] + rest, [n, m] + rest;
    var s, t := SortedMembers(le, a), SortedMembers(le, b);
    SortKeepsTies(le, m.key, s);
    SortKeepsTies(le, m.key, t);
    assert s[0].key == m.key && t[0].key == n.key;
    assert TiedWith(le, m.key, s)[0] == s[0] && TiedWith(le, m.key, t)[0] == t[0];
    assert Sorted(le, Obj(a)) != Sorted(le, Obj(b));
    if Canonical(le, Obj(a)) == Canonical(le, Obj(b)) {
      SortedFormsEqual(le, Obj(a), Obj(b));
      assert false;
    }
  }

  /** Where position `k` of the list with entry `i` moved to the front comes from. */
  function FrontSource(i: nat, k: nat): nat { if k == 0 then i else if k <= i then k - 1 else k }

  lemma FrontEntry(a: seq<Entry<Js>>, i: nat, k: nat)
    requires i < |a| && k < |a|
    ensures ([a[i]] + a[..i] + a[i + 1..])[k] == a[FrontSource(i, k)]
  {
  }

  lemma MoveToFront(a: seq<Entry<Js>>, i: nat)
    requires i < |a| && DistinctKeys(a)
    ensures SameObject(a, [a[i]] + a[..i] + a[i + 1..])
  {
    var b := [a[i]] + a[..i] + a[i + 1..];
    forall k | 0 <= k < |a| ensures a[k] in b {
      var j := if k < i then k + 1 else if k == i then 0 else k;
      FrontEntry(a, i, j);
      assert b[j] == a[k];
    }
    forall k | 0 <= k < |b| ensures b[k] in a { FrontEntry(a, i, k); }
    forall j, k | 0 <= j < k < |b| ensures b[j].key != b[k].key {
      FrontEntry(a, i, j);
      FrontEntry(a, i, k);
    }
  }

  lemma BringToFront(a: seq<Entry<Js>>, i: nat, j: nat) returns (rest: seq<Entry<Js>>)
    requires i < |a| && j < |a| && i != j && DistinctKeys(a)
    ensures SameObject(a, [a[i], a[j]] + rest)
  {
    MoveToFront(a, j);
    var b := [a[j]] + a[..j] + a[j + 1..];
    assert a[i] in b;
    var k :| 0 <= k < |b| && b[k] == a[i];
    MoveToFront(b, k);
    rest := b[1..k] + b[k + 1..];
    assert [b[k]] + b[..k] + b[k + 1..] == [a[i], a[j]] + rest;
  }

  /** An object with two tied keys can be written in two orders whose texts differ. */
  lemma TieHasTwoTexts(le: Order, a: seq<Entry<Js>>) returns (p: seq<Entry<Js>>, q: seq<Entry<Js>>)
    requires TotalPreorder(le) && DistinctKeys(a) && !Untied(le, Keys(a))
    ensures SameObject(a, p) && SameObject(a, q) && Canonical(le, Obj(p)) != Canonical(le, Obj(q))
  {
    var x, y :| x in Keys(a) && y in Keys(a) && Tied(le, x, y) && x != y;
    var i :| 0 <= i < |a| && a[i].key == x;
    var j :| 0 <= j < |a| && a[j].key == y;
    var rest := BringToFront(a, i, j);
    SwapFront(a[i], a[j], rest);
    p, q := [a[i], a[j]] + rest, [a[j], a[i]] + rest;
    TiedOrderShows(le, a[i], a[j], rest);
  }

  /** Canonical text ignores the order in which an object's members were written exactly when no two
      of its keys compare equal. */
  lemma OrderIgnoredIffUntied(le: Order, a: seq<Entry<Js>>)
    requires TotalPreorder(le) && DistinctKeys(a)
    ensures (forall b :: SameObject(a, b) ==> Canonical(le, Obj(b)) == Canonical(le, Obj(a))) <==> Untied(le, Keys(a))
  {
    hide Canonical;
    if Untied(le, Keys(a)) {
      forall b | SameObject(a, b) ensures Canonical(le, Obj(b)) == Canonical(le, Obj(a)) {
        UntiedOrderIrrelevant(le, a, b);
      }
    } else {
      var p, q := TieHasTwoTexts(le, a);
    }
  }

  lemma SwapFront(m: Entry<Js>, n: Entry<Js>, rest: seq<Entry<Js>>)
    requires DistinctKeys([m, n] + rest)
    ensures SameObject([m, n] + rest, [n, m] + rest)
  {
    var a, b := [m, n] + rest, [n, m] + rest;
    forall i, j | 0 <= i < j < |b| ensures b[i].key != b[j].key {
      var i', j' := if i < 2 then 1 - i else i, if j < 2 then 1 - j else j;
      assert b[i] == a[i'] && b[j] == a[j'];
    }
    forall e ensures e in a <==> e in b {
      assert a[0] == b[1] && a[1] == b[0] && a[2..] == rest == b[2..];
      if e in a { var k :| 0 <= k < |a| && a[k] == e; assert b[if k < 2 then 1 - k else k] == e; }
      if e in b { var k :| 0 <= k < |b| && b[k] == e; assert a[if k < 2 then 1 - k else k] == e; }
    }
  }

  // ---------------------------------------------------------------- stability under stringify-then-parse

  lemma {:induction false} DroppingIsCanonicalOfClean(le: Order, v: Js)
    ensures Dropping(le, v) == Canonical(le, Clean(v))
    decreases v, 1
  {
    match v
    case Arr(items) =>
      if items != [] {
        DroppingItem(le, items[0]);
        DroppingTailIsCanonical(le, items[1..]);
        assert CleanItems(items)[1..] == CleanItems(items[1..]);
      }
    case Obj(members) => RenderedDefinedIsRendered(le, members);
    case _ =>
  }

  lemma {:induction false} DroppingItem(le: Order, v: Js)
    ensures Dropping(le, v) == Canonical(le, CleanItem(v))
    decreases v, 2
  {
    if v != Undefined { DroppingIsCanonicalOfClean(le, v); }
  }

  lemma {:induction false} DroppingTailIsCanonical(le: Order, items: seq<Js>)
    ensures DroppingTail(le, items) == CanonicalTail(le, CleanItems(items))
    decreases items, 0
  {
    if items != [] {
      DroppingItem(le, items[0]);
      DroppingTailIsCanonical(le, items[1..]);
      assert CleanItems(items)[1..] == CleanItems(items[1..]);
    }
  }

  lemma {:induction false} RenderedDefinedIsRendered(le: Order, members: seq<Entry<Js>>)
    ensures RenderedDefined(le, members) == Rendered(le, CleanMembers(members))
    decreases members, 0
  {
    if members != [] {
      DroppingIsCanonicalOfClean(le, members[0].value);
      RenderedDefinedIsRendered(le, members[1..]);
      if members[0].value != Undefined { assert CleanMembers(members)[1..] == CleanMembers(members[1..]); }
    }
  }

  lemma {:induction false} CleanIdempotent(v: Js)
    ensures Clean(Clean(v)) == Clean(v)
    ensures v != Undefined ==> Plain(Clean(v))
    decreases v, 1
  {
    match v
    case Arr(items) => CleanItemsIdempotent(items);
    case Obj(members) => CleanMembersIdempotent(members);
    case _ =>
  }

  lemma {:induction false} CleanItemsIdempotent(items: seq<Js>)
    ensures CleanItems(CleanItems(items)) == CleanItems(items)
    ensures forall x <- CleanItems(items) :: Plain(x)
    decreases items, 0
  {
    if items != [] {
      CleanIdempotent(items[0]);
      CleanItemsIdempotent(items[1..]);
      assert CleanItems(items)[1..] == CleanItems(items[1..]);
    }
  }

  lemma {:induction false} CleanMembersIdempotent(members: seq<Entry<Js>>)
    ensures CleanMembers(CleanMembers(members)) == CleanMembers(members)
    ensures forall m <- CleanMembers(members) :: Plain(m.value)
    decreases members, 0
  {
    if members != [] {
      CleanIdempotent(members[0].value);
      CleanMembersIdempotent(members[1..]);
      if members[0].value != Undefined { assert CleanMembers(members)[1..] == CleanMembers(members[1..]); }
    }
  }

  /** The coordinator's digest text is the same before and after a value goes through JSON. */
  lemma DroppingSurvivesRoundTrip(le: Order, v: Js)
    ensures Dropping(le, Clean(v)) == Dropping(le, v)
  {
    DroppingIsCanonicalOfClean(le, v);
    DroppingIsCanonicalOfClean(le, Clean(v));
    CleanIdempotent(v);
  }

  ghost predicate NoUndefinedMember(v: Js)
    decreases v
  {
    match v
    case Arr(items) => forall x <- items :: NoUndefinedMember(x)
    case Obj(members) => forall m <- members :: m.value != Undefined && NoUndefinedMember(m.value)
    case _ => true
  }

  /** Every `Undefined` below the top read as null: what the audit printer shows. */
  function Nulled(v: Js): Js
    decreases v, 1
  {
    match v
    case Undefined => Null
    case Arr(items) => Arr(NulledItems(items))
    case Obj(members) => Obj(NulledMembers(members))
    case _ => v
  }

  function NulledItems(items: seq<Js>): seq<Js>
    decreases items, 0
  {
    if items == [] then [] else [Nulled(items[0])] + NulledItems(items[1..])
  }

  function NulledMembers(members: seq<Entry<Js>>): seq<Entry<Js>>
    decreases members, 0
  {
    if members == [] then [] else [Entry(members[0].key, Nulled(members[0].value))] + NulledMembers(members[1..])
  }

  lemma {:induction false} CanonicalOfNulled(le: Order, v: Js)
    ensures Canonical(le, Nulled(v)) == Canonical(le, v) && Plain(Nulled(v))
    decreases v, 1
  {
    match v
    case Arr(items) =>
      CanonicalTailOfNulled(le, items);
      if items != [] {
        CanonicalOfNulled(le, items[0]);
        CanonicalTailOfNulled(le, items[1..]);
        assert NulledItems(items)[1..] == NulledItems(items[1..]);
      }
    case Obj(members) => RenderedOfNulled(le, members);
    case _ =>
  }

  lemma {:induction false} CanonicalTailOfNulled(le: Order, items: seq<Js>)
    ensures CanonicalTail(le, NulledItems(items)) == CanonicalTail(le, items)
    ensures forall x <- NulledItems(items) :: Plain(x)
    decreases items, 0
  {
    if items != [] {
      CanonicalOfNulled(le, items[0]);
      CanonicalTailOfNulled(le, items[1..]);
      assert NulledItems(items)[1..] == NulledItems(items[1..]);
    }
  }

  lemma {:induction false} RenderedOfNulled(le: Order, members: seq<Entry<Js>>)
    ensures Rendered(le, NulledMembers(members)) == Rendered(le, members)
    ensures forall m <- NulledMembers(members) :: Plain(m.value)
    decreases members, 0
  {
    if members != [] {
      CanonicalOfNulled(le, members[0].value);
      RenderedOfNulled(le, members[1..]);
      assert NulledMembers(members)[1..] == NulledMembers(members[1..]);
    }
  }

  function Size(v: Js): nat
    decreases v, 1
  {
    match v
    case Arr(items) => 1 + ItemsSize(items)
    case Obj(members) => 1 + MembersSize(members)
    case _ => 1
  }

  function ItemsSize(items: seq<Js>): nat
    decreases items, 0
  {
    if items == [] then 0 else Size(items[0]) + ItemsSize(items[1..])
  }

  function MembersSize(members: seq<Entry<Js>>): nat
    decreases members, 0
  {
    if members == [] then 0 else Size(members[0].value) + MembersSize(members[1..])
  }

  lemma {:induction false} InsertSize(le: Order, e: Entry<Js>, s: seq<Entry<Js>>)
    ensures MembersSize(Insert(le, e, s)) == Size(e.value) + MembersSize(s)
  {
    if s == [] || le(e.key, s[0].key) {
      assert ([e] + s)[1..] == s;
    } else {
      InsertSize(le, e, s[1..]);
      assert ([s[0]] + Insert(le, e, s[1..]))[1..] == Insert(le, e, s[1..]);
    }
  }

  lemma {:induction false} SortSize(le: Order, s: seq<Entry<Js>>)
    ensures MembersSize(Sort(le, s)) == MembersSize(s)
  {
    if s != [] {
      SortSize(le, s[1..]);
      InsertSize(le, s[0], Sort(le, s[1..]));
    }
  }

  lemma {:induction false} SortedSize(le: Order, v: Js)
    ensures Size(Sorted(le, v)) == Size(v)
    decreases v, 1
  {
    match v
    case Arr(items) => SortedItemsSize(le, items);
    case Obj(members) =>
      SortedMembersSize(le, members);
      SortSize(le, SortedMembers(le, members));
    case _ =>
  }

  lemma {:induction false} SortedItemsSize(le: Order, items: seq<Js>)
    ensures ItemsSize(SortedItems(le, items)) == ItemsSize(items)
    decreases items, 0
  {
    if items != [] {
      SortedSize(le, items[0]);
      SortedItemsSize(le, items[1..]);
      assert SortedItems(le, items)[1..] == SortedItems(le, items[1..]);
    }
  }

  lemma {:induction false} SortedMembersSize(le: Order, members: seq<Entry<Js>>)
    ensures MembersSize(SortedMembers(le, members)) == MembersSize(members)
    decreases members, 0
  {
    if members != [] {
      SortedSize(le, members[0].value);
      SortedMembersSize(le, members[1..]);
      assert SortedMembers(le, members)[1..] == SortedMembers(le, members[1..]);
    }
  }

  /** Cleaning removes something exactly when a member is undefined. */
  lemma {:induction false} CleanShrinks(v: Js)
    ensures Size(Clean(v)) <= Size(Nulled(v))
    ensures v != Undefined ==> (Clean(v) == Nulled(v) <==> NoUndefinedMember(v))
    ensures !NoUndefinedMember(v) ==> Size(Clean(v)) < Size(Nulled(v))
    decreases v, 1
  {
    match v
    case Arr(items) => CleanItemsShrink(items);
    case Obj(members) => CleanMembersShrink(members);
    case _ =>
  }

  lemma ItemsDefined(items: seq<Js>)
    requires items != []
    ensures NoUndefinedMember(Arr(items)) <==> NoUndefinedMember(items[0]) && NoUndefinedMember(Arr(items[1..]))
  {
    assert items == [items[0]] + items[1..];
  }

  lemma ItemsSizeCons(x: Js, items: seq<Js>)
    ensures ItemsSize([x] + items) == Size(x) + ItemsSize(items)
  {
    assert ([x] + items)[1..] == items;
  }

  lemma {:induction false} CleanItemsShrink(items: seq<Js>)
    ensures ItemsSize(CleanItems(items)) <= ItemsSize(NulledItems(items))
    ensures NoUndefinedMember(Arr(items)) ==> CleanItems(items) == NulledItems(items)
    ensures !NoUndefinedMember(Arr(items)) ==> ItemsSize(CleanItems(items)) < ItemsSize(NulledItems(items))
    decreases items, 0
  {
    hide NoUndefinedMember;
    hide Clean;
    hide Nulled;
    hide Size;
    hide ItemsSize;
    if items == [] {
      NothingDefined();
    } else {
      CleanShrinks(items[0]);
      NulledItem(items[0]);
      CleanItemsShrink(items[1..]);
      ItemsDefined(items);
      ItemsSizeCons(CleanItem(items[0]), CleanItems(items[1..]));
      ItemsSizeCons(Nulled(items[0]), NulledItems(items[1..]));
    }
  }

  lemma NothingDefined()
    ensures NoUndefinedMember(Arr([])) && NoUndefinedMember(Obj([]))
  {
  }

  lemma NulledItem(v: Js)
    ensures v == Undefined ==> Nulled(v) == Null && NoUndefinedMember(v)
  {
  }

  lemma MembersDefined(members: seq<Entry<Js>>)
    requires members != []
    ensures NoUndefinedMember(Obj(members)) <==>
            && members[0].value != Undefined && NoUndefinedMember(members[0].value)
            && NoUndefinedMember(Obj(members[1..]))
  {
    assert members == [members[0]] + members[1..];
  }

  lemma MembersSizeCons(m: Entry<Js>, members: seq<Entry<Js>>)
    ensures MembersSize([m] + members) == Size(m.value) + MembersSize(members)
  {
    assert ([m] + members)[1..] == members;
  }

  lemma SizePositive(v: Js)
    ensures Size(v) >= 1
  {
  }

  lemma {:induction false} CleanMembersShrink(members: seq<Entry<Js>>)
    ensures MembersSize(CleanMembers(members)) <= MembersSize(NulledMembers(members))
    ensures NoUndefinedMember(Obj(members)) ==> CleanMembers(members) == NulledMembers(members)
    ensures !NoUndefinedMember(Obj(members)) ==>
            MembersSize(CleanMembers(members)) < MembersSize(NulledMembers(members))
    decreases members, 0
  {
    hide NoUndefinedMember;
    hide Clean;
    hide Nulled;
    hide Size;
    hide MembersSize;
    if members == [] {
      NothingDefined();
    } else {
      var m, rest := members[0], members[1..];
      CleanShrinks(m.value);
      CleanMembersShrink(rest);
      MembersDefined(members);
      SizePositive(Nulled(m.value));
      MembersSizeCons(Entry(m.key, Nulled(m.value)), NulledMembers(rest));
      MembersSizeCons(Entry(m.key, Clean(m.value)), CleanMembers(rest));
    }
  }

  /** The audit digest text is the same before and after a value goes through JSON exactly when no
      object in it has an undefined member. */
  lemma CanonicalSurvivesRoundTripIff(le: Order, v: Js)
    ensures Canonical(le, Clean(v)) == Canonical(le, v) <==> NoUndefinedMember(v)
  {
    CanonicalOfNulled(le, v);
    CleanShrinks(v);
    CleanIdempotent(v);
    if Canonical(le, Clean(v)) == Canonical(le, v) && v != Undefined {
      SortedFormsEqual(le, Clean(v), Nulled(v));
      SortedSize(le, Clean(v));
      SortedSize(le, Nulled(v));
    }
  }
}
