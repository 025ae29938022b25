/** Python's `sorted(xs, key=k)` over account names that are already in
    ascending order: the sort is stable, so the result is ordered by the key
    tuple and, among equal keys, by name. Key tuples are compared
    lexicographically. */
module Ranking {
  import opened Text
  import opened Options

  /** A sort key: a tuple of numbers. */
  type Key = seq<real>

  /** Python's `<` on tuples of the same length. */
  predicate KeyLt(x: Key, y: Key)
    decreases |x|
  {
    x != [] && y != [] && (x[0] < y[0] || (x[0] == y[0] && KeyLt(x[1..], y[1..])))
  }

  lemma {:induction false} KeyLtIrreflexive(x: Key)
    ensures !KeyLt(x, x)
    decreases |x|
  {
    if x != [] { KeyLtIrreflexive(x[1..]); }
  }

  lemma {:induction false} KeyLtTransitive(x: Key, y: Key, z: Key)
    requires KeyLt(x, y) && KeyLt(y, z)
    ensures KeyLt(x, z)
    decreases |x|
  {
    if x[0] == y[0] && y[0] == z[0] {
      KeyLtTransitive(x[1..], y[1..], z[1..]);
    }
  }

  lemma {:induction false} KeyLtTotal(x: Key, y: Key)
    requires |x| == |y|
    ensures x == y || KeyLt(x, y) || KeyLt(y, x)
    decreases |x|
  {
    if x != [] && x[0] == y[0] {
      KeyLtTotal(x[1..], y[1..]);
      if x[1..] == y[1..] {
        assert x == [x[0]] + x[1..] && y == [y[0]] + y[1..];
      }
    }
  }

  /** Python's `<` on pairs. */
  lemma KeyLtPair(x: Key, y: Key)
    requires |x| == 2 && |y| == 2
    ensures KeyLt(x, y) <==> x[0] < y[0] || (x[0] == y[0] && x[1] < y[1])
  {
    var xt, yt := x[1..], y[1..];
    assert xt[1..] == [] && !KeyLt(xt[1..], yt[1..]);
    assert KeyLt(xt, yt) <==> xt[0] < yt[0];
    assert xt[0] == x[1] && yt[0] == y[1];
  }

  /** An account with its sort key and what the caller keeps with it. */
  datatype Ranked<T> = Ranked(key: Key, name: string, item: T)

  /** `p` comes before `q` in the stable sort of name-ordered input. */
  predicate Before<T>(p: Ranked<T>, q: Ranked<T>) {
    KeyLt(p.key, q.key) || (p.key == q.key && StrLt(p.name, q.name))
  }

  lemma BeforeIrreflexive<T>(p: Ranked<T>)
    ensures !Before(p, p)
  {
    KeyLtIrreflexive(p.key);
    StrLtIrreflexive(p.name);
  }

  lemma BeforeTransitive<T>(p: Ranked<T>, q: Ranked<T>, r: Ranked<T>)
    requires Before(p, q) && Before(q, r)
    ensures Before(p, r)
  {
    if KeyLt(p.key, q.key) && KeyLt(q.key, r.key) {
      KeyLtTransitive(p.key, q.key, r.key);
    } else if p.key == q.key && q.key == r.key {
      StrLtTransitive(p.name, q.name, r.name);
    }
  }

  lemma BeforeTotal<T>(p: Ranked<T>, q: Ranked<T>)
    requires |p.key| == |q.key|
    ensures (p.key == q.key && p.name == q.name) || Before(p, q) || Before(q, p)
  {
    KeyLtTotal(p.key, q.key);
    StrLtTotal(p.name, q.name);
  }

  /** No later element comes before an earlier one. */
  predicate Ordered<T>(r: seq<Ranked<T>>) {
    forall i, j :: 0 <= i < j < |r| ==> !Before(r[j], r[i])
  }

  /** All keys have `n` components. */
  predicate KeysOfLength<T>(xs: seq<Ranked<T>>, n: nat) {
    forall i :: 0 <= i < |xs| ==> |xs[i].key| == n
  }

  function Insert<T(==)>(s: seq<Ranked<T>>, x: Ranked<T>, ghost n: nat): (r: seq<Ranked<T>>)
    requires Ordered(s) && KeysOfLength(s, n) && |x.key| == n
    ensures Ordered(r) && KeysOfLength(r, n)
    ensures multiset(r) == multiset(s) + multiset{x}
  {
    if s == [] then [x]
    else if Before(s[0], x) then
      var rest := Insert(s[1..], x, n);
      assert s == [s[0]] + s[1..];
      RestAfterHead(s, x, rest);
      OrderedCons(s[0], rest);
      [s[0]] + rest
    else
      HeadBeforeAll(s, x);
      OrderedCons(x, s);
      [x] + s
  }

  /** A head that no element of an ordered tail comes before keeps it ordered. */
  lemma OrderedCons<T>(h: Ranked<T>, t: seq<Ranked<T>>)
    requires Ordered(t) && forall k :: 0 <= k < |t| ==> !Before(t[k], h)
    ensures Ordered([h] + t)
  {
    var r := [h] + t;
    forall i, j | 0 <= i < j < |r| ensures !Before(r[j], r[i]) {
      assert r[j] == t[j - 1];
      if i > 0 { assert r[i] == t[i - 1]; }
    }
  }

  /** Inserting after the head: nothing of the new tail comes before the head. */
  lemma RestAfterHead<T>(s: seq<Ranked<T>>, x: Ranked<T>, rest: seq<Ranked<T>>)
    requires s != [] && Ordered(s) && Before(s[0], x)
    requires multiset(rest) == multiset(s[1..]) + multiset{x}
    ensures forall k :: 0 <= k < |rest| ==> !Before(rest[k], s[0])
  {
    forall k | 0 <= k < |rest| ensures !Before(rest[k], s[0]) {
      assert rest[k] in multiset(rest);
      if rest[k] == x {
        if Before(x, s[0]) { BeforeTransitive(x, s[0], x); BeforeIrreflexive(x); }
      } else {
        assert rest[k] in multiset(s[1..]);
        var m :| 0 <= m < |s[1..]| && s[1..][m] == rest[k];
        assert s[m + 1] == rest[k];
      }
    }
  }

  /** An element that the head does not precede goes in front of all. */
  lemma HeadBeforeAll<T>(s: seq<Ranked<T>>, x: Ranked<T>)
    requires s != [] && Ordered(s) && !Before(s[0], x) && |s[0].key| == |x.key|
    ensures forall j :: 0 <= j < |s| ==> !Before(s[j], x)
  {
    BeforeTotal(s[0], x);
    forall j | 0 <= j < |s| ensures !Before(s[j], x) {
      if j > 0 && (s[0].key != x.key || s[0].name != x.name) && Before(s[j], x) {
        BeforeTransitive(s[j], x, s[0]);
      }
    }
  }

  /** In an ordered list no later entry comes before an earlier one, nor before itself. */
  lemma EarlierNotAfter<T>(r: seq<Ranked<T>>, j: int, m: int)
    requires Ordered(r) && 0 <= j <= m < |r|
    ensures !Before(r[m], r[j])
  {
    if j == m { BeforeIrreflexive(r[m]); }
  }

  /** The stable sort by key of name-ordered input. */
  function Sort<T(==)>(xs: seq<Ranked<T>>, ghost n: nat): (r: seq<Ranked<T>>)
    requires KeysOfLength(xs, n)
    ensures Ordered(r) && KeysOfLength(r, n)
    ensures multiset(r) == multiset(xs)
  {
    if xs == [] then []
    else
      assert xs == xs[..|xs| - 1] + [xs[|xs| - 1]];
      Insert(Sort(xs[..|xs| - 1], n), xs[|xs| - 1], n)
  }

  /** The names in sorted order. */
  function Names<T>(r: seq<Ranked<T>>): (ns: seq<string>)
    ensures |ns| == |r| && forall i :: 0 <= i < |r| ==> ns[i] == r[i].name
  {
    seq(|r|, i requires 0 <= i < |r| => r[i].name)
  }

  /** The kept items in sorted order. */
  function Items<T>(r: seq<Ranked<T>>): (xs: seq<T>)
    ensures |xs| == |r| && forall i :: 0 <= i < |r| ==> xs[i] == r[i].item
  {
    seq(|r|, i requires 0 <= i < |r| => r[i].item)
  }

  /** Every entry of the sorted list is one of the input's. */
  lemma SortedFrom<T>(xs: seq<Ranked<T>>, n: nat, m: int)
    requires KeysOfLength(xs, n) && 0 <= m < |Sort(xs, n)|
    ensures Sort(xs, n)[m] in xs
  {
    assert Sort(xs, n)[m] in multiset(Sort(xs, n));
  }

  /** Every input entry has a place in the sorted list. */
  lemma SortedHas<T>(xs: seq<Ranked<T>>, n: nat, i: int) returns (m: int)
    requires KeysOfLength(xs, n) && 0 <= i < |xs|
    ensures 0 <= m < |Sort(xs, n)| && Sort(xs, n)[m] == xs[i]
  {
    assert xs[i] in multiset(Sort(xs, n));
    m :| 0 <= m < |Sort(xs, n)| && Sort(xs, n)[m] == xs[i];
  }

  /** The head of the sorted list is an input entry that no input entry
      comes before. */
  lemma SortedHead<T>(xs: seq<Ranked<T>>, n: nat, i: int)
    requires KeysOfLength(xs, n) && 0 <= i < |xs|
    ensures Sort(xs, n) != [] && Sort(xs, n)[0] in xs && !Before(xs[i], Sort(xs, n)[0])
  {
    var m := SortedHas(xs, n, i);
    EarlierNotAfter(Sort(xs, n), 0, m);
    SortedFrom(xs, n, 0);
  }

  /** SortedHead, with the input position of the head. */
  lemma SortedHeadAt<T>(xs: seq<Ranked<T>>, n: nat, i: int) returns (k: int)
    requires KeysOfLength(xs, n) && 0 <= i < |xs|
    ensures Sort(xs, n) != [] && 0 <= k < |xs| && Sort(xs, n)[0] == xs[k] && !Before(xs[i], Sort(xs, n)[0])
  {
    SortedHead(xs, n, i);
    k :| 0 <= k < |xs| && xs[k] == Sort(xs, n)[0];
  }

  /** Every input item is among the sorted items. */
  lemma SortedItemHas<T>(xs: seq<Ranked<T>>, n: nat, i: int)
    requires KeysOfLength(xs, n) && 0 <= i < |xs|
    ensures xs[i].item in Items(Sort(xs, n))
  {
    var m := SortedHas(xs, n, i);
    assert Items(Sort(xs, n))[m] == xs[i].item;
  }

  /** An item whose name has an entry is among the sorted items. */
  lemma NamedItemIn<T>(xs: seq<Ranked<T>>, n: nat, a: string, x: T)
    requires KeysOfLength(xs, n)
    requires exists i :: 0 <= i < |xs| && xs[i].name == a
    requires forall i :: 0 <= i < |xs| && xs[i].name == a ==> xs[i].item == x
    ensures x in Items(Sort(xs, n))
  {
    var i :| 0 <= i < |xs| && xs[i].name == a;
    SortedItemHas(xs, n, i);
  }

  /** The entries that `f` yields for the listed names, in the names' order,
      each with its key. */
  function Collect<T>(names: seq<string>, f: string -> Option<T>, key: T -> Key): (r: seq<Ranked<T>>)
    ensures forall i :: 0 <= i < |r| ==>
      r[i].name in names && f(r[i].name) == Some(r[i].item) && r[i].key == key(r[i].item)
    ensures forall a :: a in names && f(a).Some? ==> exists i :: 0 <= i < |r| && r[i].name == a
  {
    if names == [] then []
    else
      var pre := Collect(names[..|names| - 1], f, key);
      var a := names[|names| - 1];
      assert forall b :: b in names <==> b in names[..|names| - 1] || b == a by {
        assert names == names[..|names| - 1] + [a];
      }
      var c := f(a);
      if c.Some? then
        var r := pre + [Ranked(key(c.value), a, c.value)];
        assert r[|pre|].name == a;
        assert forall i :: 0 <= i < |pre| ==> r[i] == pre[i];
        r
      else pre
  }

  /** Collecting one more name appends its entry, if `f` yields one. */
  lemma CollectSnoc<T>(names: seq<string>, a: string, f: string -> Option<T>, key: T -> Key)
    ensures Collect(names + [a], f, key) ==
      Collect(names, f, key) + (if f(a).Some? then [Ranked(key(f(a).value), a, f(a).value)] else [])
  {
    assert (names + [a])[..|names|] == names;
  }
}
