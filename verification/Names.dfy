/** Logical ids, their alphabetical order, and the small collection vocabulary
    shared by the other modules. */
module Names {

  type Name = string

  datatype Option<+T> = None | Some(value: T)

  function Elems<T>(s: seq<T>): set<T> {
    set x | x in s
  }

  ghost predicate NoDup<T>(s: seq<T>) {
    forall i, j :: 0 <= i < j < |s| ==> s[i] != s[j]
  }

  lemma NoDupSnoc<T>(s: seq<T>, x: T)
    requires NoDup(s) && x !in Elems(s)
    ensures NoDup(s + [x])
  {
  }

  lemma {:induction false} NoDupCardinality<T>(s: seq<T>)
    requires NoDup(s)
    ensures |Elems(s)| == |s|
  {
    if s != [] {
      var front, last := s[..|s| - 1], s[|s| - 1];
      NoDupCardinality(front);
      assert Elems(s) == Elems(front) + {last};
    }
  }

  /** A sequence longer than the set it draws from repeats an element. */
  lemma Pigeonhole<T>(s: seq<T>, pool: set<T>)
    requires Elems(s) <= pool
    requires |s| > |pool|
    ensures exists i, j :: 0 <= i < j < |s| && s[i] == s[j]
  {
    if NoDup(s) {
      NoDupCardinality(s);
      SubsetCardinality(Elems(s), pool);
    }
  }

  lemma {:induction false} SubsetCardinality<T>(a: set<T>, b: set<T>)
    requires a <= b
    ensures |a| <= |b|
    ensures |a| == |b| ==> a == b
  {
    if a == {} {
    } else {
      var x :| x in a;
      SubsetCardinality(a - {x}, b - {x});
      assert a == (a - {x}) + {x} && b == (b - {x}) + {x};
    }
  }

  /** Byte order of UTF-8 strings, which is code-point order. */
  predicate Leq(a: Name, b: Name) {
    |a| == 0 || (|b| != 0 && (a[0] < b[0] || (a[0] == b[0] && Leq(a[1..], b[1..]))))
  }

  lemma {:induction a, b} LeqTotal(a: Name, b: Name)
    ensures Leq(a, b) || Leq(b, a)
  {
  }

  lemma {:induction false} LeqAntisymmetric(a: Name, b: Name)
    requires Leq(a, b) && Leq(b, a)
    ensures a == b
  {
    if |a| != 0 {
      LeqAntisymmetric(a[1..], b[1..]);
      assert a == [a[0]] + a[1..] && b == [b[0]] + b[1..];
    }
  }

  lemma {:induction false} LeqTransitive(a: Name, b: Name, c: Name)
    requires Leq(a, b) && Leq(b, c)
    ensures Leq(a, c)
  {
    if |a| != 0 && a[0] == b[0] == c[0] {
      LeqTransitive(a[1..], b[1..], c[1..]);
    }
  }

  ghost predicate Sorted(s: seq<Name>) {
    forall i, j :: 0 <= i < j < |s| ==> Leq(s[i], s[j])
  }

  function Insert(x: Name, s: seq<Name>): (r: seq<Name>)
    ensures multiset(r) == multiset(s) + multiset{x}
  {
    if s == [] then [x]
    else if Leq(x, s[0]) then [x] + s
    else
      assert s == [s[0]] + s[1..];
      [s[0]] + Insert(x, s[1..])
  }

  /** `x` is at most everything in `s`. */
  ghost predicate Below(x: Name, s: seq<Name>) {
    forall y :: y in s ==> Leq(x, y)
  }

  lemma SortedCons(x: Name, s: seq<Name>)
    requires Sorted(s) && Below(x, s)
    ensures Sorted([x] + s)
  {
    var r := [x] + s;
    forall i, j | 0 <= i < j < |r| ensures Leq(r[i], r[j]) {
      if i == 0 { assert s[j - 1] in s; } else { assert Leq(s[i - 1], s[j - 1]); }
    }
  }

  lemma {:induction false} InsertSorted(x: Name, s: seq<Name>)
    requires Sorted(s)
    ensures Sorted(Insert(x, s))
  {
    if s != [] {
      if Leq(x, s[0]) {
        forall y | y in s ensures Leq(x, y) {
          if y != s[0] { LeqTransitive(x, s[0], y); }
        }
        SortedCons(x, s);
      } else {
        LeqTotal(x, s[0]);
        InsertSorted(x, s[1..]);
        forall y | y in Insert(x, s[1..]) ensures Leq(s[0], y) {
          assert y in multiset(Insert(x, s[1..]));
          assert y in multiset(s[1..]) || y == x;
        }
        SortedCons(s[0], Insert(x, s[1..]));
      }
    }
  }

  /** `Vec::sort` on names. */
  function Sort(s: seq<Name>): (r: seq<Name>)
    ensures multiset(r) == multiset(s)
  {
    if s == [] then []
    else
      assert s == [s[0]] + s[1..];
      Insert(s[0], Sort(s[1..]))
  }

  lemma {:induction false} SortSorted(s: seq<Name>)
    ensures Sorted(Sort(s))
  {
    if s != [] {
      SortSorted(s[1..]);
      InsertSorted(s[0], Sort(s[1..]));
    }
  }

  /** Sorting permutes, so membership, length and absence of repeats survive. */
  lemma SortElems(s: seq<Name>)
    ensures Elems(Sort(s)) == Elems(s) && |Sort(s)| == |s|
    ensures NoDup(s) ==> NoDup(Sort(s))
  {
    var r := Sort(s);
    SameMembers(r, s);
    assert |multiset(r)| == |multiset(s)|;
    if NoDup(s) { NoDupTransfers(s, r); }
  }

  lemma SameMembers<T>(a: seq<T>, b: seq<T>)
    requires multiset(a) == multiset(b)
    ensures Elems(a) == Elems(b)
  {
    assert forall x :: x in a <==> x in multiset(a);
    assert forall x :: x in b <==> x in multiset(b);
  }

  lemma NoDupTransfers<T>(s: seq<T>, r: seq<T>)
    requires NoDup(s) && multiset(r) == multiset(s)
    ensures NoDup(r)
  {
    SameMembers(r, s);
    NoDupCardinality(s);
    assert |multiset(r)| == |multiset(s)|;
    FullCardinalityNoDup(r);
  }

  lemma {:induction false} FullCardinalityNoDup<T>(s: seq<T>)
    requires |Elems(s)| == |s|
    ensures NoDup(s)
  {
    if s != [] {
      var front, last := s[..|s| - 1], s[|s| - 1];
      assert Elems(s) == Elems(front) + {last};
      ElemsAtMost(front);
      FullCardinalityNoDup(front);
      assert last !in front;
    }
  }

  lemma {:induction false} ElemsAtMost<T>(s: seq<T>)
    ensures |Elems(s)| <= |s|
  {
    if s != [] {
      ElemsAtMost(s[..|s| - 1]);
      assert Elems(s) == Elems(s[..|s| - 1]) + {s[|s| - 1]};
    }
  }

  /** Collecting a hash set's members and sorting them. */
  method SortedKeys(keys: set<Name>) returns (r: seq<Name>)
    ensures Elems(r) == keys && NoDup(r) && Sorted(r)
  {
    var rest, out := keys, [];
    while rest != {}
      invariant rest + Elems(out) == keys && rest !! Elems(out)
      invariant NoDup(out)
      decreases rest
    {
      var x :| x in rest;
      rest := rest - {x};
      out := out + [x];
    }
    r := Sort(out);
    SortElems(out);
    SortSorted(out);
  }

  /** `dedup` on a sorted vector: drops equal neighbours. */
  function Dedup(s: seq<Name>): (r: seq<Name>)
    ensures Elems(r) == Elems(s)
    ensures r != [] ==> s != [] && r[0] == s[0]
  {
    if |s| <= 1 then s
    else
      var rest := Dedup(s[1..]);
      assert Elems(s) == {s[0]} + Elems(s[1..]);
      assert Elems([s[0]] + rest) == {s[0]} + Elems(rest);
      if s[0] == s[1] then rest else [s[0]] + rest
  }

  lemma {:induction false} DedupSorted(s: seq<Name>)
    requires Sorted(s)
    ensures Sorted(Dedup(s)) && NoDup(Dedup(s))
  {
    if |s| > 1 {
      DedupSorted(s[1..]);
      if s[0] != s[1] {
        var t := Dedup(s[1..]);
        forall j | 0 <= j < |t| ensures Leq(s[0], t[j]) && s[0] != t[j] {
          assert t[j] in Elems(s[1..]);
          var k :| 1 <= k < |s| && s[k] == t[j];
          if s[0] == s[k] { LeqAntisymmetric(s[0], s[1]); }
        }
      }
    }
  }

  ghost predicate IsSmallest(s: set<Name>, m: Name) {
    m in s && forall x :: x in s ==> Leq(m, x)
  }

  lemma {:induction false} HasSmallest(s: set<Name>) returns (m: Name)
    requires s != {}
    ensures IsSmallest(s, m)
    decreases |s|
  {
    var x :| x in s;
    LeqTotal(x, x);
    if s == {x} {
      m := x;
    } else {
      assert s - {x} != {} by { assert s == (s - {x}) + {x}; }
      var n := HasSmallest(s - {x});
      LeqTotal(x, n);
      m := if Leq(n, x) then n else x;
      forall y | y in s ensures Leq(m, y) {
        if y != x {
          assert Leq(n, y);
          if m == x { LeqTransitive(x, n, y); }
        }
      }
    }
  }

  function Smallest(s: set<Name>): (m: Name)
    requires s != {}
    ensures m in s && forall x :: x in s ==> Leq(m, x)
  {
    assert exists x :: x in s && forall y :: y in s ==> Leq(x, y) by {
      var m := HasSmallest(s);
      assert IsSmallest(s, m);
    }
    assert forall x, y :: x in s && y in s && Leq(x, y) && Leq(y, x) ==> x == y by {
      forall x, y | x in s && y in s && Leq(x, y) && Leq(y, x) ensures x == y { LeqAntisymmetric(x, y); }
    }
    var m :| m in s && forall x :: x in s ==> Leq(m, x);
    m
  }

  /** The members of a set in alphabetical order. */
  function Ordered(s: set<Name>): (r: seq<Name>)
    ensures Elems(r) == s
  {
    if s == {} then [] else
      var m := Smallest(s);
      var rest := Ordered(s - {m});
      assert Elems([m] + rest) == {m} + Elems(rest);
      assert {m} + (s - {m}) == s;
      [m] + rest
  }

  lemma {:induction false} OrderedSorted(s: set<Name>)
    ensures Sorted(Ordered(s)) && NoDup(Ordered(s))
  {
    if s != {} {
      var m := Smallest(s);
      OrderedSorted(s - {m});
      var rest := Ordered(s - {m});
      forall j | 0 <= j < |rest| ensures Leq(m, rest[j]) && m != rest[j] { assert rest[j] in Elems(rest); }
    }
  }

  /** Sorting and dropping neighbours leaves the members in order. */
  lemma DedupSortIsOrdered(s: seq<Name>)
    ensures Dedup(Sort(s)) == Ordered(Elems(s))
  {
    SortElems(s);
    SortSorted(s);
    DedupSorted(Sort(s));
    SortedIsOrdered(Dedup(Sort(s)));
  }

  /** Sorting is canonical: only one strictly ascending sequence has these members. */
  lemma {:induction false} SortedIsOrdered(s: seq<Name>)
    requires Sorted(s) && NoDup(s)
    ensures s == Ordered(Elems(s))
  {
    if s != [] {
      assert s[0] in Elems(s);
      var m := Smallest(Elems(s));
      var k :| 0 <= k < |s| && s[k] == m;
      LeqAntisymmetric(m, s[0]) by { if k == 0 { LeqTotal(m, m); } }
      assert Elems(s[1..]) == Elems(s) - {m};
      SortedIsOrdered(s[1..]);
      assert s == [m] + s[1..];
    }
  }
}
