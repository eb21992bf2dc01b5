/** Python's `sorted`, and the fact that a set has exactly one sorted listing. */
module Ordering {
  import opened Basics

  /** `le` totally orders the elements of `s`. */
  ghost predicate TotalOn<T>(le: (T, T) -> bool, s: set<T>) {
    && (forall x, y | x in s && y in s && le(x, y) && le(y, x) :: x == y)
    && (forall x, y, z | x in s && y in s && z in s && le(x, y) && le(y, z) :: le(x, z))
    && (forall x, y | x in s && y in s :: le(x, y) || le(y, x))
  }

  ghost predicate Sorted<T>(s: seq<T>, le: (T, T) -> bool) {
    forall i, j | 0 <= i < j < |s| :: le(s[i], s[j])
  }

  /** `q` lists the elements of `s`, each once, in the order `le`. */
  ghost predicate SortedListing<T>(q: seq<T>, s: set<T>, le: (T, T) -> bool) {
    Sorted(q, le) && NoDup(q) && Elems(q) == s
  }

  function Insert<T>(x: T, s: seq<T>, le: (T, T) -> bool): seq<T> {
    if s == [] then [x]
    else if le(x, s[0]) then [x] + s
    else [s[0]] + Insert(x, s[1..], le)
  }

  /** Python's `sorted`. */
  function Sort<T>(s: seq<T>, le: (T, T) -> bool): seq<T> {
    if s == [] then [] else Insert(s[0], Sort(s[1..], le), le)
  }

  // ----- Sorting keeps the contents, whatever the order is -----

  lemma {:induction false} InsertContents<T>(x: T, s: seq<T>, le: (T, T) -> bool)
    ensures multiset(Insert(x, s, le)) == multiset(s) + multiset{x}
  {
    if s != [] {
      assert s == [s[0]] + s[1..];
      InsertContents(x, s[1..], le);
    }
  }

  lemma MultisetFacts<T>(a: seq<T>, b: seq<T>)
    requires multiset(a) == multiset(b)
    ensures |a| == |b|
    ensures Elems(a) == Elems(b)
    ensures forall x :: x in a <==> x in b
  {
    assert |multiset(a)| == |a| && |multiset(b)| == |b|;
    forall x ensures x in a <==> x in b {
      assert x in a <==> x in multiset(a);
      assert x in b <==> x in multiset(b);
    }
  }

  lemma {:induction false} SortContents<T>(s: seq<T>, le: (T, T) -> bool)
    ensures multiset(Sort(s, le)) == multiset(s)
    ensures |Sort(s, le)| == |s|
    ensures Elems(Sort(s, le)) == Elems(s)
    ensures forall x :: x in Sort(s, le) <==> x in s
  {
    if s != [] {
      SortContents(s[1..], le);
      InsertContents(s[0], Sort(s[1..], le), le);
      assert s == [s[0]] + s[1..];
    }
    MultisetFacts(Sort(s, le), s);
  }

  lemma {:induction false} NoDupMultiset<T>(s: seq<T>)
    ensures NoDup(s) <==> forall x :: multiset(s)[x] <= 1
  {
    if s != [] {
      NoDupMultiset(s[1..]);
      assert s == [s[0]] + s[1..];
      assert multiset(s) == multiset{s[0]} + multiset(s[1..]);
      if NoDup(s) {
        assert s[0] !in s[1..];
        assert s[0] !in multiset(s[1..]);
      } else if NoDup(s[1..]) {
        assert s[0] in s[1..];
        assert s[0] in multiset(s[1..]);
        assert multiset(s)[s[0]] > 1;
      } else {
        var x :| multiset(s[1..])[x] > 1;
        assert multiset(s)[x] > 1;
      }
    }
  }

  lemma SortNoDup<T>(s: seq<T>, le: (T, T) -> bool)
    ensures NoDup(Sort(s, le)) <==> NoDup(s)
  {
    SortContents(s, le);
    NoDupMultiset(s);
    NoDupMultiset(Sort(s, le));
  }

  // ----- Sorting sorts -----

  lemma SortedCons<T>(x: T, s: seq<T>, le: (T, T) -> bool)
    requires Sorted(s, le) && forall y | y in s :: le(x, y)
    ensures Sorted([x] + s, le)
  {
  }

  lemma {:induction false} InsertSorted<T>(x: T, s: seq<T>, le: (T, T) -> bool)
    requires TotalOn(le, Elems(s) + {x}) && Sorted(s, le)
    ensures Sorted(Insert(x, s, le), le)
  {
    if s != [] {
      if le(x, s[0]) {
        forall y | y in s ensures le(x, y) {
          assert y == s[0] || le(s[0], y);
        }
        SortedCons(x, s, le);
      } else {
        var rest := Insert(x, s[1..], le);
        InsertSorted(x, s[1..], le);
        InsertContents(x, s[1..], le);
        forall y | y in rest ensures le(s[0], y) {
          assert y in multiset(rest);
          assert y == x || y in multiset(s[1..]);
        }
        SortedCons(s[0], rest, le);
      }
    }
  }

  lemma {:induction false} SortSorted<T>(s: seq<T>, le: (T, T) -> bool)
    requires TotalOn(le, Elems(s))
    ensures Sorted(Sort(s, le), le)
  {
    if s != [] {
      SortSorted(s[1..], le);
      SortContents(s[1..], le);
      assert s == [s[0]] + s[1..];
      assert Elems(Sort(s[1..], le)) + {s[0]} == Elems(s);
      InsertSorted(s[0], Sort(s[1..], le), le);
    }
  }

  // ----- Sorted arrangements are unique -----

  lemma HeadIsLeast<T>(s: seq<T>, x: T, le: (T, T) -> bool)
    requires Sorted(s, le) && x in s
    ensures x == s[0] || le(s[0], x)
  {
    var k :| 0 <= k < |s| && s[k] == x;
  }

  lemma SameHead<T>(a: seq<T>, b: seq<T>, le: (T, T) -> bool)
    requires TotalOn(le, Elems(a)) && Sorted(a, le) && Sorted(b, le) && a != []
    requires multiset(a) == multiset(b)
    ensures b != [] && a[0] == b[0]
  {
    MultisetFacts(a, b);
    assert a[0] in b && b[0] in a;
    HeadIsLeast(a, b[0], le);
    HeadIsLeast(b, a[0], le);
    assert a[0] in Elems(a) && b[0] in Elems(a);
  }

  lemma SameTail<T>(a: seq<T>, b: seq<T>)
    requires a != [] && b != [] && a[0] == b[0] && multiset(a) == multiset(b)
    ensures multiset(a[1..]) == multiset(b[1..])
  {
    assert a == [a[0]] + a[1..] && b == [b[0]] + b[1..];
    assert multiset(a[1..]) == multiset(a) - multiset{a[0]};
    assert multiset(b[1..]) == multiset(b) - multiset{b[0]};
  }

  /** Two sorted arrangements of the same multiset are the same list. */
  lemma {:induction false} SortedUnique<T>(a: seq<T>, b: seq<T>, le: (T, T) -> bool)
    requires TotalOn(le, Elems(a)) && Sorted(a, le) && Sorted(b, le)
    requires multiset(a) == multiset(b)
    ensures a == b
  {
    if a == [] {
      MultisetFacts(a, b);
    } else {
      SameHead(a, b, le);
      SameTail(a, b);
      SortedUnique(a[1..], b[1..], le);
      assert a == [a[0]] + a[1..] && b == [b[0]] + b[1..];
    }
  }

  lemma SortCanonical<T>(a: seq<T>, b: seq<T>, le: (T, T) -> bool)
    requires TotalOn(le, Elems(a)) && multiset(a) == multiset(b)
    ensures Sort(a, le) == Sort(b, le)
  {
    MultisetFacts(a, b);
    SortSorted(a, le);
    SortSorted(b, le);
    SortContents(a, le);
    SortContents(b, le);
    SortedUnique(Sort(a, le), Sort(b, le), le);
  }

  lemma NoDupSameElems<T>(a: seq<T>, b: seq<T>)
    requires NoDup(a) && NoDup(b) && Elems(a) == Elems(b)
    ensures multiset(a) == multiset(b)
  {
    NoDupMultiset(a);
    NoDupMultiset(b);
    forall x ensures multiset(a)[x] == multiset(b)[x] {
      assert x in multiset(a) <==> x in Elems(a);
      assert x in multiset(b) <==> x in Elems(b);
    }
  }

  /** Two repeat-free lists of the same elements sort to the same list. */
  lemma SortOfElems<T>(a: seq<T>, b: seq<T>, le: (T, T) -> bool)
    requires TotalOn(le, Elems(a)) && NoDup(a) && NoDup(b) && Elems(a) == Elems(b)
    ensures Sort(a, le) == Sort(b, le)
  {
    NoDupSameElems(a, b);
    SortCanonical(a, b, le);
  }

  lemma {:induction false} EnumerationExists<T>(s: set<T>)
    ensures exists q :: NoDup(q) && Elems(q) == s
    decreases s
  {
    if s == {} {
      assert Elems<T>([]) == s;
      assert NoDup<T>([]);
    } else {
      var x :| x in s;
      EnumerationExists(s - {x});
      var q :| NoDup(q) && Elems(q) == s - {x};
      assert x !in Elems(q);
      assert NoDup([x] + q);
      assert Elems([x] + q) == {x} + Elems(q);
    }
  }

  /** The one sorted listing of a set. */
  ghost function Listing<T>(s: set<T>, le: (T, T) -> bool): (q: seq<T>)
    requires TotalOn(le, s)
    ensures SortedListing(q, s, le)
  {
    EnumerationExists(s);
    var e :| NoDup(e) && Elems(e) == s;
    SortSorted(e, le);
    SortContents(e, le);
    SortNoDup(e, le);
    Sort(e, le)
  }

  lemma SortIsListing<T>(s: seq<T>, le: (T, T) -> bool)
    requires NoDup(s) && TotalOn(le, Elems(s))
    ensures Sort(s, le) == Listing(Elems(s), le)
  {
    var q := Listing(Elems(s), le);
    SortSorted(s, le);
    SortContents(s, le);
    SortNoDup(s, le);
    NoDupSameElems(Sort(s, le), q);
    SortedUnique(Sort(s, le), q, le);
  }

  // ----- Lexicographic order on strings -----

  predicate LexLe(a: string, b: string) {
    if a == [] then true
    else if b == [] then false
    else if a[0] != b[0] then a[0] < b[0]
    else LexLe(a[1..], b[1..])
  }

  lemma {:induction false} LexAntisymmetric(a: string, b: string)
    requires LexLe(a, b) && LexLe(b, a)
    ensures a == b
  {
    if a != [] {
      LexAntisymmetric(a[1..], b[1..]);
      assert a == [a[0]] + a[1..];
      assert b == [b[0]] + b[1..];
    }
  }

  lemma {:induction false} LexTransitive(a: string, b: string, c: string)
    requires LexLe(a, b) && LexLe(b, c)
    ensures LexLe(a, c)
  {
    if a != [] && a[0] == b[0] == c[0] {
      LexTransitive(a[1..], b[1..], c[1..]);
    }
  }

  lemma {:induction false} LexTotal(a: string, b: string)
    ensures LexLe(a, b) || LexLe(b, a)
  {
    if a != [] && b != [] && a[0] == b[0] {
      LexTotal(a[1..], b[1..]);
    }
  }

  const Lex: (string, string) -> bool := (a, b) => LexLe(a, b)

  lemma LexOn(s: set<string>)
    ensures TotalOn(Lex, s)
  {
    forall x, y | LexLe(x, y) && LexLe(y, x) ensures x == y { LexAntisymmetric(x, y); }
    forall x, y, z | LexLe(x, y) && LexLe(y, z) ensures LexLe(x, z) { LexTransitive(x, y, z); }
    forall x, y ensures LexLe(x, y) || LexLe(y, x) { LexTotal(x, y); }
  }
}
