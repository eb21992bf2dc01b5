/** Values and sequence operations shared by every part of the model. */
module Basics {

  datatype Option<+T> = None | Some(value: T)

  datatype Result<+T, +E> = Ok(value: T) | Err(error: E)

  /** A parsed JSON document. Object keys are unordered, as they are once parsed. */
  datatype Json =
    | JNull
    | JBool(b: bool)
    | JInt(n: int)
    | JFloat(r: real)
    | JStr(s: string)
    | JList(items: seq<Json>)
    | JObj(fields: map<string, Json>)

  /** Documents without floating-point numbers, such as queue payloads. */
  ghost predicate FloatFree(j: Json) {
    match j
    case JFloat(_) => false
    case JList(items) => forall i | 0 <= i < |items| :: FloatFree(items[i])
    case JObj(fields) => forall k | k in fields :: FloatFree(fields[k])
    case _ => true
  }

  /** `mapping.get(key)`, with `None` for a missing key. */
  function Get(o: map<string, Json>, key: string): Json {
    if key in o then o[key] else JNull
  }

  predicate NoDup<T(==)>(s: seq<T>) {
    forall i, j | 0 <= i < j < |s| :: s[i] != s[j]
  }

  function Elems<T(==)>(s: seq<T>): set<T> {
    set x | x in s
  }

  function Filter<T>(s: seq<T>, p: T -> bool): seq<T> {
    if s == [] then []
    else (if p(s[0]) then [s[0]] else []) + Filter(s[1..], p)
  }

  function Map<T, U>(f: T -> U, s: seq<T>): (r: seq<U>)
    ensures |r| == |s|
    ensures forall i | 0 <= i < |s| :: r[i] == f(s[i])
  {
    seq(|s|, i requires 0 <= i < |s| => f(s[i]))
  }

  lemma MapConcat<T, U>(f: T -> U, a: seq<T>, b: seq<T>)
    ensures Map(f, a + b) == Map(f, a) + Map(f, b)
  {
  }

  function Flatten<T>(s: seq<seq<T>>): seq<T> {
    if s == [] then [] else s[0] + Flatten(s[1..])
  }

  function Sum(s: seq<int>): int {
    if s == [] then 0 else s[0] + Sum(s[1..])
  }

  // ----- Filter -----

  lemma {:induction false} FilterConcat<T>(a: seq<T>, b: seq<T>, p: T -> bool)
    ensures Filter(a + b, p) == Filter(a, p) + Filter(b, p)
  {
    if a == [] {
      assert a + b == b;
    } else {
      var c := a + b;
      assert c[0] == a[0] && c[1..] == a[1..] + b;
      FilterConcat(a[1..], b, p);
      assert Filter(c, p) == (if p(a[0]) then [a[0]] else []) + (Filter(a[1..], p) + Filter(b, p));
    }
  }

  lemma FilterSnoc<T>(a: seq<T>, x: T, p: T -> bool)
    ensures Filter(a + [x], p) == Filter(a, p) + (if p(x) then [x] else [])
  {
    FilterConcat(a, [x], p);
    assert [x][1..] == [];
  }

  lemma {:induction false} FilterMembers<T>(s: seq<T>, p: T -> bool)
    ensures forall x :: x in Filter(s, p) <==> x in s && p(x)
    ensures |Filter(s, p)| <= |s|
  {
    if s != [] {
      FilterMembers(s[1..], p);
      assert s == [s[0]] + s[1..];
    }
  }

  lemma {:induction false} FilterAll<T>(s: seq<T>, p: T -> bool)
    requires forall x | x in s :: p(x)
    ensures Filter(s, p) == s
  {
    if s != [] {
      FilterAll(s[1..], p);
      assert s == [s[0]] + s[1..];
    }
  }

  lemma {:induction false} FilterNone<T>(s: seq<T>, p: T -> bool)
    requires forall x | x in s :: !p(x)
    ensures Filter(s, p) == []
  {
    if s != [] {
      FilterNone(s[1..], p);
    }
  }

  lemma {:induction false} FilterMap<T, U>(s: seq<T>, f: T -> U, p: U -> bool, q: T -> bool)
    requires forall x | x in s :: p(f(x)) == q(x)
    ensures Filter(Map(f, s), p) == Map(f, Filter(s, q))
  {
    if s != [] {
      FilterMap(s[1..], f, p, q);
      assert Map(f, s)[1..] == Map(f, s[1..]);
      var rest := Filter(s[1..], q);
      assert Map(f, [s[0]] + rest) == [f(s[0])] + Map(f, rest);
      assert s[0] in s;
    }
  }

  // ----- Flatten and Sum -----

  lemma {:induction false} FlattenSnoc<T>(s: seq<seq<T>>, x: seq<T>)
    ensures Flatten(s + [x]) == Flatten(s) + x
  {
    if s == [] {
      assert s + [x] == [x];
      assert [x][1..] == [];
      assert Flatten([x]) == x + Flatten([x][1..]);
    } else {
      assert (s + [x])[1..] == s[1..] + [x];
      FlattenSnoc(s[1..], x);
    }
  }

  lemma {:induction false} FlattenConcat<T>(a: seq<seq<T>>, b: seq<seq<T>>)
    ensures Flatten(a + b) == Flatten(a) + Flatten(b)
  {
    if a == [] {
      assert a + b == b;
    } else {
      assert (a + b)[1..] == a[1..] + b;
      FlattenConcat(a[1..], b);
    }
  }

  lemma {:induction false} FlattenMember<T>(s: seq<seq<T>>, x: T)
    ensures x in Flatten(s) <==> exists i :: 0 <= i < |s| && x in s[i]
  {
    if s != [] {
      FlattenMember(s[1..], x);
      if x in Flatten(s[1..]) {
        var i :| 0 <= i < |s[1..]| && x in s[1..][i];
        assert x in s[i + 1];
      }
      if i :| 0 <= i < |s| && x in s[i] {
        assert i > 0 ==> x in s[1..][i - 1];
      }
    }
  }

  /** A flattened list has no repeats exactly when its parts have none and are pairwise disjoint. */
  lemma {:induction false} FlattenNoDup<T>(s: seq<seq<T>>)
    requires forall i | 0 <= i < |s| :: NoDup(s[i])
    requires forall i, j, x | 0 <= i < j < |s| && x in s[i] :: x !in s[j]
    ensures NoDup(Flatten(s))
  {
    if s != [] {
      var t := s[1..];
      forall i, j, x | 0 <= i < j < |t| && x in t[i] ensures x !in t[j] {
        assert x in s[i + 1];
        assert t[j] == s[j + 1];
      }
      FlattenNoDup(t);
      forall x | x in s[0] ensures x !in Flatten(t) {
        FlattenMember(t, x);
        forall i | 0 <= i < |t| ensures x !in t[i] {
          assert t[i] == s[i + 1];
        }
      }
      NoDupConcat(s[0], Flatten(t));
    }
  }

  lemma NoDupConcat<T>(a: seq<T>, b: seq<T>)
    requires NoDup(a) && NoDup(b)
    requires forall x | x in a :: x !in b
    ensures NoDup(a + b)
  {
    var c := a + b;
    forall i, j | 0 <= i < j < |c| ensures c[i] != c[j] {
      if i < |a| <= j {
        assert c[i] in a;
        assert c[j] == b[j - |a|];
      }
    }
  }

  /** The two parts of a repeat-free list are repeat-free and disjoint. */
  lemma NoDupParts<T>(a: seq<T>, b: seq<T>)
    requires NoDup(a + b)
    ensures NoDup(a) && NoDup(b)
    ensures forall x | x in a :: x !in b
  {
    var c := a + b;
    forall i, j | 0 <= i < j < |a| ensures a[i] != a[j] {
      assert c[i] != c[j];
    }
    forall i, j | 0 <= i < j < |b| ensures b[i] != b[j] {
      assert c[|a| + i] != c[|a| + j];
    }
    forall x | x in a ensures x !in b {
      var i :| 0 <= i < |a| && a[i] == x;
      forall j | 0 <= j < |b| ensures b[j] != x {
        assert c[i] != c[|a| + j];
      }
    }
  }

  /** Disjointness of two parts of a repeat-free flattened list. */
  lemma {:induction false} FlattenDisjoint<T>(s: seq<seq<T>>, i: nat, j: nat, x: T)
    requires NoDup(Flatten(s))
    requires i < j < |s| && x in s[i]
    ensures x !in s[j]
  {
    var t := s[1..];
    var rest := Flatten(t);
    assert Flatten(s) == s[0] + rest;
    if i == 0 {
      assert t[j - 1] == s[j];
      FlattenMember(t, x);
      var a :| 0 <= a < |s[0]| && s[0][a] == x;
      forall b | 0 <= b < |rest| ensures rest[b] != x {
        assert (s[0] + rest)[a] != (s[0] + rest)[|s[0]| + b];
      }
    } else {
      forall a, b | 0 <= a < b < |rest| ensures rest[a] != rest[b] {
        assert (s[0] + rest)[|s[0]| + a] == rest[a];
        assert (s[0] + rest)[|s[0]| + b] == rest[b];
      }
      FlattenDisjoint(t, i - 1, j - 1, x);
    }
  }

  lemma {:induction false} FlattenLength<T>(s: seq<seq<T>>)
    ensures |Flatten(s)| == Sum(Map((x: seq<T>) => |x|, s))
  {
    if s != [] {
      FlattenLength(s[1..]);
      assert Map((x: seq<T>) => |x|, s)[1..] == Map((x: seq<T>) => |x|, s[1..]);
    }
  }

  lemma {:induction false} SumSnoc(s: seq<int>, x: int)
    ensures Sum(s + [x]) == Sum(s) + x
  {
    if s == [] {
      assert s + [x] == [x];
      assert [x][1..] == [];
    } else {
      assert (s + [x])[1..] == s[1..] + [x];
      SumSnoc(s[1..], x);
    }
  }

  // ----- Cardinalities -----

  /** A repeat-free sequence is as long as the set of its elements. */
  lemma {:induction false} NoDupCard<T>(s: seq<T>)
    requires NoDup(s)
    ensures |Elems(s)| == |s|
  {
    if s != [] {
      NoDupCard(s[1..]);
      assert s[0] !in s[1..];
      assert s == [s[0]] + s[1..];
      assert Elems(s) == {s[0]} + Elems(s[1..]);
    } else {
      assert Elems(s) == {};
    }
  }

  function Image<T, U(==)>(f: T -> U, s: set<T>): set<U> {
    set x | x in s :: f(x)
  }

  /** The image of a set is no larger, and as large exactly when the map is injective on the set. */
  lemma {:induction false} ImageCard<T, U>(f: T -> U, s: set<T>)
    ensures |Image(f, s)| <= |s|
    ensures |Image(f, s)| == |s| <==> forall x, y | x in s && y in s && f(x) == f(y) :: x == y
    decreases s
  {
    if s == {} {
      assert Image(f, s) == {};
    } else {
      var x :| x in s;
      var t := s - {x};
      ImageCard(f, t);
      assert Image(f, s) == Image(f, t) + {f(x)};
      if f(x) in Image(f, t) {
        assert Image(f, s) == Image(f, t);
        var y :| y in t && f(y) == f(x);
        assert y in s && x in s && y != x;
      } else {
        assert forall y | y in t :: f(y) in Image(f, t);
      }
    }
  }
}
