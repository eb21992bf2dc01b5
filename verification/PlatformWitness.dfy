/**
 * What is asked of the library can be met: one set of functions has all the properties at once.
 * Ids are written in a prefix code, in which a word is never the beginning of another.
 */
module PlatformWitness {
  import opened Basics
  import opened Ordering
  import opened Text
  import opened Platforms
  import opened Archives

  function Tagged(c: char, u: string): string {
    [c] + u
  }

  lemma TagPrefix(c: char, u: string, s: string, d: char, v: string, t: string)
    requires Tagged(c, u) + s == Tagged(d, v) + t
    ensures c == d && u + s == v + t
    ensures u == v ==> s == t
  {
    var x, y := Tagged(c, u) + s, Tagged(d, v) + t;
    assert x[0] == c && y[0] == d;
    assert x[1..] == u + s && y[1..] == v + t;
    assert (u + s)[|u|..] == s && (v + t)[|v|..] == t;
  }

  lemma Assoc(a: string, b: string, c: string)
    ensures a + b + c == a + (b + c)
  {
  }

  // ----- Numbers and strings -----

  function Unary(n: nat): string {
    if n == 0 then ['0'] + "" else ['1'] + Unary(n - 1)
  }

  function IntCode(n: int): string {
    if n >= 0 then ['p'] + Unary(n) else ['m'] + Unary(-n)
  }

  function StrCode(s: string): string {
    if s == "" then ['.'] + "" else [','] + (Unary(s[0] as int) + StrCode(s[1..]))
  }

  lemma {:induction false} UnaryPrefix(a: nat, b: nat, s: string, t: string)
    requires Unary(a) + s == Unary(b) + t
    ensures a == b && s == t
  {
    var u, v := if a == 0 then "" else Unary(a - 1), if b == 0 then "" else Unary(b - 1);
    TagPrefix(Unary(a)[0], u, s, Unary(b)[0], v, t);
    if a > 0 {
      UnaryPrefix(a - 1, b - 1, s, t);
    }
  }

  lemma IntPrefix(a: int, b: int, s: string, t: string)
    requires IntCode(a) + s == IntCode(b) + t
    ensures a == b && s == t
  {
    var m, n := if a >= 0 then a else -a, if b >= 0 then b else -b;
    TagPrefix(if a >= 0 then 'p' else 'm', Unary(m), s, if b >= 0 then 'p' else 'm', Unary(n), t);
    UnaryPrefix(m, n, s, t);
  }

  lemma {:induction false} StrPrefix(a: string, b: string, s: string, t: string)
    requires StrCode(a) + s == StrCode(b) + t
    ensures a == b && s == t
  {
    var u := if a == "" then "" else Unary(a[0] as int) + StrCode(a[1..]);
    var v := if b == "" then "" else Unary(b[0] as int) + StrCode(b[1..]);
    TagPrefix(StrCode(a)[0], u, s, StrCode(b)[0], v, t);
    if a != "" {
      Assoc(Unary(a[0] as int), StrCode(a[1..]), s);
      Assoc(Unary(b[0] as int), StrCode(b[1..]), t);
      UnaryPrefix(a[0] as int, b[0] as int, StrCode(a[1..]) + s, StrCode(b[1..]) + t);
      StrPrefix(a[1..], b[1..], s, t);
      assert a == [a[0]] + a[1..] && b == [b[0]] + b[1..];
    }
  }

  /** Visible characters only. */
  predicate Solid(s: string) {
    s != [] && forall i | 0 <= i < |s| :: 0x21 <= s[i] as int < 0x7F
  }

  lemma SolidIsClean(s: string)
    requires Solid(s)
    ensures Clean(s)
  {
    assert !Space(s[0]) && !Space(s[|s| - 1]);
  }

  lemma SolidConcat(a: string, b: string)
    requires Solid(a) && Solid(b)
    ensures Solid(a + b)
  {
  }

  lemma {:induction false} UnarySolid(n: nat)
    ensures Solid(Unary(n))
  {
    if n > 0 {
      UnarySolid(n - 1);
    }
  }

  lemma IntSolid(n: int)
    ensures Solid(IntCode(n))
  {
    UnarySolid(if n >= 0 then n else -n);
  }

  lemma {:induction false} StrSolid(s: string)
    ensures Solid(StrCode(s))
  {
    if s != "" {
      UnarySolid(s[0] as int);
      StrSolid(s[1..]);
    }
  }

  // ----- Documents -----

  ghost function KeysOf(fields: map<string, Json>): (keys: seq<string>)
    ensures Elems(keys) == fields.Keys
    ensures forall k | k in keys :: k in fields
  {
    LexOn(fields.Keys);
    var keys := Listing(fields.Keys, Lex);
    assert forall k | k in keys :: k in Elems(keys);
    keys
  }

  function Tag(j: Json): char {
    match j
    case JNull => 'n'
    case JBool(b) => if b then 't' else 'f'
    case JInt(_) => 'i'
    case JFloat(_) => 'r'
    case JStr(_) => 's'
    case JList(_) => 'l'
    case JObj(_) => 'o'
  }

  ghost function Code(j: Json): string
    decreases j, 2, 0
  {
    [Tag(j)] + Body(j)
  }

  ghost function Body(j: Json): string
    decreases j, 1, 0
  {
    match j
    case JInt(n) => IntCode(n)
    case JStr(s) => StrCode(s)
    case JList(items) => ItemsCode(j, 0)
    case JObj(fields) => FieldsCode(j, KeysOf(fields), 0)
    case _ => ""
  }

  ghost function ItemsCode(j: Json, i: nat): string
    requires j.JList? && i <= |j.items|
    decreases j, 0, |j.items| - i
  {
    if i == |j.items| then ['.'] + "" else [','] + (Code(j.items[i]) + ItemsCode(j, i + 1))
  }

  ghost function FieldsCode(j: Json, keys: seq<string>, i: nat): string
    requires j.JObj? && i <= |keys| && forall k | k in keys :: k in j.fields
    decreases j, 0, |keys| - i
  {
    if i == |keys| then ['.'] + ""
    else
      assert keys[i] in keys;
      [','] + (StrCode(keys[i]) + (Code(j.fields[keys[i]]) + FieldsCode(j, keys, i + 1)))
  }

  lemma {:induction false} CodePrefix(a: Json, b: Json, s: string, t: string)
    requires FloatFree(a) && FloatFree(b) && Code(a) + s == Code(b) + t
    ensures a == b && s == t
    decreases a, 2, 0
  {
    TagPrefix(Tag(a), Body(a), s, Tag(b), Body(b), t);
    match a
    case JInt(n) => IntPrefix(n, b.n, s, t);
    case JStr(c) => StrPrefix(c, b.s, s, t);
    case JList(_) => ItemsPrefix(a, b, 0, s, t);
    case JObj(_) => ObjectPrefix(a, b, s, t);
    case _ =>
  }

  lemma {:induction false} ItemsPrefix(a: Json, b: Json, i: nat, s: string, t: string)
    requires a.JList? && b.JList? && FloatFree(a) && FloatFree(b) && i <= |a.items| && i <= |b.items|
    requires a.items[..i] == b.items[..i]
    requires ItemsCode(a, i) + s == ItemsCode(b, i) + t
    ensures a == b && s == t
    decreases a, 0, |a.items| - i
  {
    var u := if i == |a.items| then "" else Code(a.items[i]) + ItemsCode(a, i + 1);
    var v := if i == |b.items| then "" else Code(b.items[i]) + ItemsCode(b, i + 1);
    TagPrefix(ItemsCode(a, i)[0], u, s, ItemsCode(b, i)[0], v, t);
    if i == |a.items| {
      assert a.items == a.items[..i] && b.items == b.items[..i];
    } else {
      Assoc(Code(a.items[i]), ItemsCode(a, i + 1), s);
      Assoc(Code(b.items[i]), ItemsCode(b, i + 1), t);
      CodePrefix(a.items[i], b.items[i], ItemsCode(a, i + 1) + s, ItemsCode(b, i + 1) + t);
      assert a.items[..i + 1] == a.items[..i] + [a.items[i]] && b.items[..i + 1] == b.items[..i] + [b.items[i]];
      ItemsPrefix(a, b, i + 1, s, t);
    }
  }

  lemma ObjectPrefix(a: Json, b: Json, s: string, t: string)
    requires a.JObj? && b.JObj? && FloatFree(a) && FloatFree(b) && Body(a) + s == Body(b) + t
    ensures a == b && s == t
    decreases a, 1, 0
  {
    var keys, keys2 := KeysOf(a.fields), KeysOf(b.fields);
    FieldsPrefix(a, b, keys, keys2, 0, s, t);
    SameFields(a.fields, b.fields, keys);
  }

  lemma SameFields(f: map<string, Json>, g: map<string, Json>, keys: seq<string>)
    requires Elems(keys) == f.Keys == g.Keys && forall k | k in keys :: k in f && k in g && f[k] == g[k]
    ensures f == g
  {
    forall k | k in f ensures f[k] == g[k] {
      assert k in Elems(keys);
    }
  }

  lemma {:induction false} FieldsPrefix(a: Json, b: Json, keys: seq<string>, keys2: seq<string>, i: nat, s: string, t: string)
    requires a.JObj? && b.JObj? && FloatFree(a) && FloatFree(b) && i <= |keys| && i <= |keys2|
    requires (forall k | k in keys :: k in a.fields) && (forall k | k in keys2 :: k in b.fields)
    requires keys[..i] == keys2[..i] && forall k | k in keys[..i] :: k in a.fields && k in b.fields && a.fields[k] == b.fields[k]
    requires FieldsCode(a, keys, i) + s == FieldsCode(b, keys2, i) + t
    ensures keys == keys2 && s == t
    ensures forall k | k in keys :: k in a.fields && k in b.fields && a.fields[k] == b.fields[k]
    decreases a, 0, |keys| - i
  {
    if i < |keys| && i < |keys2| {
      FieldPrefix(a, b, keys, keys2, i, s, t);
      assert keys[..i + 1] == keys[..i] + [keys[i]] && keys2[..i + 1] == keys2[..i] + [keys2[i]];
      FieldsPrefix(a, b, keys, keys2, i + 1, s, t);
    } else {
      var u, v := FieldsCode(a, keys, i), FieldsCode(b, keys2, i);
      TagPrefix(u[0], u[1..], s, v[0], v[1..], t);
      assert keys == keys[..i] && keys2 == keys2[..i];
    }
  }

  lemma FieldPrefix(a: Json, b: Json, keys: seq<string>, keys2: seq<string>, i: nat, s: string, t: string)
    requires a.JObj? && b.JObj? && FloatFree(a) && FloatFree(b) && i < |keys| && i < |keys2|
    requires (forall k | k in keys :: k in a.fields) && (forall k | k in keys2 :: k in b.fields)
    requires FieldsCode(a, keys, i) + s == FieldsCode(b, keys2, i) + t
    ensures keys[i] == keys2[i] && keys[i] in a.fields && keys[i] in b.fields && a.fields[keys[i]] == b.fields[keys[i]]
    ensures FieldsCode(a, keys, i + 1) + s == FieldsCode(b, keys2, i + 1) + t
    decreases a, 0, 0
  {
    assert keys[i] in keys && keys2[i] in keys2;
    var v, w := Code(a.fields[keys[i]]), Code(b.fields[keys2[i]]);
    var x, y := FieldsCode(a, keys, i + 1), FieldsCode(b, keys2, i + 1);
    TagPrefix(',', StrCode(keys[i]) + (v + x), s, ',', StrCode(keys2[i]) + (w + y), t);
    Assoc(StrCode(keys[i]), v + x, s);
    Assoc(StrCode(keys2[i]), w + y, t);
    StrPrefix(keys[i], keys2[i], v + x + s, w + y + t);
    Assoc(v, x, s);
    Assoc(w, y, t);
    CodePrefix(a.fields[keys[i]], b.fields[keys2[i]], x + s, y + t);
  }

  // ----- Ids -----

  function ItemCode(w: string, s: int, e: int, k: string): string {
    StrCode(w) + (IntCode(s) + (IntCode(e) + StrCode(k)))
  }

  lemma ItemCodeIdentifies(w: string, s: int, e: int, k: string, w2: string, s2: int, e2: int, k2: string)
    requires ItemCode(w, s, e, k) == ItemCode(w2, s2, e2, k2)
    ensures w == w2 && s == s2 && e == e2 && k == k2
  {
    StrPrefix(w, w2, IntCode(s) + (IntCode(e) + StrCode(k)), IntCode(s2) + (IntCode(e2) + StrCode(k2)));
    IntPrefix(s, s2, IntCode(e) + StrCode(k), IntCode(e2) + StrCode(k2));
    IntPrefix(e, e2, StrCode(k), StrCode(k2));
    assert StrCode(k) + "" == StrCode(k) && StrCode(k2) + "" == StrCode(k2);
    StrPrefix(k, k2, "", "");
  }

  lemma ItemCodeClean(w: string, s: int, e: int, k: string)
    ensures Clean(ItemCode(w, s, e, k))
  {
    StrSolid(w);
    StrSolid(k);
    IntSolid(s);
    IntSolid(e);
    SolidConcat(IntCode(e), StrCode(k));
    SolidConcat(IntCode(s), IntCode(e) + StrCode(k));
    SolidConcat(StrCode(w), IntCode(s) + (IntCode(e) + StrCode(k)));
    SolidIsClean(ItemCode(w, s, e, k));
  }

  ghost function JobCode(w: string, r: string, c: string, j: Json): string {
    StrCode(w) + (StrCode(r) + (StrCode(c) + Code(j)))
  }

  lemma JobCodeIdentifies(w: string, r: string, c: string, j: Json, w2: string, r2: string, c2: string, j2: Json)
    requires FloatFree(j) && FloatFree(j2) && JobCode(w, r, c, j) == JobCode(w2, r2, c2, j2)
    ensures w == w2 && r == r2 && c == c2 && j == j2
  {
    StrPrefix(w, w2, StrCode(r) + (StrCode(c) + Code(j)), StrCode(r2) + (StrCode(c2) + Code(j2)));
    StrPrefix(r, r2, StrCode(c) + Code(j), StrCode(c2) + Code(j2));
    StrPrefix(c, c2, Code(j), Code(j2));
    assert Code(j) + "" == Code(j) && Code(j2) + "" == Code(j2);
    CodePrefix(j, j2, "", "");
  }

  /** Times before 1970 are marked, and the length says how far. */
  function Tally(t: int): string {
    if t >= 0 then seq(t, i => '1') else ['-'] + seq(-t - 1, i => '1')
  }

  function CountTally(s: string): Option<int> {
    if s == "" || s[0] != '-' then Some(|s|) else Some(-|s|)
  }

  ghost function Witness(): Platform {
    Platform(
      (w, s, e, k) => ItemCode(w, s, e, k), (w, s, e, ids) => "r", (w, r, c, j) => JobCode(w, r, c, j),
      t => Tally(t), s => CountTally(s), j => "", j => 0)
  }

  lemma WitnessItemIds()
    ensures Witness().GoodItemIds()
  {
    forall w, s, e, k ensures Clean(Witness().itemId(w, s, e, k)) {
      ItemCodeClean(w, s, e, k);
    }
    forall w, s, e, k, w2, s2, e2, k2 | Witness().itemId(w, s, e, k) == Witness().itemId(w2, s2, e2, k2)
      ensures w == w2 && s == s2 && e == e2 && k == k2
    {
      ItemCodeIdentifies(w, s, e, k, w2, s2, e2, k2);
    }
  }

  lemma WitnessJobIds()
    ensures Witness().JobIdsIdentify()
  {
    forall w, r, c, j, w2, r2, c2, j2
      | FloatFree(j) && FloatFree(j2) && Witness().jobId(w, r, c, j) == Witness().jobId(w2, r2, c2, j2)
      ensures w == w2 && r == r2 && c == c2 && j == j2
    {
      JobCodeIdentifies(w, r, c, j, w2, r2, c2, j2);
    }
  }

  lemma WitnessRest()
    ensures Witness().CleanRollupIds() && Witness().TimesSurvive()
  {
    SolidIsClean("r");
  }

  /** There are library functions with every property the theorems ask for. */
  lemma FaithfulPlatformExists()
    ensures exists p: Platform :: p.Faithful()
  {
    WitnessItemIds();
    WitnessJobIds();
    WitnessRest();
    assert Witness().Faithful();
  }

  /** The same for the archive checksums. */
  lemma FaithfulHasherExists()
    ensures exists h: Hasher :: h.Faithful()
  {
    var digit := (b: bv8) => b as int as char;
    var h := Hasher(events => "", (data: Bytes) => "x" + Map(digit, data));
    forall a, b | h.ofBytes(a) == h.ofBytes(b) ensures a == b {
      assert h.ofBytes(a)[1..] == Map(digit, a) && h.ofBytes(b)[1..] == Map(digit, b);
      forall i | 0 <= i < |a| ensures a[i] == b[i] {
        assert digit(a[i]) == Map(digit, a)[i] == Map(digit, b)[i] == digit(b[i]);
      }
    }
    assert h.Faithful();
  }
}
