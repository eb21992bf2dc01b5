/** Rewriting archived events from one workspace to another. */
module Remaps {
  import opened Basics
  import opened Archives

  /** The key a value stands under; values in a list stand under the list's key. */
  type Context = Option<string>

  predicate IsWorkspaceKey(key: Context) {
    key == Some("workspace_id") || key == Some("workspace")
  }

  predicate IsScoped(key: Context) {
    || IsWorkspaceKey(key) || key == Some("namespace") || key == Some("source_namespace")
    || key == Some("projection_namespace") || key == Some("graph_namespace")
  }

  /** `ws:<workspace>`, and with the colon after it. */
  function Bare(workspace: string): string {
    "ws:" + workspace
  }

  function Prefix(workspace: string): string {
    "ws:" + workspace + ":"
  }

  function Drop(s: string, n: nat): string {
    if n <= |s| then s[n..] else ""
  }

  /** The string `s` under `key` names the workspace or something in it. */
  predicate Names(s: string, key: Context, workspace: string) {
    (IsWorkspaceKey(key) && s == workspace) || s == Bare(workspace) || StartsWith(s, Prefix(workspace))
  }

  function RemapString(s: string, key: Context, from: string, to: string): string {
    if !IsScoped(key) then s
    else if IsWorkspaceKey(key) && s == from then to
    else if s == Bare(from) || StartsWith(s, Prefix(from)) then Prefix(to) + Drop(s, |Prefix(from)|)
    else s
  }

  /** `_remap_value`. */
  function RemapValue(v: Json, key: Context, from: string, to: string): Json {
    match v
    case JObj(fields) => JObj(map k | k in fields :: RemapValue(fields[k], Some(k), from, to))
    case JList(items) => JList(seq(|items|, i requires 0 <= i < |items| => RemapValue(items[i], key, from, to)))
    case JStr(s) => JStr(RemapString(s, key, from, to))
    case _ => v
  }

  /** `_remap_namespace`. */
  function RemapNamespace(ns: string, from: string, to: string): string {
    if StartsWith(ns, Prefix(from)) then Prefix(to) + ns[|Prefix(from)|..] else ns
  }

  /** `_remapped_event`. */
  function RemapEvent(from: string, to: string): Envelope -> Envelope {
    (e: Envelope) => e.(namespace := RemapNamespace(e.namespace, from, to), payload := RemapValue(e.payload, None, from, to))
  }

  // ----- Where things are in a document -----

  datatype Step = Field(name: string) | Item(index: nat)

  function Child(v: Json, step: Step): Option<Json> {
    match (v, step)
    case (JObj(fields), Field(name)) => if name in fields then Some(fields[name]) else None
    case (JList(items), Item(index)) => if index < |items| then Some(items[index]) else None
    case _ => None
  }

  /** The value at a path, if the path exists. */
  function At(v: Json, path: seq<Step>): Option<Json> {
    if path == [] then Some(v)
    else match Child(v, path[0])
      case None => None
      case Some(child) => At(child, path[1..])
  }

  /** The key that governs the end of a path: the last field name on it. */
  function Governing(key: Context, path: seq<Step>): Context
    decreases |path|
  {
    if path == [] then key
    else Governing(if path[0].Field? then Some(path[0].name) else key, path[1..])
  }

  /** The same kind of value, with the same field names or the same number of items. */
  predicate SameShape(v: Json, w: Json) {
    match (v, w)
    case (JObj(f), JObj(g)) => f.Keys == g.Keys
    case (JList(a), JList(b)) => |a| == |b|
    case (JStr(_), JStr(_)) => true
    case _ => v == w
  }

  lemma {:induction false} RemapAt(v: Json, key: Context, from: string, to: string, path: seq<Step>)
    ensures At(RemapValue(v, key, from, to), path) ==
            match At(v, path)
            case None => None
            case Some(w) => Some(RemapValue(w, Governing(key, path), from, to))
    decreases |path|
  {
    if path != [] && Child(v, path[0]).Some? {
      RemapAt(Child(v, path[0]).value, if path[0].Field? then Some(path[0].name) else key, from, to, path[1..]);
    }
  }

  /** Remapping keeps every path and shape, and alters a value only if it is a string under a scoped key that names the old workspace. */
  lemma RemapIsLocal(v: Json, from: string, to: string, path: seq<Step>)
    ensures var w := RemapValue(v, None, from, to);
            && (At(w, path).Some? <==> At(v, path).Some?)
            && (At(v, path).Some? ==> SameShape(At(v, path).value, At(w, path).value))
            && (At(v, path).Some? && At(v, path).value.JStr? && At(w, path) != At(v, path) ==>
                  IsScoped(Governing(None, path)) && Names(At(v, path).value.s, Governing(None, path), from))
  {
    RemapAt(v, None, from, to, path);
    if At(v, path).Some? {
      var u, key := At(v, path).value, Governing(None, path);
      if u.JObj? {
        assert RemapValue(u, key, from, to).fields.Keys == u.fields.Keys;
      }
    }
  }

  /** A string that names the old workspace names the new one afterwards, with the rest of it unchanged. */
  lemma RemapRelocates(s: string, key: Context, from: string, to: string)
    requires IsScoped(key) && Names(s, key, from)
    ensures Names(RemapString(s, key, from, to), key, to)
    ensures IsWorkspaceKey(key) && s == from ==> RemapString(s, key, from, to) == to
    ensures s == Bare(from) ==> RemapString(s, key, from, to) == Prefix(to)
    ensures StartsWith(s, Prefix(from)) ==> RemapString(s, key, from, to) == Prefix(to) + s[|Prefix(from)|..]
  {
    if !(IsWorkspaceKey(key) && s == from) {
      PrefixLongerThanName(to, Drop(s, |Prefix(from)|));
    }
  }

  // ----- Remapping back -----

  /** A string that survives a remap and a remap back. */
  predicate Reversible(s: string, key: Context, from: string, to: string) {
    IsScoped(key) ==> s != Bare(from) && (Names(s, key, from) || !Names(s, key, to))
  }

  lemma PrefixLongerThanName(to: string, rest: string)
    ensures Prefix(to) + rest != to
    ensures Prefix(to) + rest != Bare(to)
    ensures StartsWith(Prefix(to) + rest, Prefix(to))
    ensures Drop(Prefix(to) + rest, |Prefix(to)|) == rest
  {
    assert |Prefix(to) + rest| > |Bare(to)| > |to|;
    assert (Prefix(to) + rest)[..|Prefix(to)|] == Prefix(to);
  }

  lemma PrefixedSplits(s: string, workspace: string)
    requires StartsWith(s, Prefix(workspace))
    ensures s == Prefix(workspace) + Drop(s, |Prefix(workspace)|)
  {
  }

  lemma StringBack(s: string, key: Context, from: string, to: string)
    requires from != to
    ensures RemapString(RemapString(s, key, from, to), key, to, from) == s <==> Reversible(s, key, from, to)
  {
    if IsScoped(key) {
      var n := |Prefix(from)|;
      if IsWorkspaceKey(key) && s == from {
        assert |s| < |Bare(from)|;
      } else if s == Bare(from) || StartsWith(s, Prefix(from)) {
        PrefixLongerThanName(to, Drop(s, n));
        PrefixLongerThanName(from, Drop(s, n));
        if StartsWith(s, Prefix(from)) {
          PrefixedSplits(s, from);
        }
      } else if s == Bare(to) || StartsWith(s, Prefix(to)) {
        PrefixLongerThanName(from, Drop(s, |Prefix(to)|));
      }
    }
  }

  /** Every string of the document survives. */
  ghost predicate AllReversible(v: Json, key: Context, from: string, to: string) {
    forall path | At(v, path).Some? && At(v, path).value.JStr? ::
      Reversible(At(v, path).value.s, Governing(key, path), from, to)
  }

  lemma ChildReversible(v: Json, key: Context, from: string, to: string, step: Step)
    requires AllReversible(v, key, from, to) && Child(v, step).Some?
    ensures AllReversible(Child(v, step).value, if step.Field? then Some(step.name) else key, from, to)
  {
    var child, inner := Child(v, step).value, if step.Field? then Some(step.name) else key;
    forall path | At(child, path).Some? && At(child, path).value.JStr?
      ensures Reversible(At(child, path).value.s, Governing(inner, path), from, to)
    {
      var longer := [step] + path;
      assert longer[0] == step && longer[1..] == path;
      assert At(v, longer) == At(child, path);
      assert Governing(key, longer) == Governing(inner, path);
    }
  }

  lemma {:induction false} ReversibleGoesBack(v: Json, key: Context, from: string, to: string)
    requires from != to && AllReversible(v, key, from, to)
    ensures RemapValue(RemapValue(v, key, from, to), key, to, from) == v
  {
    match v
    case JObj(fields) =>
      forall k | k in fields ensures RemapValue(RemapValue(fields[k], Some(k), from, to), Some(k), to, from) == fields[k] {
        ChildReversible(v, key, from, to, Field(k));
        ReversibleGoesBack(fields[k], Some(k), from, to);
      }
      assert RemapValue(RemapValue(v, key, from, to), key, to, from).fields == fields;
    case JList(items) =>
      forall i | 0 <= i < |items| ensures RemapValue(RemapValue(items[i], key, from, to), key, to, from) == items[i] {
        ChildReversible(v, key, from, to, Item(i));
        ReversibleGoesBack(items[i], key, from, to);
      }
      assert RemapValue(RemapValue(v, key, from, to), key, to, from).items == items;
    case JStr(s) =>
      assert At(v, []) == Some(v);
      assert Reversible(s, Governing(key, []), from, to);
      StringBack(s, key, from, to);
    case _ =>
  }

  /** Remapping a document and remapping it back is the identity exactly when every scoped string is reversible. */
  lemma RemapBack(v: Json, from: string, to: string)
    requires from != to
    ensures RemapValue(RemapValue(v, None, from, to), None, to, from) == v <==> AllReversible(v, None, from, to)
  {
    if AllReversible(v, None, from, to) {
      ReversibleGoesBack(v, None, from, to);
    }
    var w := RemapValue(v, None, from, to);
    if RemapValue(w, None, to, from) == v {
      forall path | At(v, path).Some? && At(v, path).value.JStr?
        ensures Reversible(At(v, path).value.s, Governing(None, path), from, to)
      {
        RemapAt(v, None, from, to, path);
        RemapAt(w, None, to, from, path);
        StringBack(At(v, path).value.s, Governing(None, path), from, to);
      }
    }
  }

  /** A bare `ws:<old>` comes back with a colon it did not have. */
  lemma BareGainsColon(from: string, to: string)
    requires from != to
    ensures var v := JObj(map["namespace" := JStr(Bare(from))]);
            RemapValue(RemapValue(v, None, from, to), None, to, from) == JObj(map["namespace" := JStr(Prefix(from))]) != v
  {
    var v := JObj(map["namespace" := JStr(Bare(from))]);
    var key: Context := Some("namespace");
    PrefixLongerThanName(to, "");
    PrefixLongerThanName(from, "");
    assert Prefix(to) + "" == Prefix(to) && Prefix(from) + "" == Prefix(from);
    assert RemapString(Bare(from), key, from, to) == Prefix(to);
    assert RemapString(Prefix(to), key, to, from) == Prefix(from);
    assert RemapValue(v, None, from, to) == JObj(map["namespace" := JStr(Prefix(to))]);
    assert |Prefix(from)| != |Bare(from)|;
    assert JStr(Prefix(from)) != JStr(Bare(from));
    assert v.fields["namespace"] == JStr(Bare(from));
  }

  // ----- Namespaces -----

  /** Remapping tells apart the namespaces of one workspace. */
  lemma NamespaceInjective(a: string, b: string, from: string, to: string)
    requires StartsWith(a, Prefix(from)) && StartsWith(b, Prefix(from))
    requires RemapNamespace(a, from, to) == RemapNamespace(b, from, to)
    ensures a == b
  {
    PrefixLongerThanName(to, Drop(a, |Prefix(from)|));
    PrefixLongerThanName(to, Drop(b, |Prefix(from)|));
    PrefixedSplits(a, from);
    PrefixedSplits(b, from);
  }

  lemma NamespaceBack(ns: string, from: string, to: string)
    requires StartsWith(ns, Prefix(from))
    ensures RemapNamespace(RemapNamespace(ns, from, to), to, from) == ns
  {
    PrefixLongerThanName(to, Drop(ns, |Prefix(from)|));
    PrefixedSplits(ns, from);
  }

  // ----- Events -----

  /**
   * `m` is `e` in the other workspace: the namespace has the other prefix and its own suffix, the payload is
   * remapped unless nothing moves, and number, id, entity, operation and time are kept.
   */
  ghost predicate IsMoved(e: Envelope, m: Envelope, from: string, to: string) {
    && m.number == e.number && m.eventId == e.eventId && m.createdAt == e.createdAt
    && m.entityKind == e.entityKind && m.entityId == e.entityId && m.op == e.op
    && m.namespace == (if StartsWith(e.namespace, Prefix(from)) then Prefix(to) + e.namespace[|Prefix(from)|..] else e.namespace)
    && m.payload == if from == to then e.payload else RemapValue(e.payload, None, from, to)
  }

  /** An event of the old workspace is moved field by field, and recovered by remapping back exactly when its payload is reversible. */
  lemma EventBack(e: Envelope, from: string, to: string)
    requires from != to && StartsWith(e.namespace, Prefix(from))
    ensures IsMoved(e, RemapEvent(from, to)(e), from, to)
    ensures RemapEvent(to, from)(RemapEvent(from, to)(e)) == e <==> AllReversible(e.payload, None, from, to)
  {
    NamespaceBack(e.namespace, from, to);
    RemapBack(e.payload, from, to);
  }
}
