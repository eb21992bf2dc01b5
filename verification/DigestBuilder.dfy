/** `build_notification_digest`: one pass to admit events, one to group them, then one item per group. */
module DigestBuilder {
  import opened Basics
  import opened Ordering
  import opened Text
  import opened Platforms
  import opened Digests
  import opened DigestFacts

  datatype DigestError =
    | EmptyWindow | BadLimit | TooMany | MixedWorkspace | Unauthorized | OutsideWindow | ConflictingId | BlankWorkspace

  ghost predicate Admissible(ws: string, start: int, end: int, auth: (string, string) -> bool, e: Event) {
    e.workspaceId == ws && auth(ws, e.sourceId) && start <= e.occurredAt < end
  }

  /** Which batches are accepted. Nothing here depends on the order of the batch. */
  ghost predicate Acceptable(events: seq<Event>, ws: string, start: int, end: int, auth: (string, string) -> bool, maxEvents: int) {
    && start < end && 1 <= maxEvents && |events| <= maxEvents && !Blank(ws)
    && (forall e | e in events :: Admissible(ws, start, end, auth, e))
    && Consistent(Elems(events))
  }

  /** What each rejection means. */
  ghost predicate Explains(error: DigestError, events: seq<Event>, ws: string, start: int, end: int,
                           auth: (string, string) -> bool, maxEvents: int) {
    match error
    case EmptyWindow => start >= end
    case BadLimit => maxEvents < 1
    case TooMany => |events| > maxEvents
    case MixedWorkspace => exists e | e in events :: e.workspaceId != ws
    case Unauthorized => exists e | e in events :: !auth(ws, e.sourceId)
    case OutsideWindow => exists e | e in events :: !(start <= e.occurredAt < end)
    case ConflictingId => !Consistent(Elems(events))
    case BlankWorkspace => Blank(ws)
  }

  // ----- Insertion-ordered dictionaries of groups -----

  datatype Groups = Groups(keys: seq<string>, at: map<string, seq<Event>>)

  /** `groups.setdefault(key, []).append(event)`. */
  function Append(g: Groups, key: string, e: Event): Groups {
    if key in g.at then g.(at := g.at[key := g.at[key] + [e]])
    else Groups(g.keys + [key], g.at[key := [e]])
  }

  ghost predicate LaneGroups(g: Groups, u: set<Event>, urgent: bool) {
    && NoDup(g.keys) && Elems(g.keys) == g.at.Keys == LaneKeys(u, urgent)
    && forall k | k in g.at :: NoDup(g.at[k]) && Elems(g.at[k]) == Group(u, urgent, k)
  }

  lemma LaneGrows(u: set<Event>, urgent: bool, e: Event)
    requires IsUrgent(e.severity) == urgent
    ensures LaneKeys(u + {e}, urgent) == LaneKeys(u, urgent) + {GroupKey(e)}
    ensures forall k :: Group(u + {e}, urgent, k) == Group(u, urgent, k) + (if k == GroupKey(e) then {e} else {})
    ensures GroupKey(e) !in LaneKeys(u, urgent) ==> Group(u, urgent, GroupKey(e)) == {}
  {
    forall k ensures k in LaneKeys(u + {e}, urgent) <==> k in LaneKeys(u, urgent) || k == GroupKey(e) {
      if k in LaneKeys(u, urgent) {
        var f :| f in u && IsUrgent(f.severity) == urgent && GroupKey(f) == k;
        assert f in u + {e};
      }
      assert e in u + {e};
    }
    if f :| f in Group(u, urgent, GroupKey(e)) {
      assert GroupKey(f) in LaneKeys(u, urgent);
    }
  }

  lemma AppendKeys(g: Groups, key: string, e: Event)
    requires NoDup(g.keys) && Elems(g.keys) == g.at.Keys
    ensures var g' := Append(g, key, e);
            NoDup(g'.keys) && Elems(g'.keys) == g'.at.Keys == g.at.Keys + {key}
  {
    var g' := Append(g, key, e);
    assert key !in g.at ==> key !in Elems(g.keys);
    assert Elems(g'.keys) == Elems(g.keys) + {key};
  }

  lemma SnocElems<T>(s: seq<T>, x: T)
    requires NoDup(s) && x !in Elems(s)
    ensures NoDup(s + [x]) && Elems(s + [x]) == Elems(s) + {x}
  {
  }

  lemma AppendKeeps(g: Groups, u: set<Event>, urgent: bool, e: Event)
    requires LaneGroups(g, u, urgent) && e !in u && IsUrgent(e.severity) == urgent
    ensures LaneGroups(Append(g, GroupKey(e), e), u + {e}, urgent)
  {
    var key := GroupKey(e);
    var g' := Append(g, key, e);
    LaneGrows(u, urgent, e);
    AppendKeys(g, key, e);
    forall k | k in g'.at ensures NoDup(g'.at[k]) && Elems(g'.at[k]) == Group(u + {e}, urgent, k) {
      if k != key {
        assert g'.at[k] == g.at[k];
      } else {
        var prior := if key in g.at then g.at[key] else [];
        assert Elems(prior) == Group(u, urgent, key);
        SnocElems(prior, e);
        assert g'.at[k] == prior + [e];
      }
    }
  }

  lemma OtherLaneKeeps(g: Groups, u: set<Event>, urgent: bool, e: Event)
    requires LaneGroups(g, u, urgent) && IsUrgent(e.severity) != urgent
    ensures LaneGroups(g, u + {e}, urgent)
  {
    assert LaneKeys(u + {e}, urgent) == LaneKeys(u, urgent);
    forall k ensures Group(u + {e}, urgent, k) == Group(u, urgent, k) {
    }
  }

  lemma GroupsNonEmpty(g: Groups, u: set<Event>, urgent: bool)
    requires LaneGroups(g, u, urgent)
    ensures forall k | k in g.at :: g.at[k] != []
  {
    forall k | k in g.at ensures g.at[k] != [] {
      assert k in LaneKeys(u, urgent);
      var e :| e in u && IsUrgent(e.severity) == urgent && GroupKey(e) == k;
      assert e in Elems(g.at[k]);
    }
  }

  /** One item per group, in the order of the group keys. */
  function LaneTuple(p: Platform, ws: string, start: int, end: int, g: Groups, urgent: bool): seq<DigestItem>
    requires forall k | k in g.keys :: k in g.at && g.at[k] != []
  {
    SortContents(g.keys, Lex);
    var ks := Sort(g.keys, Lex);
    seq(|ks|, i requires 0 <= i < |ks| => MakeItem(p, ws, start, end, ks[i], g.at[ks[i]], urgent))
  }

  lemma LaneTupleIsLaneItems(p: Platform, ws: string, start: int, end: int, g: Groups, u: set<Event>, urgent: bool)
    requires Consistent(u) && LaneGroups(g, u, urgent)
    requires forall k | k in g.keys :: k in g.at && g.at[k] != []
    ensures LaneTuple(p, ws, start, end, g, urgent) == LaneItems(p, ws, start, end, u, urgent)
  {
    LexOn(Elems(g.keys));
    SortIsListing(g.keys, Lex);
    var ks := KeyList(u, urgent);
    SortContents(g.keys, Lex);
    forall i | 0 <= i < |ks|
      ensures LaneTuple(p, ws, start, end, g, urgent)[i] == LaneItems(p, ws, start, end, u, urgent)[i]
    {
      assert ks[i] in Elems(ks);
      GroupNonEmpty(u, urgent, ks[i]);
      ItemOrderFree(p, ws, start, end, ks[i], g.at[ks[i]], GroupList(u, urgent, ks[i]), urgent);
    }
  }

  // ----- The two loops -----

  method AdmitEvents(events: seq<Event>, ws: string, start: int, end: int, auth: (string, string) -> bool)
    returns (r: Result<seq<Event>, DigestError>)
    ensures r.Ok? <==> (forall e | e in events :: Admissible(ws, start, end, auth, e)) && Consistent(Elems(events))
    ensures r.Ok? ==> NoDup(r.value) && Elems(r.value) == Elems(events)
    ensures r.Err? ==> Explains(r.error, events, ws, start, end, auth, |events|)
    ensures r.Err? ==> !r.error.TooMany?
  {
    var unique: map<string, Event> := map[];
    var values: seq<Event> := [];
    for i := 0 to |events|
      invariant forall e | e in events[..i] :: Admissible(ws, start, end, auth, e) && e.eventId in unique && unique[e.eventId] == e
      invariant forall id | id in unique :: unique[id].eventId == id && unique[id] in Elems(events[..i])
      invariant NoDup(values) && Elems(values) == Elems(events[..i])
    {
      var event := events[i];
      assert events[..i + 1] == events[..i] + [event];
      assert Elems(events[..i + 1]) == Elems(events[..i]) + {event};
      assert event in events;
      if event.workspaceId != ws { return Err(MixedWorkspace); }
      if !auth(event.workspaceId, event.sourceId) { return Err(Unauthorized); }
      if !(start <= event.occurredAt < end) { return Err(OutsideWindow); }
      if event.eventId in unique {
        if unique[event.eventId] != event {
          assert unique[event.eventId] in Elems(events) && event in Elems(events);
          return Err(ConflictingId);
        }
        assert event in Elems(events[..i]);
      } else {
        assert event !in Elems(values);
        values := values + [event];
      }
      unique := unique[event.eventId := event];
    }
    assert events[..|events|] == events;
    return Ok(values);
  }

  method GroupEvents(ordered: seq<Event>) returns (routine: Groups, urgent: Groups)
    requires NoDup(ordered)
    ensures LaneGroups(routine, Elems(ordered), false) && LaneGroups(urgent, Elems(ordered), true)
  {
    routine, urgent := Groups([], map[]), Groups([], map[]);
    assert Elems(ordered[..0]) == {};
    for i := 0 to |ordered|
      invariant LaneGroups(routine, Elems(ordered[..i]), false) && LaneGroups(urgent, Elems(ordered[..i]), true)
    {
      var event := ordered[i];
      assert ordered[..i + 1] == ordered[..i] + [event];
      assert Elems(ordered[..i + 1]) == Elems(ordered[..i]) + {event};
      assert event !in Elems(ordered[..i]);
      if IsUrgent(event.severity) {
        AppendKeeps(urgent, Elems(ordered[..i]), true, event);
        OtherLaneKeeps(routine, Elems(ordered[..i]), false, event);
        urgent := Append(urgent, GroupKey(event), event);
      } else {
        AppendKeeps(routine, Elems(ordered[..i]), false, event);
        OtherLaneKeeps(urgent, Elems(ordered[..i]), true, event);
        routine := Append(routine, GroupKey(event), event);
      }
    }
    assert ordered[..|ordered|] == ordered;
  }

  /** `build_notification_digest`, with the checks made in the order the code makes them. */
  method BuildNotificationDigest(p: Platform, events: seq<Event>, ws: string, start: int, end: int,
                                 auth: (string, string) -> bool, maxEvents: int)
    returns (r: Result<Digest, DigestError>)
    ensures r.Ok? <==> Acceptable(events, ws, start, end, auth, maxEvents)
    ensures r.Ok? ==> r.value == DigestOf(p, ws, start, end, Elems(events))
    ensures r.Err? ==> Explains(r.error, events, ws, start, end, auth, maxEvents)
  {
    if start >= end { return Err(EmptyWindow); }
    if maxEvents < 1 { return Err(BadLimit); }
    if |events| > maxEvents { return Err(TooMany); }
    var admitted := AdmitEvents(events, ws, start, end, auth);
    if admitted.Err? { return Err(admitted.error); }
    var u := Elems(events);
    var ordered := Sort(admitted.value, TimeOrder);
    SortContents(admitted.value, TimeOrder);
    SortNoDup(admitted.value, TimeOrder);
    var routine, urgent := GroupEvents(ordered);
    GroupsNonEmpty(routine, u, false);
    GroupsNonEmpty(urgent, u, true);
    assert forall k | k in routine.keys :: k in Elems(routine.keys);
    assert forall k | k in urgent.keys :: k in Elems(urgent.keys);
    LaneTupleIsLaneItems(p, ws, start, end, routine, u, false);
    LaneTupleIsLaneItems(p, ws, start, end, urgent, u, true);
    if Blank(ws) { return Err(BlankWorkspace); }
    return Ok(Digest(ws, start, end, LaneTuple(p, ws, start, end, routine, false), LaneTuple(p, ws, start, end, urgent, true)));
  }

  // ----- What the builder promises -----

  /** Every accepted batch yields a digest that passes all constructor checks. */
  lemma AcceptedIsValid(p: Platform, events: seq<Event>, ws: string, start: int, end: int,
                        auth: (string, string) -> bool, maxEvents: int)
    requires p.GoodItemIds() && forall e | e in events :: ValidEvent(e)
    requires Acceptable(events, ws, start, end, auth, maxEvents)
    ensures BatchOk(ws, Elems(events))
    ensures ValidDigest(DigestOf(p, ws, start, end, Elems(events)))
  {
    DigestIsValid(p, ws, start, end, Elems(events));
  }

  /** Reordering a batch, or repeating its events within the bound, changes neither the verdict nor the digest. */
  lemma OrderAndRepetitionFree(p: Platform, a: seq<Event>, b: seq<Event>, ws: string, start: int, end: int,
                               auth: (string, string) -> bool, maxEvents: int)
    requires Elems(a) == Elems(b) && |a| <= maxEvents && |b| <= maxEvents
    ensures Acceptable(a, ws, start, end, auth, maxEvents) <==> Acceptable(b, ws, start, end, auth, maxEvents)
    ensures Acceptable(a, ws, start, end, auth, maxEvents) ==>
              DigestOf(p, ws, start, end, Elems(a)) == DigestOf(p, ws, start, end, Elems(b))
  {
    assert forall e :: e in a <==> e in Elems(a);
    assert forall e :: e in b <==> e in Elems(b);
  }

  // ----- When `logical_event_count` counts underlying events -----

  datatype Underlying = Copy(key: string) | Single(eventId: string)

  function UnderlyingOf(e: Event): Underlying {
    if e.duplicateKey.Some? then Copy(e.duplicateKey.value) else Single(e.eventId)
  }

  const ToUnderlying: Event -> Underlying := e => UnderlyingOf(e)
  const ToLogicalKey: Underlying -> string := (x: Underlying) => if x.Copy? then x.key else "event:" + x.eventId

  /** A declared copy key that spells another event's fallback key. */
  ghost predicate Clash(u: set<Event>) {
    exists e, f | e in u && f in u :: f.duplicateKey.None? && e.duplicateKey == Some("event:" + f.eventId)
  }

  /** The logical count is the number of distinct underlying events exactly when no copy key spells a fallback key. */
  lemma LogicalCountExact(s: seq<Event>)
    ensures |LogicalKeys(s)| == |Image(ToUnderlying, Elems(s))| <==> !Clash(Elems(s))
  {
    var us := Image(ToUnderlying, Elems(s));
    forall k ensures k in LogicalKeys(s) <==> k in Image(ToLogicalKey, us) {
      if k in LogicalKeys(s) {
        var e :| e in Elems(s) && Logical(e) == k;
        assert ToUnderlying(e) in us && ToLogicalKey(ToUnderlying(e)) == k;
      }
      if k in Image(ToLogicalKey, us) {
        var x :| x in us && ToLogicalKey(x) == k;
        var e :| e in Elems(s) && ToUnderlying(e) == x;
        assert Logical(e) == k;
      }
    }
    assert LogicalKeys(s) == Image(ToLogicalKey, us);
    ImageCard(ToLogicalKey, us);
    if Clash(Elems(s)) {
      var e, f :| e in Elems(s) && f in Elems(s) && f.duplicateKey.None? && e.duplicateKey == Some("event:" + f.eventId);
      assert ToUnderlying(e) in us && ToUnderlying(f) in us;
      assert ToLogicalKey(ToUnderlying(e)) == ToLogicalKey(ToUnderlying(f));
    } else {
      forall x, y | x in us && y in us && ToLogicalKey(x) == ToLogicalKey(y) ensures x == y {
        var e :| e in Elems(s) && ToUnderlying(e) == x;
        var f :| f in Elems(s) && ToUnderlying(f) == y;
        if x.Single? && y.Single? {
          assert ToLogicalKey(x)[6..] == x.eventId;
          assert ToLogicalKey(y)[6..] == y.eventId;
        }
      }
    }
  }

  lemma PlainNames()
    ensures !Blank("a") && !Blank("b") && !Blank("w") && !Blank("s") && !Blank("r") && !Blank("t")
    ensures !Blank("topic") && !Blank("event:a") && "event:" + "a" == "event:a"
  {
    assert !Space("a"[0]) && !Space("b"[0]) && !Space("w"[0]) && !Space("s"[0]) && !Space("r"[0]) && !Space("t"[0]);
    assert !Space("topic"[0]) && !Space("event:a"[0]);
  }

  /** Such a clash is possible: two unrelated routine updates reported as one update and one copy. */
  lemma LogicalCountCanMerge()
    ensures var a := Event("a", "w", "s", "r", 0, "t", Normal, Some("topic"), false, None);
            var b := Event("b", "w", "s", "r", 0, "t", Normal, Some("topic"), false, Some("event:a"));
            && ValidEvent(a) && ValidEvent(b) && GroupKey(a) == GroupKey(b) && UnderlyingOf(a) != UnderlyingOf(b)
            && |LogicalKeys([a, b])| == 1
  {
    var a := Event("a", "w", "s", "r", 0, "t", Normal, Some("topic"), false, None);
    var b := Event("b", "w", "s", "r", 0, "t", Normal, Some("topic"), false, Some("event:a"));
    PlainNames();
    assert a in Elems([a, b]) && Logical(a) in LogicalKeys([a, b]);
    assert LogicalKeys([a, b]) == {"event:a"};
  }
}
