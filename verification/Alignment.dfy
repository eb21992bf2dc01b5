/** The stored cursor always fits the stored cadence, and only a reset takes it back. */
module Alignment {
  import opened Basics
  import opened Platforms
  import opened Windows
  import opened Schedules
  import opened Production

  /** A producer that starts works from a schedule some save returned, so its advances are fenced by a revision. */
  ghost predicate FencedAction(w: World, a: Action) {
    a.Begin? ==> a.schedule.revision > 0 && a.schedule in w.history
  }

  ghost predicate FencedRun(p: Platform, w: World, actions: seq<Action>)
    requires Legal(p, w, actions)
  {
    actions != [] ==>
      var n := |actions| - 1;
      FencedRun(p, w, actions[..n]) && FencedAction(Exec(p, w, actions[..n]), actions[n])
  }

  /** Revisions order the saved schedules of a recipient, the stored one being the latest. */
  ghost predicate HistoryOk(schedules: map<Key, Schedule>, history: set<Schedule>) {
    && (forall k | k in schedules ::
          KeyOf(schedules[k]) == k && ValidSchedule(schedules[k]) && schedules[k].revision >= 1 && schedules[k] in history)
    && (forall s | s in history ::
          && KeyOf(s) in schedules && s.revision <= schedules[KeyOf(s)].revision
          && (s.revision == schedules[KeyOf(s)].revision ==> s == schedules[KeyOf(s)]))
  }

  ghost predicate OnCadence(t: Tables, k: Key) {
    k in t.cursors ==> k in t.schedules && t.schedules[k].cadence > 0 && Aligned(t.cursors[k], t.schedules[k].cadence)
  }

  ghost predicate CursorsAligned(t: Tables) {
    forall k | k in t.cursors :: OnCadence(t, k)
  }

  ghost predicate PlanAligned(pr: Producer) {
    && ValidSchedule(pr.schedule) && pr.schedule.revision > 0
    && forall i | 0 <= i < |pr.remaining| :: Aligned(pr.remaining[i].end, pr.schedule.cadence)
  }

  ghost predicate PlansAligned(producers: map<nat, Producer>, history: set<Schedule>) {
    forall pid | pid in producers :: PlanAligned(producers[pid]) && producers[pid].schedule in history
  }

  ghost predicate AlignInv(w: World) {
    HistoryOk(w.tables.schedules, w.history) && CursorsAligned(w.tables) && PlansAligned(w.producers, w.history)
  }

  lemma SaveKeepsHistory(t: Tables, history: set<Schedule>, s: Schedule, reset: bool)
    requires ValidSchedule(s) && HistoryOk(t.schedules, history)
    ensures HistoryOk(Saved(t, s, reset).schedules, history + {SavedRow(t, s)})
  {
    assert ValidSchedule(SavedRow(t, s));
  }

  lemma SaveKeepsAligned(t: Tables, s: Schedule, reset: bool, k: Key)
    requires ValidSchedule(s) && OnCadence(t, KeyOf(s)) && OnCadence(t, k) && (TimingChanged(t, s) ==> reset)
    ensures OnCadence(Saved(t, s, reset), k)
  {
    if KeyOf(s) in t.cursors {
      FloorBoundaryGreatest(t.cursors[KeyOf(s)], s.cadence);
    }
  }

  lemma SaveKeepsCursorsAligned(t: Tables, s: Schedule, reset: bool)
    requires ValidSchedule(s) && CursorsAligned(t) && (TimingChanged(t, s) ==> reset)
    ensures CursorsAligned(Saved(t, s, reset))
  {
    var t' := Saved(t, s, reset);
    forall k | k in t'.cursors ensures OnCadence(t', k) {
      SaveKeepsAligned(t, s, reset, k);
    }
  }

  lemma SaveStepAligned(p: Platform, w: World, a: Action)
    requires a.Save? && Enabled(p, w, a) && AlignInv(w)
    ensures AlignInv(Apply(p, w, a))
  {
    SaveKeepsHistory(w.tables, w.history, a.saved, a.reset);
    SaveKeepsCursorsAligned(w.tables, a.saved, a.reset);
    assert PlansAligned(w.producers, w.history + {SavedRow(w.tables, a.saved)});
  }

  lemma BeginKeepsAligned(p: Platform, w: World, a: Action)
    requires a.Begin? && FencedAction(w, a) && Enabled(p, w, a) && AlignInv(w)
    ensures AlignInv(Apply(p, w, a))
  {
    var pr := Producer(a.schedule, CursorAt(w.tables, KeyOf(a.schedule)), Plan(w.tables, a.schedule, a.now).value, false);
    PlanExact(From(pr), a.now, a.schedule.cadence, a.schedule.delay, a.schedule.maxWindows);
    assert PlanAligned(pr);
    assert PlansAligned(w.producers[a.pid := pr], w.history);
  }

  /** A fenced compare-and-set writes a boundary of the stored cadence, because the fence pins the schedule. */
  lemma CasKeepsAligned(w: World, pr: Producer, k: Key)
    requires HistoryOk(w.tables.schedules, w.history) && PlanAligned(pr) && pr.schedule in w.history && pr.remaining != [] && OnCadence(w.tables, k)
    ensures OnCadence(Cas(w.tables, KeyOf(pr.schedule), pr.stored, pr.remaining[0].end, Revision(pr.schedule)).0, k)
  {
  }

  lemma PlanAlignedTail(pr: Producer, stored: Option<int>)
    requires PlanAligned(pr) && pr.remaining != []
    ensures PlanAligned(pr.(stored := stored, remaining := pr.remaining[1..], posted := false))
  {
    var t := pr.remaining[1..];
    forall i | 0 <= i < |t| ensures Aligned(t[i].end, pr.schedule.cadence) {
      assert t[i] == pr.remaining[i + 1];
    }
  }

  lemma CasKeepsCursorsAligned(w: World, pr: Producer)
    requires HistoryOk(w.tables.schedules, w.history) && CursorsAligned(w.tables)
    requires PlanAligned(pr) && pr.schedule in w.history && pr.remaining != []
    ensures CursorsAligned(Cas(w.tables, KeyOf(pr.schedule), pr.stored, pr.remaining[0].end, Revision(pr.schedule)).0)
  {
    var t := Cas(w.tables, KeyOf(pr.schedule), pr.stored, pr.remaining[0].end, Revision(pr.schedule)).0;
    forall k | k in t.cursors ensures OnCadence(t, k) {
      assert OnCadence(w.tables, k);
      CasKeepsAligned(w, pr, k);
    }
  }

  lemma AdvanceKeepsAligned(p: Platform, w: World, a: Action)
    requires a.Advance? && Enabled(p, w, a) && AlignInv(w)
    ensures AlignInv(Apply(p, w, a))
  {
    var pr := w.producers[a.pid];
    var end := pr.remaining[0].end;
    CasKeepsCursorsAligned(w, pr);
    PlanAlignedTail(pr, Some(end));
    assert PlansAligned(w.producers[a.pid := pr.(stored := Some(end), remaining := pr.remaining[1..], posted := false)], w.history);
    assert PlansAligned(w.producers - {a.pid}, w.history);
  }

  lemma PostKeepsAligned(p: Platform, w: World, a: Action)
    requires (a.Post? || a.Stop?) && Enabled(p, w, a) && AlignInv(w)
    ensures AlignInv(Apply(p, w, a))
  {
    assert PlanAligned(w.producers[a.pid].(posted := true));
    assert PlansAligned(w.producers[a.pid := w.producers[a.pid].(posted := true)], w.history);
    assert PlansAligned(w.producers - {a.pid}, w.history);
  }

  lemma StepKeepsAligned(p: Platform, w: World, a: Action)
    requires FencedAction(w, a) && Enabled(p, w, a) && AlignInv(w)
    ensures AlignInv(Apply(p, w, a))
  {
    match a
    case Save(_, _, _) => SaveStepAligned(p, w, a);
    case Begin(_, _, _) => BeginKeepsAligned(p, w, a);
    case Post(_, _, _, _) => PostKeepsAligned(p, w, a);
    case Advance(_) => AdvanceKeepsAligned(p, w, a);
    case Stop(_) => PostKeepsAligned(p, w, a);
  }

  lemma {:induction false} RunKeepsAligned(p: Platform, w: World, actions: seq<Action>)
    requires AlignInv(w) && Legal(p, w, actions) && FencedRun(p, w, actions)
    ensures AlignInv(Exec(p, w, actions))
  {
    if actions != [] {
      var n := |actions| - 1;
      RunKeepsAligned(p, w, actions[..n]);
      StepKeepsAligned(p, Exec(p, w, actions[..n]), actions[n]);
    }
  }

  /**
   * Cursor alignment, in every fenced run from an empty store: a stored cursor is a boundary of the
   * stored cadence, so a producer that holds the current schedule is never turned away as misaligned.
   */
  lemma CursorAlignment(p: Platform, actions: seq<Action>, key: Key, now: int)
    requires Legal(p, EMPTY, actions) && FencedRun(p, EMPTY, actions)
    ensures var t := Exec(p, EMPTY, actions).tables;
            && (key in t.cursors ==> key in t.schedules && t.schedules[key].cadence > 0
                                     && Aligned(t.cursors[key], t.schedules[key].cadence))
            && (key in t.schedules ==> Plan(t, t.schedules[key], now) != Err(Misaligned))
  {
    RunKeepsAligned(p, EMPTY, actions);
    var t := Exec(p, EMPTY, actions).tables;
    if key in t.schedules {
      var s := t.schedules[key];
      ValidScheduleAligned(s);
      AlignedIsSecondsAligned(s.startAt, s.cadence);
      if key in t.cursors {
        AlignedIsSecondsAligned(t.cursors[key], s.cadence);
      }
    }
  }

  // ----- Which way the cursor moves -----

  /** In any world, fenced or not: only a save with reset takes a cursor back or away, and no save takes it forward. */
  lemma CursorMotion(p: Platform, w: World, a: Action, key: Key)
    requires Enabled(p, w, a) && ProducersOk(w)
    ensures var c, c' := CursorAt(w.tables, key), CursorAt(Apply(p, w, a).tables, key);
            && (c.Some? && (c'.None? || c'.value < c.value) ==> a.Save? && a.reset && KeyOf(a.saved) == key)
            && (a.Save? && c'.Some? ==> c.Some? && c'.value <= c.value)
  {
    if a.Save? {
      SaveNeverAdvances(w.tables, a.saved, a.reset, key);
    } else if a.Advance? {
      var pr := w.producers[a.pid];
      assert ProducerOk(w, pr);
      TilingTail(pr.remaining, From(pr), pr.schedule.cadence);
    }
  }

  ghost predicate Resets(a: Action, key: Key) {
    a.Save? && a.reset && KeyOf(a.saved) == key
  }

  /** Over any run without a reset of this recipient's schedule the cursor only grows. */
  lemma {:induction false} MonotoneWithoutReset(p: Platform, w: World, actions: seq<Action>, key: Key)
    requires ProducersOk(w) && Legal(p, w, actions) && key in w.tables.cursors
    requires forall a | a in actions :: !Resets(a, key)
    ensures key in Exec(p, w, actions).tables.cursors
    ensures w.tables.cursors[key] <= Exec(p, w, actions).tables.cursors[key]
  {
    if actions != [] {
      var n := |actions| - 1;
      MonotoneWithoutReset(p, w, actions[..n], key);
      RunKeepsProducers(p, w, actions[..n]);
      CursorMotion(p, Exec(p, w, actions[..n]), actions[n], key);
      assert !Resets(actions[n], key);
    }
  }
}
