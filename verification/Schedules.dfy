/** The two tables of the schedule store, and its two transactions. */
module Schedules {
  import opened Basics
  import opened Text
  import opened Windows

  datatype Key = Key(workspace: string, recipient: string)

  datatype Schedule = Schedule(
    workspaceId: string, recipientId: string, startAt: int, enabled: bool, cadence: int, delay: int,
    maxWindows: int, maxSources: int, maxEvents: int, revision: int)

  function KeyOf(s: Schedule): Key {
    Key(s.workspaceId, s.recipientId)
  }

  /** What constructing a `NotificationSchedule` guarantees. */
  predicate ValidSchedule(s: Schedule) {
    && !Blank(s.workspaceId) && !Blank(s.recipientId)
    && s.cadence >= 1 && s.delay >= 0
    && 1 <= s.maxWindows <= 168 && 1 <= s.maxSources <= 1000 && 1 <= s.maxEvents <= 10000
    && s.revision >= 0
    && ClosedWindows(s.startAt, s.startAt, s.cadence, s.delay, s.maxWindows).Ok?
  }

  lemma ValidScheduleAligned(s: Schedule)
    requires ValidSchedule(s)
    ensures Aligned(s.startAt, s.cadence)
  {
    PlanExact(s.startAt, s.startAt, s.cadence, s.delay, s.maxWindows);
  }

  datatype Tables = Tables(schedules: map<Key, Schedule>, cursors: map<Key, int>)

  datatype StoreError = NotMonotone | BadRevision | NoSuchSchedule | RevisionChanged | NeedsReset

  /** Whether a cursor update presented with this revision is still allowed. */
  predicate Fenced(t: Tables, key: Key, revision: Option<int>) {
    revision.Some? ==> key in t.schedules && t.schedules[key].revision == revision.value
  }

  function CursorAt(t: Tables, key: Key): Option<int> {
    if key in t.cursors then Some(t.cursors[key]) else None
  }

  /** The effect of `compare_and_set_cursor` when it does not raise: `true` exactly if the row was as expected. */
  function Cas(t: Tables, key: Key, expected: Option<int>, value: int, revision: Option<int>): (Tables, bool) {
    if Fenced(t, key, revision) && CursorAt(t, key) == expected then (t.(cursors := t.cursors[key := value]), true)
    else (t, false)
  }

  predicate TimingChanged(t: Tables, s: Schedule) {
    KeyOf(s) in t.schedules
    && (t.schedules[KeyOf(s)].startAt != s.startAt || t.schedules[KeyOf(s)].cadence != s.cadence)
  }

  /** Why a save is refused; `None` when it is performed. */
  function SaveFault(t: Tables, s: Schedule, expected: Option<int>, reset: bool): Option<StoreError> {
    if expected.Some? && expected.value < 1 then Some(BadRevision)
    else if KeyOf(s) !in t.schedules then (if expected.Some? then Some(NoSuchSchedule) else None)
    else if expected != Some(t.schedules[KeyOf(s)].revision) then Some(RevisionChanged)
    else if TimingChanged(t, s) && !reset then Some(NeedsReset)
    else None
  }

  /** The row a performed save writes. */
  function SavedRow(t: Tables, s: Schedule): Schedule {
    s.(revision := if KeyOf(s) in t.schedules then t.schedules[KeyOf(s)].revision + 1 else 1)
  }

  /** The cursor table after a performed save: reset rewinds to a boundary of the new cadence, or forgets the cursor. */
  function SavedCursors(t: Tables, s: Schedule, reset: bool): map<Key, int>
    requires s.cadence > 0
  {
    var key := KeyOf(s);
    if key !in t.schedules || !reset then t.cursors
    else if TimingChanged(t, s) && key in t.cursors then t.cursors[key := FloorBoundary(t.cursors[key], s.cadence)]
    else t.cursors - {key}
  }

  function Saved(t: Tables, s: Schedule, reset: bool): Tables
    requires s.cadence > 0
  {
    Tables(t.schedules[KeyOf(s) := SavedRow(t, s)], SavedCursors(t, s, reset))
  }

  /** `SQLiteNotificationScheduleStore`. */
  class ScheduleStore {
    var schedules: map<Key, Schedule>
    var cursors: map<Key, int>

    ghost function State(): Tables
      reads this
    {
      Tables(schedules, cursors)
    }

    constructor ()
      ensures State() == Tables(map[], map[])
    {
      schedules, cursors := map[], map[];
    }

    method GetCursor(key: Key) returns (r: Option<int>)
      ensures r == CursorAt(State(), key)
    {
      r := if key in cursors then Some(cursors[key]) else None;
    }

    /** `compare_and_set_cursor`: one transaction, rolled back when the fence or the expectation fails. */
    method CompareAndSetCursor(key: Key, expected: Option<int>, value: int, revision: Option<int>) returns (r: Result<bool, StoreError>)
      modifies this
      ensures r.Err? <==> expected.Some? && value <= expected.value
      ensures r.Err? ==> r.error == NotMonotone && State() == old(State())
      ensures r.Ok? ==> (State(), r.value) == Cas(old(State()), key, expected, value, revision)
    {
      if expected.Some? && value <= expected.value {
        return Err(NotMonotone);
      }
      if revision.Some? {
        if key !in schedules || schedules[key].revision != revision.value {
          return Ok(false);
        }
      }
      var changed;
      if expected.None? {
        // INSERT OR IGNORE
        changed := key !in cursors;
        if changed {
          cursors := cursors[key := value];
        }
      } else {
        // UPDATE ... WHERE cursor_us = expected
        changed := key in cursors && cursors[key] == expected.value;
        if changed {
          cursors := cursors[key := value];
        }
      }
      return Ok(changed);
    }

    /** `save_schedule`: one transaction. */
    method SaveSchedule(s: Schedule, expected: Option<int>, reset: bool) returns (r: Result<Schedule, StoreError>)
      requires ValidSchedule(s)
      modifies this
      ensures var fault := SaveFault(old(State()), s, expected, reset);
              && (fault.Some? ==> r == Err(fault.value) && State() == old(State()))
              && (fault.None? ==> r == Ok(SavedRow(old(State()), s)) && State() == Saved(old(State()), s, reset))
    {
      if expected.Some? && expected.value < 1 {
        return Err(BadRevision);
      }
      var key := KeyOf(s);
      var timingChanged, existing := false, key in schedules;
      var revision := 1;
      if !existing {
        if expected.Some? {
          return Err(NoSuchSchedule);
        }
      } else {
        if expected != Some(schedules[key].revision) {
          return Err(RevisionChanged);
        }
        timingChanged := schedules[key].startAt != s.startAt || schedules[key].cadence != s.cadence;
        if timingChanged && !reset {
          return Err(NeedsReset);
        }
        revision := schedules[key].revision + 1;
      }
      var row := s.(revision := revision);
      schedules := schedules[key := row];
      if existing && reset {
        if timingChanged && key in cursors {
          cursors := cursors[key := FloorBoundary(cursors[key], s.cadence)];
        } else {
          cursors := cursors - {key};
        }
      }
      return Ok(row);
    }
  }

  // ----- How the cursor can move -----

  /** A save moves no other recipient's cursor, and moves its own only on reset, then never forward. */
  lemma SaveNeverAdvances(t: Tables, s: Schedule, reset: bool, key: Key)
    requires s.cadence > 0
    ensures key in Saved(t, s, reset).cursors ==> key in t.cursors && Saved(t, s, reset).cursors[key] <= t.cursors[key]
    ensures key in t.cursors && CursorAt(Saved(t, s, reset), key) != CursorAt(t, key) ==> reset && key == KeyOf(s)
  {
    if key in t.cursors {
      FloorBoundaryGreatest(t.cursors[key], s.cadence);
    }
  }

  /** No update is lost: of two saves that expect the same revision only the first is performed. */
  lemma StaleSaveRefused(t: Tables, first: Schedule, second: Schedule, expected: Option<int>, reset: bool, reset': bool)
    requires first.cadence > 0 && KeyOf(first) == KeyOf(second) && SaveFault(t, first, expected, reset).None?
    ensures SaveFault(Saved(t, first, reset), second, expected, reset').Some?
  {
    assert KeyOf(SavedRow(t, first)) == KeyOf(first);
  }

  /**
    * What a save leaves: its own row under the next revision and all other rows; every cursor, except that a reset of a
    * known schedule forgets its cursor, or takes it to the last boundary of a changed timing.
    */
  lemma SaveEffect(t: Tables, s: Schedule, reset: bool, key: Key)
    requires s.cadence > 0
    ensures var after := Saved(t, s, reset);
            && (key in after.schedules <==> key in t.schedules || key == KeyOf(s))
            && (key != KeyOf(s) ==> CursorAt(after, key) == CursorAt(t, key) && (key in t.schedules ==> after.schedules[key] == t.schedules[key]))
            && (key == KeyOf(s) ==>
                  && after.schedules[key] == s.(revision := after.schedules[key].revision)
                  && after.schedules[key].revision == (if key in t.schedules then t.schedules[key].revision + 1 else 1)
                  && (!reset || key !in t.schedules ==> CursorAt(after, key) == CursorAt(t, key))
                  && (reset && key in t.schedules && t.schedules[key].startAt == s.startAt && t.schedules[key].cadence == s.cadence ==>
                        CursorAt(after, key) == None)
                  && (reset && key in t.schedules && (t.schedules[key].startAt != s.startAt || t.schedules[key].cadence != s.cadence) ==>
                        match CursorAt(t, key)
                        case None => CursorAt(after, key) == None
                        case Some(old') => CursorAt(after, key).Some? && Aligned(CursorAt(after, key).value, s.cadence)
                                           && CursorAt(after, key).value <= old' < CursorAt(after, key).value + s.cadence * SECOND))
  {
    if key in t.cursors {
      FloorBoundaryGreatest(t.cursors[key], s.cadence);
    }
  }

  /** A rewind loses nothing that the old cursor had not passed: at most one new window is repeated. */
  lemma RewindIsTight(t: Tables, s: Schedule)
    requires s.cadence > 0 && TimingChanged(t, s) && KeyOf(s) in t.cursors
    ensures var old', new' := t.cursors[KeyOf(s)], Saved(t, s, true).cursors[KeyOf(s)];
            Aligned(new', s.cadence) && new' <= old' < new' + s.cadence * SECOND
  {
    FloorBoundaryGreatest(t.cursors[KeyOf(s)], s.cadence);
  }
}
