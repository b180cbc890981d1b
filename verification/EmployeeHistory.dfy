/** The append-only log of pay and status changes
    (app/services/employee_history.py) and the employee update that feeds it
    (app/api/v1/employees.py). */
module EmployeeHistory {
  import opened Base

  /** An attribute's value. The pay frequency is a string enumeration, equal to
      its own text. */
  datatype Value = Null | Int(n: int) | Text(s: string)

  type Fields = map<string, Value>

  const COMPENSATION_FIELDS: seq<string> :=
    ["basic_minor", "housing_minor", "transport_minor", "other_earnings_minor", "pay_frequency"]

  datatype Event =
    | CompensationChange(employee: Uuid, effectiveDate: int, from: Fields, to: Fields)
    | StatusChange(employee: Uuid, effectiveDate: int, fromState: string, toState: string)

  /** dict.get: None for a missing key. */
  function Get(fields: Fields, field: string): Value {
    if field in fields then fields[field] else Null
  }

  /** The fields, among the given ones, that an update changes. */
  function Changed(fields: seq<string>, before: Fields, after: Fields): set<string> {
    if fields == [] then {}
    else
      var last := fields[|fields| - 1];
      Changed(fields[..|fields| - 1], before, after)
      + if last in after && Get(before, last) != after[last] then {last} else {}
  }

  lemma {:induction false} ChangedMembers(fields: seq<string>, before: Fields, after: Fields)
    ensures forall f :: f in Changed(fields, before, after) <==> f in fields && f in after && Get(before, f) != after[f]
  {
    if fields != [] {
      ChangedMembers(fields[..|fields| - 1], before, after);
      assert fields == fields[..|fields| - 1] + [fields[|fields| - 1]];
    }
  }

  lemma NothingToRecordIff(fields: seq<string>, before: Fields, after: Fields)
    ensures Restrict(after, Changed(fields, before, after)) == map[] <==> Changed(fields, before, after) == {}
  {
    var changed := Changed(fields, before, after);
    ChangedMembers(fields, before, after);
    if changed != {} {
      var f :| f in changed;
      assert f in Restrict(after, changed);
    }
  }

  function Restrict(fields: Fields, names: set<string>): Fields {
    map f | f in fields && f in names :: fields[f]
  }

  /** The before values of the changed fields, as the event stores them. */
  function FromValues(before: Fields, changed: set<string>): Fields {
    map f | f in changed :: Get(before, f)
  }

  /** What record_compensation_change appends: one event, or none. */
  function Recorded(employee: Uuid, before: Fields, after: Fields, date: int): seq<Event> {
    var changed := Changed(COMPENSATION_FIELDS, before, after);
    if changed == {} then []
    else [CompensationChange(employee, date, FromValues(before, changed), Restrict(after, changed))]
  }

  predicate InPeriod(e: Event, employee: Uuid, start: int, end: int) {
    e.CompensationChange? && e.employee == employee && start < e.effectiveDate <= end
  }

  /** earliest_compensation_change_in_period: the change that splits a pay
      period, the least effective date in (start, end]. */
  function EarliestInPeriod(events: seq<Event>, employee: Uuid, start: int, end: int): (r: Option<Event>)
    ensures r.None? <==> forall e :: e in events ==> !InPeriod(e, employee, start, end)
    ensures r.Some? ==> r.value in events && InPeriod(r.value, employee, start, end)
    ensures r.Some? ==> forall e :: e in events && InPeriod(e, employee, start, end) ==>
        r.value.effectiveDate <= e.effectiveDate
  {
    if events == [] then None
    else
      var rest := EarliestInPeriod(events[1..], employee, start, end);
      if InPeriod(events[0], employee, start, end)
          && (rest.None? || events[0].effectiveDate <= rest.value.effectiveDate)
      then Some(events[0])
      else rest
  }

  class Records {
    var figures: map<Uuid, Fields>
    var events: seq<Event>

    constructor (figures: map<Uuid, Fields>)
      ensures this.figures == figures && events == []
    {
      this.figures, events := figures, [];
    }

    method RecordStatusChange(employee: Uuid, fromState: string, toState: string, date: int)
      modifies this`events
      ensures events == old(events) + if fromState == toState then []
          else [StatusChange(employee, date, fromState, toState)]
    {
      if fromState == toState {
        return;
      }
      events := events + [StatusChange(employee, date, fromState, toState)];
    }

    method RecordCompensationChange(employee: Uuid, before: Fields, after: Fields, date: int)
      modifies this`events
      ensures events == old(events) + Recorded(employee, before, after, date)
    {
      var changedFrom, changedTo := Difference(COMPENSATION_FIELDS, before, after);
      if changedTo == map[] {
        return;
      }
      events := events + [CompensationChange(employee, date, changedFrom, changedTo)];
    }

    /** The comparison loop, which fills the event's two maps. */
    method Difference(fields: seq<string>, before: Fields, after: Fields)
      returns (changedFrom: Fields, changedTo: Fields)
      ensures changedFrom == FromValues(before, Changed(fields, before, after))
      ensures changedTo == Restrict(after, Changed(fields, before, after))
      ensures changedTo == map[] <==> Changed(fields, before, after) == {}
    {
      changedFrom, changedTo := map[], map[];
      for i := 0 to |fields|
        invariant changedFrom == FromValues(before, Changed(fields[..i], before, after))
        invariant changedTo == Restrict(after, Changed(fields[..i], before, after))
      {
        var field := fields[i];
        assert fields[..i + 1][..i] == fields[..i];
        if field !in after {
          continue;
        }
        var oldValue, newValue := Get(before, field), after[field];
        if oldValue == newValue {
          continue;
        }
        changedFrom := changedFrom[field := oldValue];
        changedTo := changedTo[field := newValue];
      }
      assert fields[..|fields|] == fields;
      NothingToRecordIff(fields, before, after);
    }

    /** update_employee: snapshots the attributes being changed, sets them, and
        records the change. */
    method UpdateEmployee(employee: Uuid, changes: Fields, date: int)
      requires employee in figures && changes.Keys <= figures[employee].Keys
      modifies this
      ensures figures == old(figures)[employee := old(figures)[employee] + changes]
      ensures events == old(events) + Recorded(employee, Restrict(old(figures)[employee], changes.Keys), changes, date)
    {
      var before := Restrict(figures[employee], changes.Keys);
      figures := figures[employee := figures[employee] + changes];
      RecordCompensationChange(employee, before, changes, date);
    }
  }

  // ----- Replay and undo -----

  function TrackedNames(): set<string> {
    set f | f in COMPENSATION_FIELDS
  }

  /** The pay-affecting part of a record. */
  function Tracked(fields: Fields): Fields {
    Restrict(fields, TrackedNames())
  }

  /** Applies the events' "to" maps, oldest first. */
  function Replay(initial: Fields, events: seq<Event>, employee: Uuid): Fields {
    if events == [] then initial
    else
      var e := events[|events| - 1];
      var before := Replay(initial, events[..|events| - 1], employee);
      if e.CompensationChange? && e.employee == employee then before + e.to else before
  }

  /** Applies the events' "from" maps, newest first. */
  function Undo(final: Fields, events: seq<Event>, employee: Uuid): Fields
    decreases |events|
  {
    if events == [] then final
    else
      var e := events[|events| - 1];
      Undo(if e.CompensationChange? && e.employee == employee then final + e.from else final,
           events[..|events| - 1], employee)
  }

  datatype Update = Update(employee: Uuid, changes: Fields, date: int)

  datatype State = State(figures: map<Uuid, Fields>, events: seq<Event>)

  function Step(s: State, u: Update): State {
    if u.employee !in s.figures || !(u.changes.Keys <= s.figures[u.employee].Keys) then s
    else
      var before := s.figures[u.employee];
      State(s.figures[u.employee := before + u.changes],
            s.events + Recorded(u.employee, Restrict(before, u.changes.Keys), u.changes, u.date))
  }

  function Run(s: State, updates: seq<Update>): State {
    if updates == [] then s else Step(Run(s, updates[..|updates| - 1]), updates[|updates| - 1])
  }

  /** One update with a full snapshot: its event, if any, takes the tracked
      figures forward and back; there is one exactly when they changed. */
  lemma UpdateIsItsEvent(employee: Uuid, current: Fields, changes: Fields, date: int)
    requires changes.Keys <= current.Keys
    ensures var events := Recorded(employee, Restrict(current, changes.Keys), changes, date);
            var after := Tracked(current + changes);
            && (events == [] <==> after == Tracked(current))
            && (events != [] ==> Tracked(current) + events[0].to == after && after + events[0].from == Tracked(current))
  {
    var before := Restrict(current, changes.Keys);
    var changed := Changed(COMPENSATION_FIELDS, before, changes);
    ChangedMembers(COMPENSATION_FIELDS, before, changes);
    TrackedUpdate(TrackedNames(), current, changes, changed);
  }

  /** The same for any set of tracked names. */
  lemma TrackedUpdate(names: set<string>, current: Fields, changes: Fields, changed: set<string>)
    requires changes.Keys <= current.Keys
    requires forall f :: f in changed <==> f in names && f in changes && current[f] != changes[f]
    ensures var (was, now) := (Restrict(current, names), Restrict(current + changes, names));
            && (changed == {} <==> now == was)
            && was + Restrict(changes, changed) == now
            && now + FromValues(Restrict(current, changes.Keys), changed) == was
  {
    if f :| f in changed {
      assert Restrict(current + changes, names)[f] != Restrict(current, names)[f];
    }
  }

  /** After any sequence of updates, replaying an employee's events over the
      initial figures gives the current ones. */
  lemma {:induction false} ReplayGivesCurrent(figures: map<Uuid, Fields>, updates: seq<Update>, employee: Uuid)
    requires employee in figures
    ensures var s := Run(State(figures, []), updates);
            && employee in s.figures
            && Replay(Tracked(figures[employee]), s.events, employee) == Tracked(s.figures[employee])
  {
    hide Recorded, Tracked, Restrict;
    if updates != [] {
      var front, u := updates[..|updates| - 1], updates[|updates| - 1];
      ReplayGivesCurrent(figures, front, employee);
      var s := Run(State(figures, []), front);
      if u.employee in s.figures && u.changes.Keys <= s.figures[u.employee].Keys {
        var current := s.figures[u.employee];
        UpdateIsItsEvent(u.employee, current, u.changes, u.date);
        RecordedShape(u.employee, Restrict(current, u.changes.Keys), u.changes, u.date);
        AppendRecorded(s.events, Recorded(u.employee, Restrict(current, u.changes.Keys), u.changes, u.date));
      }
    }
  }

  lemma RecordedShape(employee: Uuid, before: Fields, after: Fields, date: int)
    ensures var r := Recorded(employee, before, after, date);
            r == [] || (|r| == 1 && r[0].CompensationChange? && r[0].employee == employee)
  {
  }

  lemma AppendRecorded(events: seq<Event>, added: seq<Event>)
    requires |added| <= 1
    ensures added == [] ==> events + added == events
    ensures added != [] ==> (events + added)[..|events|] == events && (events + added)[|events|] == added[0]
  {
  }

  /** And undoing them, newest first, restores the initial figures. */
  lemma {:induction false} UndoRestoresInitial(figures: map<Uuid, Fields>, updates: seq<Update>, employee: Uuid)
    requires employee in figures
    ensures var s := Run(State(figures, []), updates);
            && employee in s.figures
            && Undo(Tracked(s.figures[employee]), s.events, employee) == Tracked(figures[employee])
  {
    hide Recorded, Tracked, Restrict;
    if updates != [] {
      var front, u := updates[..|updates| - 1], updates[|updates| - 1];
      UndoRestoresInitial(figures, front, employee);
      var s := Run(State(figures, []), front);
      if u.employee in s.figures && u.changes.Keys <= s.figures[u.employee].Keys {
        var current := s.figures[u.employee];
        UpdateIsItsEvent(u.employee, current, u.changes, u.date);
        RecordedShape(u.employee, Restrict(current, u.changes.Keys), u.changes, u.date);
        AppendRecorded(s.events, Recorded(u.employee, Restrict(current, u.changes.Keys), u.changes, u.date));
      }
    }
  }

  /** Left to itself, record_compensation_change gives an event that undoes the
      update exactly when the snapshot it was handed shows the record's value
      for every tracked field being updated. */
  lemma UndoNeedsAFullSnapshot(employee: Uuid, current: Fields, before: Fields, changes: Fields, date: int)
    requires changes.Keys <= current.Keys
    ensures var events := Recorded(employee, before, changes, date);
            Undo(Tracked(current + changes), events, employee) == Tracked(current)
            <==> forall f :: f in COMPENSATION_FIELDS && f in changes ==> Get(before, f) == current[f]
  {
    var events := Recorded(employee, before, changes, date);
    var changed := Changed(COMPENSATION_FIELDS, before, changes);
    ChangedMembers(COMPENSATION_FIELDS, before, changes);
    var undone := Undo(Tracked(current + changes), events, employee);
    UndoOfRecorded(Tracked(current + changes), employee, before, changes, date);
    assert undone == Tracked(current + changes) + FromValues(before, changed);
    UndoneFields(TrackedNames(), current, before, changes, changed);
  }

  lemma UndoOfRecorded(final: Fields, employee: Uuid, before: Fields, changes: Fields, date: int)
    ensures Undo(final, Recorded(employee, before, changes, date), employee)
            == final + FromValues(before, Changed(COMPENSATION_FIELDS, before, changes))
  {
    var events := Recorded(employee, before, changes, date);
    if events != [] {
      assert events[..0] == [];
    }
  }

  lemma UndoneFields(names: set<string>, current: Fields, before: Fields, changes: Fields, changed: set<string>)
    requires changes.Keys <= current.Keys
    requires forall f :: f in changed <==> f in names && f in changes && Get(before, f) != changes[f]
    ensures Restrict(current + changes, names) + FromValues(before, changed) == Restrict(current, names)
            <==> forall f :: f in names && f in changes ==> Get(before, f) == current[f]
  {
    var undone, was := Restrict(current + changes, names) + FromValues(before, changed), Restrict(current, names);
    assert undone.Keys == was.Keys;
    assert forall f :: f in names && f in changes ==> undone[f] == Get(before, f) && was[f] == current[f];
    assert forall f :: f in was && f !in changes ==> undone[f] == was[f];
  }

  // ----- What the split lookup finds -----

  /** An update of tracked figures is what the lookup finds, at its own date, in
      every period that holds that date and no earlier change of the employee; a
      period that does not hold it is read as before. */
  lemma LookupFindsTheUpdate(s: State, u: Update, start: int, end: int)
    requires u.employee in s.figures && u.changes.Keys <= s.figures[u.employee].Keys
    requires exists f :: f in COMPENSATION_FIELDS && f in u.changes && u.changes[f] != s.figures[u.employee][f]
    requires forall e :: e in s.events && InPeriod(e, u.employee, start, end) ==> e.effectiveDate > u.date
    ensures var found := EarliestInPeriod(Step(s, u).events, u.employee, start, end);
            && (start < u.date <= end ==>
                  && found.Some? && found.value.effectiveDate == u.date && found.value.employee == u.employee
                  && found.value.to.Keys == (set f | f in u.changes && f in COMPENSATION_FIELDS
                                                   && u.changes[f] != s.figures[u.employee][f]))
            && (u.date <= start || end < u.date ==> found == EarliestInPeriod(s.events, u.employee, start, end))
  {
    var current := s.figures[u.employee];
    var before := Restrict(current, u.changes.Keys);
    var changed := Changed(COMPENSATION_FIELDS, before, u.changes);
    ChangedMembers(COMPENSATION_FIELDS, before, u.changes);
    var added := Recorded(u.employee, before, u.changes, u.date);
    var f :| f in COMPENSATION_FIELDS && f in u.changes && u.changes[f] != current[f];
    assert f in changed;
    assert added == [CompensationChange(u.employee, u.date, FromValues(before, changed), Restrict(u.changes, changed))];
    assert added[0].to.Keys == changed;
    assert added[0] in Step(s, u).events;
    if u.date <= start || end < u.date {
      OutsideIsNotFound(s.events, added[0], u.employee, start, end);
    }
  }

  lemma {:induction false} OutsideIsNotFound(events: seq<Event>, e: Event, employee: Uuid, start: int, end: int)
    requires !InPeriod(e, employee, start, end)
    ensures EarliestInPeriod(events + [e], employee, start, end) == EarliestInPeriod(events, employee, start, end)
  {
    if events == [] {
      assert [] + [e] == [e] && [e][1..] == [];
    } else {
      assert (events + [e])[1..] == events[1..] + [e];
      OutsideIsNotFound(events[1..], e, employee, start, end);
    }
  }
}
