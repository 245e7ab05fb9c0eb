/** The reconcile scheduler: one dispatcher goroutine, six workers, two shared
    maps behind a mutex and an unbuffered channel. */
module ReconcilerScheduler {

  datatype Option<+T> = None | Some(value: T)

  type Id = nat

  /** A moment in nanoseconds; ZERO_TIME is Go's zero time, which `IsZero` recognises. */
  type Time = nat

  const ZERO_TIME: Time := 0
  const SECOND: Time := 1_000_000_000
  const ERROR_DELAY: Time := 5 * SECOND
  const IDLE_DELAY: Time := 3600 * SECOND
  const WORKER_COUNT: nat := 6

  // ---------------------------------------------------------------------
  // The two maps, and what each critical section does to them
  // ---------------------------------------------------------------------

  datatype Table = Table(schedule: map<Id, Time>, running: set<Id>)

  /** Reading a Go map at a missing key yields the zero value. */
  function NextRun(t: Table, id: Id): Time {
    if id in t.schedule then t.schedule[id] else ZERO_TIME
  }

  function Scheduled(t: Table, id: Id, nextRun: Time): Table {
    t.(schedule := t.schedule[id := nextRun])
  }

  function Due(t: Table, now: Time): set<Id> {
    set id | id in t.schedule && t.schedule[id] != ZERO_TIME && t.schedule[id] < now && id !in t.running
  }

  function Cleared(schedule: map<Id, Time>, ids: set<Id>): map<Id, Time> {
    map id | id in schedule :: if id in ids then ZERO_TIME else schedule[id]
  }

  /** The two maps after the ids in `items` were moved from the schedule to `running`. */
  function CollectedFrom(t: Table, items: set<Id>): Table {
    Table(Cleared(t.schedule, items), t.running + items)
  }

  function Collected(t: Table, now: Time): Table {
    CollectedFrom(t, Due(t, now))
  }

  function Failed(t: Table, id: Id, now: Time): Table {
    Table(t.schedule[id := now + ERROR_DELAY], t.running - {id})
  }

  function Succeeded(t: Table, id: Id, now: Time): Table {
    Table(if NextRun(t, id) == ZERO_TIME then t.schedule[id := now + IDLE_DELAY] else t.schedule,
          t.running - {id})
  }

  predicate Distinct<T(==)>(s: seq<T>) {
    forall i, j :: 0 <= i < j < |s| ==> s[i] != s[j]
  }

  function Elements<T>(s: seq<T>): set<T> {
    set x | x in s
  }

  lemma DistinctSnoc<T>(s: seq<T>, x: T, seen: set<T>)
    requires Distinct(s) && Elements(s) == seen && x !in seen
    ensures Distinct(s + [x]) && Elements(s + [x]) == seen + {x}
  {
    assert x !in s;
    assert forall y :: y in s + [x] <==> y in s || y == x;
  }

  /** One iteration of the dispatcher's pass, on a schedule of which only `todo` is left. */
  lemma CollectOne(t: Table, now: Time, due: set<Id>, todo: set<Id>, id: Id, p: Table)
    requires due == Due(t, now) && id in todo && todo <= t.schedule.Keys
    requires p == CollectedFrom(t, due - todo)
    ensures id in p.schedule
    ensures (p.schedule[id] != ZERO_TIME && p.schedule[id] < now && id !in p.running) <==> id in due
    ensures id in due ==> due - (todo - {id}) == (due - todo) + {id}
    ensures id in due ==> CollectedFrom(t, (due - todo) + {id}) == Table(p.schedule[id := ZERO_TIME], p.running + {id})
    ensures id !in due ==> due - (todo - {id}) == due - todo
  {
    assert id !in due - todo;
    if id in due {
      assert (t.running + (due - todo)) + {id} == t.running + ((due - todo) + {id});
    }
  }

  class Scheduler {
    var schedule: map<Id, Time>
    var running: set<Id>

    function Abs(): Table
      reads this
    {
      Table(schedule, running)
    }

    constructor ()
      ensures Abs() == Table(map[], {})
    {
      schedule := map[];
      running := {};
    }

    method Schedule(id: Id, nextRun: Time)
      modifies this
      ensures Abs() == Scheduled(old(Abs()), id, nextRun)
      ensures schedule == old(schedule)[id := nextRun] && running == old(running)
    {
      schedule := schedule[id := nextRun];
    }

    /** The dispatcher's pass over the schedule. Go iterates a map in an
        arbitrary order, so the order of the batch is left open. */
    method CollectDue(now: Time) returns (dueItems: seq<Id>)
      modifies this
      ensures Abs() == Collected(old(Abs()), now)
      ensures Distinct(dueItems)
      ensures Elements(dueItems) == Due(old(Abs()), now)
      ensures forall id :: id in dueItems <==>
                id in old(schedule) && old(schedule)[id] != 0 && old(schedule)[id] < now && id !in old(running)
      ensures schedule == map id | id in old(schedule) :: if id in dueItems then 0 else old(schedule)[id]
      ensures forall id :: id in running <==> id in old(running) || id in dueItems
    {
      ghost var t := Abs();
      ghost var due := Due(t, now);
      dueItems := [];
      var todo := schedule.Keys;
      assert due - todo == {};
      while todo != {}
        invariant todo <= t.schedule.Keys
        invariant Abs() == CollectedFrom(t, due - todo)
        invariant Distinct(dueItems) && Elements(dueItems) == due - todo
        decreases todo
      {
        var id :| id in todo;
        CollectOne(t, now, due, todo, id, Abs());
        var nextRun := schedule[id];
        if nextRun != ZERO_TIME && nextRun < now && id !in running {
          DistinctSnoc(dueItems, id, due - todo);
          running := running + {id};
          schedule := schedule[id := ZERO_TIME];
          dueItems := dueItems + [id];
        }
        todo := todo - {id};
      }
      assert due - todo == due;
      assert forall id :: id in dueItems <==> id in Elements(dueItems);
    }

    /** The end of a worker's iteration after the reconcile function failed. */
    method FinishFailed(id: Id, now: Time)
      modifies this
      ensures Abs() == Failed(old(Abs()), id, now)
      ensures schedule == old(schedule)[id := now + 5_000_000_000] && running == old(running) - {id}
    {
      running := running - {id};
      schedule := schedule[id := now + ERROR_DELAY];
    }

    /** The end of a worker's iteration after the reconcile function succeeded. */
    method FinishSucceeded(id: Id, now: Time)
      modifies this
      ensures Abs() == Succeeded(old(Abs()), id, now)
      ensures running == old(running) - {id}
      ensures schedule == if id in old(schedule) && old(schedule)[id] != 0 then old(schedule)
                          else old(schedule)[id := now + 3_600_000_000_000]
    {
      running := running - {id};
      if id !in schedule || schedule[id] == ZERO_TIME {
        schedule := schedule[id := now + IDLE_DELAY];
      }
    }
  }

  // ---------------------------------------------------------------------
  // The scheduler as a state machine
  // ---------------------------------------------------------------------

  /** `batch` is the part of dueItems the dispatcher has not sent yet;
      `workers[w]` is the id worker w received and has not finished. */
  datatype State = State(table: Table, batch: seq<Id>, workers: seq<Option<Id>>)

  datatype Event =
    | ScheduleCall(id: Id, nextRun: Time)
    | Collect(now: Time, items: seq<Id>)
    | Send(worker: nat)
    | Fail(worker: nat, now: Time)
    | Succeed(worker: nat, now: Time)

  predicate Init(s: State) {
    s == State(Table(map[], {}), [], seq(WORKER_COUNT, i => None))
  }

  predicate Idle(s: State, w: nat) {
    w < |s.workers| && s.workers[w].None?
  }

  predicate Busy(s: State, w: nat) {
    w < |s.workers| && s.workers[w].Some?
  }

  ghost predicate Step(s: State, e: Event, s': State) {
    match e
    case ScheduleCall(id, nextRun) =>
      s' == s.(table := Scheduled(s.table, id, nextRun))
    case Collect(now, items) =>
      && s.batch == []
      && Distinct(items)
      && Elements(items) == Due(s.table, now)
      && s' == s.(table := Collected(s.table, now), batch := items)
    case Send(w) =>
      && s.batch != []
      && Idle(s, w)
      && s' == s.(batch := s.batch[1..], workers := s.workers[w := Some(s.batch[0])])
    case Fail(w, now) =>
      && Busy(s, w)
      && s' == s.(table := Failed(s.table, s.workers[w].value, now), workers := s.workers[w := None])
    case Succeed(w, now) =>
      && Busy(s, w)
      && s' == s.(table := Succeeded(s.table, s.workers[w].value, now), workers := s.workers[w := None])
  }

  function BusyIds(s: State): set<Id> {
    set w | 0 <= w < |s.workers| && s.workers[w].Some? :: s.workers[w].value
  }

  ghost predicate Inv(s: State) {
    && |s.workers| == WORKER_COUNT
    && Distinct(s.batch)
    && (forall v, w :: 0 <= v < w < |s.workers| && Busy(s, v) && Busy(s, w) ==> s.workers[v] != s.workers[w])
    && Elements(s.batch) !! BusyIds(s)
    && s.table.running == Elements(s.batch) + BusyIds(s)
  }

  lemma InitInv(s: State)
    requires Init(s)
    ensures Inv(s)
  {
  }

  lemma SendBusy(s: State, w: nat, s': State)
    requires Inv(s) && Step(s, Send(w), s')
    ensures BusyIds(s') == BusyIds(s) + {s.batch[0]}
    ensures Elements(s.batch) == Elements(s'.batch) + {s.batch[0]}
  {
    assert s'.workers[w].value == s.batch[0];
    forall id | id in BusyIds(s) ensures id in BusyIds(s') {
      var v :| 0 <= v < |s.workers| && s.workers[v].Some? && s.workers[v].value == id;
      assert s'.workers[v].value == id;
    }
    assert s.batch == [s.batch[0]] + s'.batch;
  }

  lemma FinishBusy(s: State, w: nat, s': State)
    requires Inv(s) && Busy(s, w) && s'.workers == s.workers[w := None]
    ensures BusyIds(s') == BusyIds(s) - {s.workers[w].value}
  {
    var gone := s.workers[w].value;
    forall id | id in BusyIds(s) && id != gone ensures id in BusyIds(s') {
      var v :| 0 <= v < |s.workers| && s.workers[v].Some? && s.workers[v].value == id;
      assert s'.workers[v].value == id;
    }
    forall id | id in BusyIds(s') ensures id in BusyIds(s) && id != gone {
      var v :| 0 <= v < |s'.workers| && s'.workers[v].Some? && s'.workers[v].value == id;
      assert v != w && s.workers[v].value == id;
      assert Busy(s, v) && Busy(s, w);
    }
  }

  lemma StepInv(s: State, e: Event, s': State)
    requires Inv(s) && Step(s, e, s')
    ensures Inv(s')
  {
    match e
    case ScheduleCall(_, _) =>
      assert BusyIds(s') == BusyIds(s);
    case Collect(_, _) =>
      assert BusyIds(s') == BusyIds(s);
    case Send(w) =>
      SendBusy(s, w, s');
      assert s.batch[0] in Elements(s.batch);
      assert s.batch[0] !in Elements(s'.batch);
    case Fail(w, _) =>
      FinishBusy(s, w, s');
      assert s.workers[w].value in BusyIds(s);
    case Succeed(w, _) =>
      FinishBusy(s, w, s');
      assert s.workers[w].value in BusyIds(s);
  }

  // ---------------------------------------------------------------------
  // Runs
  // ---------------------------------------------------------------------

  datatype Run = Run(states: seq<State>, events: seq<Event>)

  ghost predicate IsRun(r: Run) {
    && |r.states| == |r.events| + 1
    && Init(r.states[0])
    && forall i :: 0 <= i < |r.events| ==> Step(r.states[i], r.events[i], r.states[i + 1])
  }

  lemma {:induction false} RunInv(r: Run, k: nat)
    requires IsRun(r) && k < |r.states|
    ensures Inv(r.states[k])
  {
    if k == 0 {
      InitInv(r.states[0]);
    } else {
      RunInv(r, k - 1);
      StepInv(r.states[k - 1], r.events[k - 1], r.states[k]);
    }
  }

  /** Single flight: `running` is exactly the unsent batch plus the ids the
      workers hold, and no id occurs twice in either or in both. */
  lemma SingleFlight(r: Run, k: nat)
    requires IsRun(r) && k < |r.states|
    ensures var s := r.states[k];
            && s.table.running == Elements(s.batch) + BusyIds(s)
            && Elements(s.batch) !! BusyIds(s)
            && Distinct(s.batch)
            && forall v: nat, w: nat :: v != w && Busy(s, v) && Busy(s, w) ==> s.workers[v].value != s.workers[w].value
  {
    RunInv(r, k);
    var s := r.states[k];
    forall v: nat, w: nat | v != w && Busy(s, v) && Busy(s, w)
      ensures s.workers[v].value != s.workers[w].value
    {
      if v < w { assert s.workers[v] != s.workers[w]; } else { assert s.workers[w] != s.workers[v]; }
    }
  }

  // ---------------------------------------------------------------------
  // No lost wake-up
  // ---------------------------------------------------------------------

  predicate Dispatches(e: Event, id: Id) {
    e.Collect? && id in e.items
  }

  predicate Unschedules(e: Event, id: Id) {
    e == ScheduleCall(id, ZERO_TIME)
  }

  predicate FailsAt(s: State, e: Event, id: Id, nextRun: Time) {
    e.Fail? && Busy(s, e.worker) && s.workers[e.worker].value == id && nextRun == e.now + ERROR_DELAY
  }

  /** One step never takes away a pending wake-up unless it dispatches the id:
      it survives both endings of a run in progress. */
  lemma WakeSurvivesStep(s: State, e: Event, s': State, id: Id)
    requires Step(s, e, s')
    requires NextRun(s.table, id) != ZERO_TIME
    requires !Dispatches(e, id) && !Unschedules(e, id)
    ensures NextRun(s'.table, id) != ZERO_TIME
    ensures NextRun(s'.table, id) == NextRun(s.table, id)
            || (e.ScheduleCall? && e.id == id)
            || FailsAt(s, e, id, NextRun(s'.table, id))
  {
    if e.Collect? {
      assert id !in Elements(e.items);
    }
  }

  /** A wake-up requested at event i stays pending until a later event dispatches the id. */
  lemma {:induction false} NoLostWakeup(r: Run, i: nat, k: nat, id: Id)
    requires IsRun(r) && i < k < |r.states|
    requires r.events[i].ScheduleCall? && r.events[i].id == id && r.events[i].nextRun != ZERO_TIME
    requires forall j :: i < j < k ==> !Dispatches(r.events[j], id) && !Unschedules(r.events[j], id)
    ensures NextRun(r.states[k].table, id) != ZERO_TIME
    decreases k
  {
    assert Step(r.states[i], r.events[i], r.states[i + 1]);
    if i + 1 < k {
      NoLostWakeup(r, i, k - 1, id);
      assert Step(r.states[k - 1], r.events[k - 1], r.states[k]);
      WakeSurvivesStep(r.states[k - 1], r.events[k - 1], r.states[k], id);
    }
  }

  /** With no other request for the id in between, the time kept is the time
      asked for; only the failure of a run of that id replaces it, by the retry time. */
  lemma {:induction false} WakeTimeKept(r: Run, i: nat, k: nat, id: Id)
    requires IsRun(r) && i < k < |r.states|
    requires r.events[i].ScheduleCall? && r.events[i].id == id && r.events[i].nextRun != ZERO_TIME
    requires forall j :: i < j < k ==> !Dispatches(r.events[j], id) && !(r.events[j].ScheduleCall? && r.events[j].id == id)
    ensures var t := NextRun(r.states[k].table, id);
            || t == r.events[i].nextRun
            || exists j :: i < j < k && FailsAt(r.states[j], r.events[j], id, t)
    decreases k
  {
    assert Step(r.states[i], r.events[i], r.states[i + 1]);
    if i + 1 < k {
      WakeTimeKept(r, i, k - 1, id);
      NoLostWakeup(r, i, k - 1, id);
      assert Step(r.states[k - 1], r.events[k - 1], r.states[k]);
      WakeSurvivesStep(r.states[k - 1], r.events[k - 1], r.states[k], id);
    }
  }

  /** A request is answered by a dispatch that comes after it, at the latest in
      the first pass that finds the id idle and its time passed. */
  lemma WakeupAnswered(r: Run, i: nat, k: nat, id: Id)
    requires IsRun(r) && i < k < |r.events|
    requires r.events[i].ScheduleCall? && r.events[i].id == id && r.events[i].nextRun != ZERO_TIME
    requires forall j :: i < j < k ==> !Unschedules(r.events[j], id)
    requires r.events[k].Collect? && id !in r.states[k].table.running
    requires NextRun(r.states[k].table, id) < r.events[k].now
    ensures exists j :: i < j <= k && Dispatches(r.events[j], id)
  {
    if forall j :: i < j < k ==> !Dispatches(r.events[j], id) {
      NoLostWakeup(r, i, k, id);
      assert Step(r.states[k], r.events[k], r.states[k + 1]);
      assert id in Elements(r.events[k].items);
      assert Dispatches(r.events[k], id);
    }
  }

  ghost predicate KnownIsPending(s: State, known: set<Id>) {
    forall id :: id in known ==> id in s.table.running || NextRun(s.table, id) != ZERO_TIME
  }

  function KnownIds(events: seq<Event>): set<Id> {
    set i | 0 <= i < |events| && events[i].ScheduleCall? :: events[i].id
  }

  /** An id that was ever scheduled is never forgotten: it is running or has a next run. */
  lemma {:induction false} NeverForgotten(r: Run, k: nat)
    requires IsRun(r) && k < |r.states|
    requires forall j :: 0 <= j < k && r.events[j].ScheduleCall? ==> r.events[j].nextRun != ZERO_TIME
    ensures KnownIsPending(r.states[k], KnownIds(r.events[..k]))
  {
    if k > 0 {
      var e, s, s' := r.events[k - 1], r.states[k - 1], r.states[k];
      NeverForgotten(r, k - 1);
      RunInv(r, k - 1);
      assert Step(s, e, s');
      forall id | id in KnownIds(r.events[..k])
        ensures id in s'.table.running || NextRun(s'.table, id) != ZERO_TIME
      {
        var i :| 0 <= i < k && r.events[i].ScheduleCall? && r.events[i].id == id;
        if i < k - 1 {
          assert r.events[..k - 1][i].id == id;
          assert id in KnownIds(r.events[..k - 1]);
          if NextRun(s.table, id) != ZERO_TIME {
            if Dispatches(e, id) {
              assert id in Elements(e.items);
            } else {
              WakeSurvivesStep(s, e, s', id);
            }
          }
        }
      }
    }
  }

  // ---------------------------------------------------------------------
  // Every batch drains
  // ---------------------------------------------------------------------

  function BusyCount(workers: seq<Option<Id>>): nat {
    if workers == [] then 0 else (if workers[0].Some? then 1 else 0) + BusyCount(workers[1..])
  }

  function Measure(s: State): nat {
    2 * |s.batch| + BusyCount(s.workers)
  }

  predicate IsProgress(e: Event) {
    e.Send? || e.Fail? || e.Succeed?
  }

  lemma {:induction false} BusyCountUpdate(workers: seq<Option<Id>>, w: nat, x: Option<Id>)
    requires w < |workers|
    ensures BusyCount(workers[w := x])
            == BusyCount(workers) - (if workers[w].Some? then 1 else 0) + (if x.Some? then 1 else 0)
  {
    if w == 0 {
      assert workers[0 := x][1..] == workers[1..];
    } else {
      assert workers[w := x][1..] == workers[1..][w - 1 := x];
      BusyCountUpdate(workers[1..], w - 1, x);
    }
  }

  /** Each hand-off and each finish takes exactly one unit; a Schedule call takes
      none and adds none, and it leaves the batch alone. */
  lemma MeasureStep(s: State, e: Event, s': State)
    requires Step(s, e, s') && !e.Collect?
    ensures Measure(s') == Measure(s) - (if IsProgress(e) then 1 else 0)
    ensures e.ScheduleCall? ==> s'.batch == s.batch
  {
    match e
    case ScheduleCall(_, _) =>
    case Send(w) => BusyCountUpdate(s.workers, w, Some(s.batch[0]));
    case Fail(w, _) => BusyCountUpdate(s.workers, w, None);
    case Succeed(w, _) => BusyCountUpdate(s.workers, w, None);
  }

  function ProgressCount(events: seq<Event>): nat {
    if events == [] then 0
    else ProgressCount(events[..|events| - 1]) + (if IsProgress(events[|events| - 1]) then 1 else 0)
  }

  lemma DrainCount(events: seq<Event>, i: nat, k: nat)
    requires i < k <= |events|
    ensures ProgressCount(events[i..k])
            == ProgressCount(events[i..k - 1]) + (if IsProgress(events[k - 1]) then 1 else 0)
  {
    assert events[i..k][..k - i - 1] == events[i..k - 1];
  }

  ghost function Sent(r: Run, i: nat, k: nat): seq<Id>
    requires i <= k < |r.states| && |r.states| == |r.events| + 1
    decreases k
  {
    if i == k then []
    else Sent(r, i, k - 1) +
         (if r.events[k - 1].Send? && r.states[k - 1].batch != [] then [r.states[k - 1].batch[0]] else [])
  }

  /** Between two passes of the dispatcher the measure counts exactly the
      hand-offs and finishes still to come. */
  lemma {:induction false} DrainAccount(r: Run, i: nat, k: nat)
    requires IsRun(r) && i <= k < |r.states|
    requires forall j :: i <= j < k ==> !r.events[j].Collect?
    ensures Measure(r.states[i]) == Measure(r.states[k]) + ProgressCount(r.events[i..k])
    decreases k
  {
    if i < k {
      DrainAccount(r, i, k - 1);
      assert Step(r.states[k - 1], r.events[k - 1], r.states[k]);
      MeasureStep(r.states[k - 1], r.events[k - 1], r.states[k]);
      DrainCount(r.events, i, k);
    }
  }

  /** Ids leave the batch in order, each by one hand-off. */
  lemma {:induction false} SentInOrder(r: Run, i: nat, k: nat)
    requires IsRun(r) && i <= k < |r.states|
    requires forall j :: i <= j < k ==> !r.events[j].Collect?
    ensures r.states[i].batch == Sent(r, i, k) + r.states[k].batch
    decreases k
  {
    if i < k {
      SentInOrder(r, i, k - 1);
      assert Step(r.states[k - 1], r.events[k - 1], r.states[k]);
    }
  }

  /** A pass that follows a pass i finds every id of batch i handed to a worker,
      each once and in order; nothing else was handed over in between. */
  lemma BatchDrains(r: Run, i: nat, k: nat)
    requires IsRun(r) && i < k < |r.events|
    requires r.events[i].Collect? && r.events[k].Collect?
    requires forall j :: i < j < k ==> !r.events[j].Collect?
    ensures Sent(r, i + 1, k) == r.events[i].items
  {
    assert Step(r.states[i], r.events[i], r.states[i + 1]);
    assert Step(r.states[k], r.events[k], r.states[k + 1]);
    SentInOrder(r, i + 1, k);
  }

  lemma {:induction false} AllIdle(workers: seq<Option<Id>>, w: nat)
    requires w < |workers| && BusyCount(workers) == 0
    ensures workers[w].None?
  {
    if w > 0 { AllIdle(workers[1..], w - 1); }
  }

  lemma {:induction false} BusyWorkerExists(s: State, from: nat)
    requires from <= |s.workers| && BusyCount(s.workers[from..]) > 0
    ensures exists w: nat :: Busy(s, w)
    decreases |s.workers| - from
  {
    if s.workers[from].Some? {
      assert Busy(s, from);
    } else {
      assert s.workers[from..][1..] == s.workers[from + 1..];
      BusyWorkerExists(s, from + 1);
    }
  }

  /** The scheduler is never stuck before a batch has drained: a hand-off is
      possible, or some worker is busy and finishing it takes a unit off the measure. */
  lemma DrainNeverStuck(s: State, now: Time)
    requires Inv(s) && Measure(s) > 0
    ensures exists e, s' :: IsProgress(e) && Step(s, e, s') && Measure(s') == Measure(s) - 1
  {
    var e: Event, s': State;
    if BusyCount(s.workers) > 0 {
      assert s.workers[0..] == s.workers;
      BusyWorkerExists(s, 0);
      var w: nat :| Busy(s, w);
      e := Succeed(w, now);
      s' := s.(table := Succeeded(s.table, s.workers[w].value, now), workers := s.workers[w := None]);
    } else {
      AllIdle(s.workers, 0);
      e := Send(0);
      s' := s.(batch := s.batch[1..], workers := s.workers[0 := Some(s.batch[0])]);
    }
    MeasureStep(s, e, s');
    assert IsProgress(e) && Step(s, e, s');
  }
}
