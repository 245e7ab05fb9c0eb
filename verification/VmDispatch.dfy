/** The VM reconciler driven by its scheduler. The VM machine starts a run of a
    VM only when none is in progress; here that guard is dropped and a run begins
    whenever the dispatcher hands the id to a worker. The scheduler's
    single-flight guarantee gives the guard back. */
module VmDispatch {
  import S = ReconcilerScheduler
  import V = VmLifecycle

  datatype State = State(scheduler: S.State, vms: V.State)

  datatype Event =
    | Dispatch(worker: nat)
    | Finish(ending: S.Event)
    | Scheduling(event: S.Event)
    | Work(step: V.Event)

  predicate Returned(st: State, w: nat) {
    S.Busy(st.scheduler, w) && st.scheduler.workers[w].value !in st.vms.runs
  }

  ghost predicate Step(st: State, e: Event, st': State) {
    match e
    case Dispatch(w) =>
      && S.Step(st.scheduler, S.Send(w), st'.scheduler)
      && st'.vms == V.Goto(st.vms, st.scheduler.batch[0], V.Read)
    case Finish(ending) =>
      && (ending.Fail? || ending.Succeed?)
      && Returned(st, ending.worker)
      && S.Step(st.scheduler, ending, st'.scheduler)
      && st'.vms == st.vms
    case Scheduling(event) =>
      && (event.ScheduleCall? || event.Collect?)
      && S.Step(st.scheduler, event, st'.scheduler)
      && st'.vms == st.vms
    case Work(event) =>
      && !event.Begin?
      && V.Enabled(st.vms, event)
      && st'.vms == V.Next(st.vms, event)
      && st'.scheduler == st.scheduler
  }

  /** Every run in progress is in the hands of a worker. */
  ghost predicate Inv(st: State) {
    S.Inv(st.scheduler) && V.Inv(st.vms) && st.vms.runs.Keys <= S.BusyIds(st.scheduler)
  }

  /** The next id of the batch is not being reconciled: starting its run is a
      step the VM machine allows. */
  lemma DispatchIsAllowed(st: State, w: nat, st': State)
    requires Inv(st) && Step(st, Dispatch(w), st')
    ensures V.Enabled(st.vms, V.Begin(st.scheduler.batch[0]))
    ensures st'.vms == V.Next(st.vms, V.Begin(st.scheduler.batch[0]))
  {
    assert st.scheduler.batch[0] in S.Elements(st.scheduler.batch);
  }

  lemma WorkKeepsRuns(s: V.State, e: V.Event)
    requires V.Inv(s) && V.Enabled(s, e) && !e.Begin?
    ensures V.Next(s, e).runs.Keys <= s.runs.Keys
  {
    if e.Advance? {
      AdvanceKeepsRuns(s, e.vm, e.ok);
    }
  }

  lemma AdvanceKeepsRuns(s: V.State, vm: V.VmId, ok: bool)
    requires V.Inv(s) && vm in s.runs
    ensures V.Next(s, V.Advance(vm, ok)).runs.Keys <= s.runs.Keys
  {
    var t := V.Next(s, V.Advance(vm, ok));
    V.NextInv(s, V.Advance(vm, ok));
    hide V.Next, V.Inv;
    forall v | v in t.runs ensures v in s.runs {
      if v != vm {
        assert V.ViewOf(t, v) == V.ViewOf(s, v);
        assert V.Lookup(t.runs, v) == V.Lookup(s.runs, v);
      }
    }
  }

  lemma StepInv(st: State, e: Event, st': State)
    requires Inv(st) && Step(st, e, st')
    ensures Inv(st')
  {
    hide V.Next, V.Inv, S.Inv;
    match e
    case Dispatch(w) =>
      S.StepInv(st.scheduler, S.Send(w), st'.scheduler);
      S.SendBusy(st.scheduler, w, st'.scheduler);
      DispatchIsAllowed(st, w, st');
      V.NextInv(st.vms, V.Begin(st.scheduler.batch[0]));
    case Finish(ending) =>
      S.StepInv(st.scheduler, ending, st'.scheduler);
      S.FinishBusy(st.scheduler, ending.worker, st'.scheduler);
    case Scheduling(event) =>
      S.StepInv(st.scheduler, event, st'.scheduler);
      assert st'.scheduler.workers == st.scheduler.workers;
      assert S.BusyIds(st'.scheduler) == S.BusyIds(st.scheduler);
    case Work(event) =>
      V.NextInv(st.vms, event);
      WorkKeepsRuns(st.vms, event);
  }

  datatype Run = Run(states: seq<State>, events: seq<Event>)

  ghost predicate IsRun(r: Run) {
    && |r.states| == |r.events| + 1
    && S.Init(r.states[0].scheduler)
    && r.states[0].vms == V.Init(r.states[0].vms.me)
    && forall i :: 0 <= i < |r.events| ==> Step(r.states[i], r.events[i], r.states[i + 1])
  }

  lemma {:induction false} RunInv(r: Run, k: nat)
    requires IsRun(r) && k < |r.states|
    ensures Inv(r.states[k])
  {
    hide Step;
    if k == 0 {
      S.InitInv(r.states[0].scheduler);
      V.InitInv(r.states[0].vms.me);
    } else {
      RunInv(r, k - 1);
      StepInv(r.states[k - 1], r.events[k - 1], r.states[k]);
    }
  }

  ghost function VmEvents(r: Run, k: nat): seq<V.Event>
    requires k <= |r.events| < |r.states|
  {
    if k == 0 then []
    else VmEvents(r, k - 1) +
         match r.events[k - 1]
         case Dispatch(_) =>
           if r.states[k - 1].scheduler.batch != [] then [V.Begin(r.states[k - 1].scheduler.batch[0])] else []
         case Work(event) => [event]
         case _ => []
  }

  /** Where the VM machine is after these events, if it allows each of them. */
  ghost function After(s: V.State, events: seq<V.Event>): V.Option<V.State>
    decreases |events|
  {
    if events == [] then V.Some(s)
    else
      var before, last := After(s, events[..|events| - 1]), events[|events| - 1];
      if before.Some? && V.Enabled(before.value, last) then V.Some(V.Next(before.value, last)) else V.None
  }

  /** The VM half of every run under the scheduler is a run of the VM machine,
      guards included, so all that is proved of that machine holds here. */
  lemma {:induction false} SchedulerSuppliesTheGuard(r: Run, k: nat)
    requires IsRun(r) && k < |r.states|
    ensures After(r.states[0].vms, VmEvents(r, k)) == V.Some(r.states[k].vms)
  {
    hide V.Next, V.Enabled, V.Init, S.Step;
    if k > 0 {
      SchedulerSuppliesTheGuard(r, k - 1);
      RunInv(r, k - 1);
      var st, e, st' := r.states[k - 1], r.events[k - 1], r.states[k];
      var done := VmEvents(r, k - 1);
      assert Step(st, e, st');
      if e.Dispatch? {
        DispatchHasBatch(st, e.worker, st');
        DispatchIsAllowed(st, e.worker, st');
        AfterOne(r.states[0].vms, done, st.vms, V.Begin(st.scheduler.batch[0]));
      } else if e.Work? {
        AfterOne(r.states[0].vms, done, st.vms, e.step);
      } else {
        assert VmEvents(r, k) == done;
      }
    }
  }

  lemma DispatchHasBatch(st: State, w: nat, st': State)
    requires Step(st, Dispatch(w), st')
    ensures st.scheduler.batch != []
  {
  }

  lemma AfterOne(s: V.State, events: seq<V.Event>, u: V.State, e: V.Event)
    requires After(s, events) == V.Some(u) && V.Enabled(u, e)
    ensures After(s, events + [e]) == V.Some(V.Next(u, e))
  {
    assert (events + [e])[..|events|] == events;
  }

  /** With the real dispatcher and its six workers, no VM ever has two live hypervisors. */
  lemma OneLiveProcessUnderScheduler(r: Run, k: nat, c: V.CmdId, d: V.CmdId)
    requires IsRun(r) && k < |r.states|
    requires V.Live(r.states[k].vms, c) && V.Live(r.states[k].vms, d)
    requires r.states[k].vms.cmds[c].vm == r.states[k].vms.cmds[d].vm
    ensures c == d
  {
    RunInv(r, k);
    var s := r.states[k].vms;
    var v := V.ViewOf(s, s.cmds[c].vm);
    assert V.VmInv(s.me, v, s.cmds[c].vm, s.cmds);
    assert V.CmdOk(s.me, v, c, s.cmds[c]) && V.CmdOk(s.me, v, d, s.cmds[d]);
  }
}
