/** When a VM whose hypervisor is gone can be started again by the same server:
    exactly when its entry is not one that nobody waits for. */
module VmRestart {
  import opened VmLifecycle
  import opened VmService

  // ---------------------------------------------------------------------
  // What makes a VM stuck
  // ---------------------------------------------------------------------

  predicate TakesOut(s: State, e: Event, vm: VmId) {
    e.Advance? && e.vm == vm && vm in s.runs && s.runs[vm].DeleteExtract?
  }

  lemma StuckByAdvance(s: State, ok: bool, vm: VmId)
    requires Inv(s) && vm in s.runs && !Stuck(s, vm)
    ensures var e := Advance(vm, ok); Stuck(Next(s, e), vm) <==> FailsLate(s, e, vm) || TakesOut(s, e, vm)
  {
    hide Wait, Launch, Delete, Stuck, VmInv, TapsInv, FailsLate;
    OneVmInv(s, vm);
    if s.runs[vm].Deleting() {
      StuckByDelete(s, vm);
      assert !FailsLate(s, Advance(vm, ok), vm) by { NotLate(s, ok, vm); }
    } else if s.runs[vm].KillStale? || s.runs[vm].Insert? || s.runs[vm].Start? || s.runs[vm].MarkRunning? {
      StuckByCommand(s, ok, vm);
    } else {
      StuckByLaunch(s, ok, vm);
      assert !FailsLate(s, Advance(vm, ok), vm) by { NotLate(s, ok, vm); }
    }
  }

  lemma NotLate(s: State, ok: bool, vm: VmId)
    requires vm in s.runs && !s.runs[vm].Start? && !s.runs[vm].MarkRunning?
    ensures !FailsLate(s, Advance(vm, ok), vm)
  {
  }

  lemma StuckByDelete(s: State, vm: VmId)
    requires vm in s.runs && s.runs[vm].Deleting() && !Stuck(s, vm)
    ensures Stuck(Delete(s, vm), vm) <==> s.runs[vm].DeleteExtract?
  {
  }

  lemma StuckByLaunch(s: State, ok: bool, vm: VmId)
    requires VmInv(s.me, ViewOf(s, vm), vm, s.cmds) && vm in s.runs && !s.runs[vm].Deleting() && !Stuck(s, vm)
    requires !s.runs[vm].KillStale? && !s.runs[vm].Insert? && !s.runs[vm].Start? && !s.runs[vm].MarkRunning?
    ensures !Stuck(Launch(s, vm, ok), vm)
  {
    hide CmdsOk, GoneOk;
  }

  lemma StuckByCommand(s: State, ok: bool, vm: VmId)
    requires VmInv(s.me, ViewOf(s, vm), vm, s.cmds) && vm in s.runs && !Stuck(s, vm)
    requires s.runs[vm].KillStale? || s.runs[vm].Insert? || s.runs[vm].Start? || s.runs[vm].MarkRunning?
    ensures Stuck(Launch(s, vm, ok), vm) <==> FailsLate(s, Advance(vm, ok), vm)
  {
    hide CmdsOk, GoneOk;
  }

  lemma StuckByOther(s: State, e: Event, vm: VmId)
    requires Inv(s) && Enabled(s, e) && !Stuck(s, vm) && Owner(s, e) == vm && !e.Advance?
    ensures !Stuck(Next(s, e), vm)
  {
    hide Launch, Delete;
    assert VmInv(s.me, ViewOf(s, vm), vm, s.cmds);
  }

  lemma StuckByNeighbour(s: State, t: State, owner: VmId, vm: VmId)
    requires Inv(s) && Inv(t) && Touches(s, t, owner) && owner != vm
    ensures Stuck(t, vm) <==> Stuck(s, vm)
  {
    assert VmInv(s.me, ViewOf(s, vm), vm, s.cmds) && VmInv(t.me, ViewOf(t, vm), vm, t.cmds);
    assert ViewOf(t, vm) == ViewOf(s, vm);
    hide Inv, VmInv;
  }

  /** A VM becomes stuck only by a start that fails late, or by its deletion. */
  lemma StuckExactlyBy(s: State, e: Event, vm: VmId)
    requires Inv(s) && Enabled(s, e) && !Stuck(s, vm)
    ensures Stuck(Next(s, e), vm) <==> FailsLate(s, e, vm) || TakesOut(s, e, vm)
  {
    hide Next, Inv, Stuck;
    if Owner(s, e) != vm {
      NextInv(s, e);
      StuckByNeighbour(s, Next(s, e), Owner(s, e), vm);
    } else if e.Advance? {
      StuckByAdvance(s, e.ok, vm);
    } else {
      StuckByOther(s, e, vm);
    }
  }

  // ---------------------------------------------------------------------
  // Entries and the goroutines that wait for them
  // ---------------------------------------------------------------------

  /** The VM's entry does not outlive its goroutine, and goroutines wait for
      processes that were started. */
  ghost predicate EntryOk(s: State, vm: VmId) {
    && (vm in s.vmToCmd && s.vmToCmd[vm] < |s.cmds| ==> !s.cmds[s.vmToCmd[vm]].waiter.Done?)
    && (forall c :: 0 <= c < |s.cmds| && s.cmds[c].vm == vm && Armed(s.cmds[c]) ==> !s.cmds[c].process.NotStarted?)
    && (vm in s.runs && s.runs[vm].MarkRunning? && s.runs[vm].cmd < |s.cmds| ==>
          !s.cmds[s.runs[vm].cmd].process.NotStarted?)
  }

  ghost predicate EntryInv(s: State) {
    forall vm: VmId :: EntryOk(s, vm)
  }

  lemma EntryNeighbour(s: State, t: State, owner: VmId, vm: VmId)
    requires Inv(s) && Touches(s, t, owner) && owner != vm && EntryOk(s, vm)
    ensures EntryOk(t, vm)
  {
    assert VmInv(s.me, ViewOf(s, vm), vm, s.cmds);
    assert ViewOf(t, vm) == ViewOf(s, vm);
    assert Lookup(t.runs, vm) == Lookup(s.runs, vm) && Lookup(t.vmToCmd, vm) == Lookup(s.vmToCmd, vm);
  }

  lemma EntryDelete(s: State, vm: VmId)
    requires EntryOk(s, vm) && vm in s.runs && s.runs[vm].Deleting()
    ensures EntryOk(Delete(s, vm), vm)
  {
  }

  lemma EntryLaunch(s: State, ok: bool, vm: VmId)
    requires VmInv(s.me, ViewOf(s, vm), vm, s.cmds) && EntryOk(s, vm) && vm in s.runs && !s.runs[vm].Deleting()
    requires !s.runs[vm].KillStale? && !s.runs[vm].MarkRunning?
    ensures EntryOk(Launch(s, vm, ok), vm)
  {
  }

  lemma EntryCommand(s: State, ok: bool, vm: VmId)
    requires VmInv(s.me, ViewOf(s, vm), vm, s.cmds) && EntryOk(s, vm) && vm in s.runs
    requires s.runs[vm].KillStale? || s.runs[vm].MarkRunning?
    ensures EntryOk(Launch(s, vm, ok), vm)
  {
  }

  lemma EntryAdvance(s: State, ok: bool, vm: VmId)
    requires Inv(s) && EntryOk(s, vm) && vm in s.runs
    ensures EntryOk(Next(s, Advance(vm, ok)), vm)
  {
    hide Wait, Launch, Delete, EntryOk, VmInv, TapsInv;
    assert VmInv(s.me, ViewOf(s, vm), vm, s.cmds);
    if s.runs[vm].Deleting() {
      EntryDelete(s, vm);
    } else if s.runs[vm].KillStale? || s.runs[vm].MarkRunning? {
      EntryCommand(s, ok, vm);
    } else {
      EntryLaunch(s, ok, vm);
    }
  }

  lemma EntryWait(s: State, c: CmdId, exit: Option<Status>)
    requires c < |s.cmds| && VmInv(s.me, ViewOf(s, s.cmds[c].vm), s.cmds[c].vm, s.cmds) && EntryOk(s, s.cmds[c].vm)
    ensures EntryOk(Wait(s, c, exit), s.cmds[c].vm)
  {
    assert CmdOk(s.me, ViewOf(s, s.cmds[c].vm), c, s.cmds[c]);
    hide CmdsOk, PcOk;
  }

  lemma EntryKill(s: State, vm: VmId)
    requires EntryOk(s, vm)
    ensures EntryOk(s.(cmds := Kill(s.cmds, Entry(s, vm))), vm)
  {
  }

  lemma EntryOther(s: State, e: Event, vm: VmId)
    requires Inv(s) && EntryOk(s, vm) && Enabled(s, e) && Owner(s, e) == vm && !e.Advance?
    ensures EntryOk(Next(s, e), vm)
  {
    hide Launch, Delete, Wait, Kill, Inv, VmInv;
    if e.AdvanceWaiter? {
      OneVmInv(s, vm);
      EntryWait(s, e.cmd, e.exit);
    } else if e.StopService? {
      EntryKill(s, vm);
    }
  }

  lemma OneVmInv(s: State, vm: VmId)
    requires Inv(s)
    ensures VmInv(s.me, ViewOf(s, vm), vm, s.cmds)
  {
  }

  lemma EntryStep(s: State, e: Event)
    requires Inv(s) && EntryInv(s) && Enabled(s, e)
    ensures EntryInv(Next(s, e))
  {
    hide Next, Inv, EntryOk;
    NextInv(s, e);
    forall vm: VmId
      ensures EntryOk(Next(s, e), vm)
    {
      if Owner(s, e) != vm {
        EntryNeighbour(s, Next(s, e), Owner(s, e), vm);
      } else if e.Advance? {
        EntryAdvance(s, e.ok, vm);
      } else {
        EntryOther(s, e, vm);
      }
    }
  }

  /** Between runs the stuck VMs are those with an entry that nobody waits for. */
  lemma StuckIffUnwatched(s: State, vm: VmId)
    requires Inv(s) && EntryOk(s, vm) && vm in s.vmToCmd && vm !in s.runs
    ensures s.vmToCmd[vm] < |s.cmds| && (Stuck(s, vm) <==> !Armed(s.cmds[s.vmToCmd[vm]]))
  {
    assert VmInv(s.me, ViewOf(s, vm), vm, s.cmds);
  }

  // ---------------------------------------------------------------------
  // Continuations
  // ---------------------------------------------------------------------

  ghost predicate Possible(s: State, es: seq<Event>)
    decreases |es|
  {
    es != [] ==> Enabled(s, es[0]) && Possible(Next(s, es[0]), es[1..])
  }

  ghost function After(s: State, es: seq<Event>): State
    requires Possible(s, es)
    decreases |es|
  {
    if es == [] then s else After(Next(s, es[0]), es[1..])
  }

  lemma {:induction false} Joined(s: State, es: seq<Event>, fs: seq<Event>)
    requires Possible(s, es) && Possible(After(s, es), fs)
    ensures Possible(s, es + fs) && After(s, es + fs) == After(After(s, es), fs)
    decreases |es|
  {
    hide Next, Enabled;
    if es == [] {
      assert [] + fs == fs;
    } else {
      assert (es + fs)[1..] == es[1..] + fs;
      Joined(Next(s, es[0]), es[1..], fs);
    }
  }

  lemma One(s: State, e: Event)
    requires Enabled(s, e)
    ensures Possible(s, [e]) && After(s, [e]) == Next(s, e)
  {
    hide Next, Enabled;
    assert [e][1..] == [];
  }

  /** A hypervisor of the VM that nobody has killed. */
  ghost predicate Served(s: State, vm: VmId) {
    exists c :: 0 <= c < |s.cmds| && s.cmds[c].vm == vm && Live(s, c)
  }

  ghost predicate Gone(s: State, vm: VmId) {
    forall c :: 0 <= c < |s.cmds| && s.cmds[c].vm == vm ==> !s.cmds[c].process.Alive?
  }

  /** A live row of this server. */
  predicate Wanted(s: State, vm: VmId) {
    vm in s.rows && s.rows[vm].server == s.me && !s.rows[vm].deleted
  }

  /** All that a continuation towards a start relies on. */
  ghost predicate Startable(s: State, vm: VmId) {
    Inv(s) && EntryInv(s) && Wanted(s, vm) && !Stuck(s, vm)
  }

  lemma {:induction false} StuckForEver(s: State, es: seq<Event>, vm: VmId)
    requires Inv(s) && Possible(s, es) && Stuck(s, vm) && Gone(s, vm)
    ensures Gone(After(s, es), vm)
    decreases |es|
  {
    hide Next, Enabled, Inv, Stuck;
    if es != [] {
      NextInv(s, es[0]);
      StuckStep(s, es[0], vm);
      StuckForEver(Next(s, es[0]), es[1..], vm);
    }
  }

  // ---------------------------------------------------------------------
  // A run brought to its end
  // ---------------------------------------------------------------------

  lemma RankDrops(s: State, vm: VmId)
    requires Inv(s) && vm in s.runs
    ensures var t := Next(s, Advance(vm, true)); vm in t.runs ==> Rank(t.runs[vm]) < Rank(s.runs[vm])
  {
    assert VmInv(s.me, ViewOf(s, vm), vm, s.cmds);
  }

  /** A step that does not fail keeps a wanted, unstuck VM so. */
  lemma GoodStep(s: State, e: Event, vm: VmId)
    requires Startable(s, vm) && Enabled(s, e) && (e == Advance(vm, true) || e == Begin(vm))
    ensures Startable(Next(s, e), vm)
  {
    hide Next, Enabled, Stuck, EntryOk, VmInv;
    NextInv(s, e);
    EntryStep(s, e);
    NotTakenOut(s, e, vm);
    StuckExactlyBy(s, e, vm);
    StillWanted(s, e, vm);
  }

  lemma NotTakenOut(s: State, e: Event, vm: VmId)
    requires Inv(s) && Wanted(s, vm)
    ensures !TakesOut(s, e, vm)
  {
    assert VmInv(s.me, ViewOf(s, vm), vm, s.cmds);
  }

  lemma StillWanted(s: State, e: Event, vm: VmId)
    requires Inv(s) && Enabled(s, e) && Wanted(s, vm) && !e.SoftDelete?
    ensures Wanted(Next(s, e), vm)
  {
    hide Launch, Delete, Wait, VmInv, TapsInv, Kill;
    match e
    case Advance(v, ok) => if s.runs[v].Deleting() { DeleteKeepsRows(s, v); } else { LaunchKeepsRows(s, v, ok, vm); }
    case AdvanceWaiter(c, exit) => WaitKeepsRows(s, c, exit, vm);
    case _ =>
  }

  lemma DeleteKeepsRows(s: State, v: VmId)
    requires v in s.runs
    ensures Delete(s, v).rows == s.rows && Delete(s, v).me == s.me
  {
  }

  lemma LaunchKeepsRows(s: State, v: VmId, ok: bool, vm: VmId)
    requires v in s.runs && Wanted(s, vm)
    ensures Wanted(Launch(s, v, ok), vm)
  {
    hide Launch;
    var pc := s.runs[v];
    if pc.MarkStarting? || pc.Recover? || pc.MarkAlreadyRunning? || pc.MarkRunning? {
      UpdateKeepsRows(s, v, ok, vm);
    } else {
      LaunchWritesNoRow(s, v, ok);
    }
  }

  lemma LaunchWritesNoRow(s: State, v: VmId, ok: bool)
    requires v in s.runs && var pc := s.runs[v]; !pc.MarkStarting? && !pc.Recover? && !pc.MarkAlreadyRunning? && !pc.MarkRunning?
    ensures Launch(s, v, ok).rows == s.rows && Launch(s, v, ok).me == s.me
  {
    hide TapNumber, Kill;
  }

  lemma UpdateKeepsRows(s: State, v: VmId, ok: bool, vm: VmId)
    requires v in s.runs && Wanted(s, vm)
    requires var pc := s.runs[v]; pc.MarkStarting? || pc.Recover? || pc.MarkAlreadyRunning? || pc.MarkRunning?
    ensures Wanted(Launch(s, v, ok), vm)
  {
  }

  lemma WaitKeepsRows(s: State, c: CmdId, exit: Option<Status>, vm: VmId)
    requires c < |s.cmds| && Wanted(s, vm)
    ensures Wanted(Wait(s, c, exit), vm)
  {
  }

  lemma {:induction false} RunEnds(s: State, vm: VmId) returns (es: seq<Event>)
    requires Startable(s, vm)
    ensures Possible(s, es) && Startable(After(s, es), vm) && vm !in After(s, es).runs
    ensures After(s, es) == RunAlone(s, vm, ALL_WELL)
    decreases if vm in s.runs then Rank(s.runs[vm]) else 0
  {
    hide Next, Enabled, Startable;
    es := [];
    if vm in s.runs {
      var e := Advance(vm, true);
      EndsSoon(s, vm);
      GoodStep(s, e, vm);
      var rest := RunEnds(Next(s, e), vm);
      One(s, e);
      Joined(s, [e], rest);
      es := [e] + rest;
    }
  }

  lemma EndsSoon(s: State, vm: VmId)
    requires Startable(s, vm) && vm in s.runs
    ensures Enabled(s, Advance(vm, true))
    ensures var t := Next(s, Advance(vm, true));
            && (vm in t.runs ==> Rank(t.runs[vm]) < Rank(s.runs[vm]))
            && RunAlone(s, vm, ALL_WELL) == RunAlone(t, vm, ALL_WELL)
  {
    hide Next;
    RankDrops(s, vm);
    assert Succeeds(ALL_WELL, s.runs[vm]);
  }

  // ---------------------------------------------------------------------
  // An entry taken out by its goroutine
  // ---------------------------------------------------------------------

  lemma OtherStep(s: State, e: Event, vm: VmId)
    requires Startable(s, vm) && Enabled(s, e) && (e.ProcessExit? || (e.AdvanceWaiter? && e.exit.None?))
    ensures Startable(Next(s, e), vm)
    ensures Next(s, e).runs == s.runs
  {
    hide Stuck, EntryOk, VmInv;
    NextInv(s, e);
    EntryStep(s, e);
    StuckExactlyBy(s, e, vm);
    StillWanted(s, e, vm);
  }

  /** What is left for the goroutine of an exited process to do. */
  function Remaining(w: Waiter): nat {
    match w
    case Waiting => 3
    case Unregistering => 2
    case Removing => 1
    case _ => 0
  }

  lemma {:induction false} GoroutineEnds(s: State, vm: VmId, c: CmdId) returns (es: seq<Event>)
    requires Startable(s, vm) && vm !in s.runs && c < |s.cmds| && s.cmds[c].vm == vm
    requires s.cmds[c].process.Exited? && Armed(s.cmds[c])
    ensures Possible(s, es) && Startable(After(s, es), vm) && vm !in After(s, es).runs && vm !in After(s, es).vmToCmd
    decreases Remaining(s.cmds[c].waiter)
  {
    var e := AdvanceWaiter(c, None);
    var t := Next(s, e);
    OtherStep(s, e, vm);
    assert t.cmds[c].vm == vm && t.cmds[c].process.Exited?;
    assert Remaining(t.cmds[c].waiter) == Remaining(s.cmds[c].waiter) - 1;
    assert s.cmds[c].waiter.Removing? ==> vm !in t.vmToCmd;
    hide Next, Startable, Enabled;
    One(s, e);
    es := [e];
    if Armed(t.cmds[c]) {
      var rest := GoroutineEnds(t, vm, c);
      Joined(s, [e], rest);
      es := [e] + rest;
    }
  }

  /** Between runs, a VM that is served by nobody and not stuck can lose its entry. */
  lemma EntryGoes(s: State, vm: VmId) returns (es: seq<Event>)
    requires Startable(s, vm) && vm !in s.runs && !Served(s, vm) && vm in s.vmToCmd
    ensures Possible(s, es) && Startable(After(s, es), vm) && vm !in After(s, es).runs && vm !in After(s, es).vmToCmd
  {
    assert EntryOk(s, vm);
    StuckIffUnwatched(s, vm);
    var c := s.vmToCmd[vm];
    assert s.cmds[c].vm == vm by { assert VmInv(s.me, ViewOf(s, vm), vm, s.cmds); }
    assert !s.cmds[c].process.NotStarted?;
    if s.cmds[c].process.Alive? {
      var e := ProcessExit(c);
      OtherStep(s, e, vm);
      var rest := GoroutineEnds(Next(s, e), vm, c);
      One(s, e);
      Joined(s, [e], rest);
      es := [e] + rest;
    } else {
      es := GoroutineEnds(s, vm, c);
    }
  }

  lemma UpIsServed(s: State, vm: VmId)
    requires Up(s, vm)
    ensures Served(s, vm)
  {
  }

  /** A wanted VM without an entry, with no run in progress, can be brought up. */
  lemma StartsAgain(s: State, vm: VmId) returns (es: seq<Event>)
    requires Startable(s, vm) && vm !in s.runs && vm !in s.vmToCmd
    ensures Possible(s, es) && Served(After(s, es), vm)
  {
    hide Next, Startable;
    BeginAllowed(s, vm);
    var e := Begin(vm);
    GoodStep(s, e, vm);
    var rest := RunEnds(Next(s, e), vm);
    HealthyRunStartsTheVm(s, vm, ALL_WELL);
    UpIsServed(After(Next(s, e), rest), vm);
    One(s, e);
    Joined(s, [e], rest);
    es := [e] + rest;
  }

  lemma BeginAllowed(s: State, vm: VmId)
    requires Startable(s, vm) && vm !in s.runs
    ensures Enabled(s, Begin(vm)) && vm in s.rows && s.rows[vm].server == s.me && !s.rows[vm].deleted
  {
  }

  /** From any state in which a live row's VM is not stuck, whatever run of it is
      in progress, its run, its goroutine and one more run can bring it up. */
  lemma UnstuckCanStart(s: State, vm: VmId) returns (es: seq<Event>)
    requires Startable(s, vm)
    ensures Possible(s, es) && Served(After(s, es), vm)
  {
    hide Next, Startable, Served;
    es := RunEnds(s, vm);
    var t := After(s, es);
    if !Served(t, vm) && vm in t.vmToCmd {
      var more := EntryGoes(t, vm);
      Joined(s, es, more);
      es := es + more;
      t := After(s, es);
    }
    if !Served(t, vm) {
      var more := StartsAgain(t, vm);
      Joined(s, es, more);
      es := es + more;
    }
  }

  /** For a live row of this server whose hypervisor process is gone: the server
      can start one again if and only if the VM is not stuck. */
  lemma RestartExactly(s: State, vm: VmId)
    requires Inv(s) && EntryInv(s) && Wanted(s, vm) && Gone(s, vm)
    ensures (exists es :: Possible(s, es) && Served(After(s, es), vm)) <==> !Stuck(s, vm)
  {
    hide Inv, EntryInv, Possible, After, Stuck, Wanted;
    if Stuck(s, vm) {
      forall es | Possible(s, es)
        ensures !Served(After(s, es), vm)
      {
        StuckForEver(s, es, vm);
        GoneIsNotServed(After(s, es), vm);
      }
    } else {
      var es := UnstuckCanStart(s, vm);
    }
  }

  lemma GoneIsNotServed(s: State, vm: VmId)
    requires Gone(s, vm)
    ensures !Served(s, vm)
  {
  }

  // ---------------------------------------------------------------------
  // Every run
  // ---------------------------------------------------------------------

  lemma {:induction false} RunEntries(r: Run, k: nat)
    requires IsRun(r) && k < |r.states|
    ensures EntryInv(r.states[k])
  {
    hide Next, Enabled, Inv, EntryOk;
    if k == 0 {
      InitEntries(r.states[0].me);
    } else {
      RunEntries(r, k - 1);
      RunInv(r, k - 1);
      EntryStep(r.states[k - 1], r.events[k - 1]);
    }
  }

  lemma InitEntries(me: ServerId)
    ensures EntryInv(Init(me))
  {
  }

  /** In every reachable state: a live row of this server whose hypervisor is
      gone can be served again exactly when the VM is not stuck, which between
      runs means exactly when it has no entry or somebody waits for the entry's
      command. */
  lemma RestartInEveryRun(r: Run, k: nat, vm: VmId)
    requires IsRun(r) && k < |r.states| && Wanted(r.states[k], vm) && Gone(r.states[k], vm)
    ensures var s := r.states[k];
            && ((exists es :: Possible(s, es) && Served(After(s, es), vm)) <==> !Stuck(s, vm))
            && (vm !in s.runs && vm !in s.vmToCmd ==> !Stuck(s, vm))
            && (vm !in s.runs && vm in s.vmToCmd ==>
                  s.vmToCmd[vm] < |s.cmds| && (Stuck(s, vm) <==> !Armed(s.cmds[s.vmToCmd[vm]])))
  {
    hide IsRun, Possible, After;
    var s := r.states[k];
    RunInv(r, k);
    RunEntries(r, k);
    RestartExactly(s, vm);
    if vm !in s.runs && vm in s.vmToCmd {
      assert EntryOk(s, vm);
      StuckIffUnwatched(s, vm);
    }
    assert vm !in s.extracted by { OneVmInv(s, vm); }
  }
}
