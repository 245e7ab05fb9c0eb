/** The VM reconciler of one server: reconcileVM, the goroutine that waits for
    each hypervisor to exit, and reconcileVmDelete, racing over vmToCmd and vmToTap. */
module VmLifecycle {

  datatype Option<+T> = None | Some(value: T)

  type VmId = nat
  type ServerId = nat
  type CmdId = nat

  datatype Status = Pending | Starting | Running | Stopping | Stopped | Failed

  /** A row of the vms table. No statement changes its server or clears deleted_at. */
  datatype Row = Row(server: ServerId, status: Status, deleted: bool)

  /** The operating system process of a command. */
  datatype Process = NotStarted | Alive(killed: bool) | Exited

  /** Where the goroutine that waits for a command to exit has got to. */
  datatype Waiter = NoWaiter | Waiting | Unregistering | Removing | Done

  datatype Cmd = Cmd(vm: VmId, tap: int, process: Process, waiter: Waiter)

  /** What a run of reconcileVM does next. `row` is the run's own copy of the VM row. */
  datatype Pc =
    | Read
    | MarkStarting(row: Row)
    | Recover(row: Row)
    | Check(row: Row)
    | MarkAlreadyRunning(row: Row)
    | Prepare(row: Row)
    | Register(row: Row)
    | TakeStale(row: Row)
    | KillStale(row: Row, stale: Option<CmdId>)
    | Insert(row: Row, cmd: CmdId)
    | Start(row: Row, cmd: CmdId)
    | MarkRunning(row: Row, cmd: CmdId)
    | DeleteUnregister
    | DeleteExtract
    | DeleteKill(extracted: Option<CmdId>)
    | DeleteDisk
  {
    predicate Deleting() {
      DeleteUnregister? || DeleteExtract? || DeleteKill? || DeleteDisk?
    }

    predicate Launching() {
      !Read? && !Deleting()
    }
  }

  /** `cmds` holds every exec.Cmd ever made, so a CmdId is an index into it.
      `extracted` and `cleaned` are history: the VMs whose map entries a delete
      run has taken out, and those for which such a run has ended. */
  datatype State = State(
    me: ServerId,
    rows: map<VmId, Row>,
    vmToCmd: map<VmId, CmdId>,
    vmToTap: map<VmId, int>,
    nextTap: nat,
    vsock: set<VmId>,
    cmds: seq<Cmd>,
    runs: map<VmId, Pc>,
    extracted: set<VmId>,
    cleaned: set<VmId>)

  /** `ok` says whether the foreign call or the statement of that step succeeds. */
  datatype Event =
    | Begin(vm: VmId)
    | Advance(vm: VmId, ok: bool)
    | ProcessExit(cmd: CmdId)
    | AdvanceWaiter(cmd: CmdId, exit: Option<Status>)
    | StopService(vm: VmId)
    | SoftDelete(vm: VmId)
    | CreateRow(vm: VmId, row: Row)
    | WriteStatus(vm: VmId, status: Status)

  // ---------------------------------------------------------------------
  // Steps
  // ---------------------------------------------------------------------

  const TWO32: nat := 0x1_0000_0000
  const TWO31: nat := 0x8000_0000

  /** The number in the tap name: nextTap is an atomic int32, which wraps around. */
  function TapNumber(count: nat): int {
    (count + TWO31) % TWO32 - TWO31
  }

  function Init(me: ServerId): State {
    State(me, map[], map[], map[], 0, {}, [], map[], {}, {})
  }

  function Goto(s: State, vm: VmId, pc: Pc): State {
    s.(runs := s.runs[vm := pc])
  }

  function End(s: State, vm: VmId): State {
    s.(runs := s.runs - {vm})
  }

  function Entry(s: State, vm: VmId): Option<CmdId> {
    if vm in s.vmToCmd then Some(s.vmToCmd[vm]) else None
  }

  /** delete(s.vmToTap, vm) and delete(s.vmToCmd, vm) under the lock */
  function DropEntries(s: State, vm: VmId): State {
    s.(vmToCmd := s.vmToCmd - {vm}, vmToTap := s.vmToTap - {vm})
  }

  /** Process.Kill on a command; it does nothing to one that is not alive. */
  function Kill(cmds: seq<Cmd>, cmd: Option<CmdId>): seq<Cmd> {
    if cmd.Some? && cmd.value < |cmds| && cmds[cmd.value].process.Alive?
    then cmds[cmd.value := cmds[cmd.value].(process := Alive(true))]
    else cmds
  }

  function SetStatus(s: State, vm: VmId, status: Status): State {
    if vm in s.rows then s.(rows := s.rows[vm := s.rows[vm].(status := status)]) else s
  }

  /** reconcileVMUpdateStatusIf: decided on the run's own copy, written to the
      table, and the copy replaced by the row the statement returns. */
  function UpdateStatusIf(s: State, vm: VmId, row: Row, after: Status, before: set<Status>): (State, Row) {
    if row.status in before && vm in s.rows
    then (SetStatus(s, vm, after), s.rows[vm].(status := after))
    else (s, row)
  }

  function Launch(s: State, vm: VmId, ok: bool): State
    requires vm in s.runs
  {
    match s.runs[vm]
    case Read =>
      if !ok || vm !in s.rows || s.rows[vm].server != s.me then End(s, vm)
      else if s.rows[vm].deleted then Goto(s, vm, DeleteUnregister)
      else Goto(s, vm, MarkStarting(s.rows[vm]))
    case MarkStarting(row) =>
      var (t, r) := UpdateStatusIf(s, vm, row, Starting, {Pending});
      if !ok && row.status.Pending? then End(s, vm) else Goto(t, vm, Recover(r))
    case Recover(row) =>
      var (t, r) := UpdateStatusIf(s, vm, row, Starting, {Failed, Stopped});
      if !ok && (row.status.Failed? || row.status.Stopped?) then End(s, vm) else Goto(t, vm, Check(r))
    case Check(row) =>
      Goto(s, vm, if vm in s.vmToCmd then MarkAlreadyRunning(row) else Prepare(row))
    case MarkAlreadyRunning(row) =>
      End(if ok then UpdateStatusIf(s, vm, row, Running, {Starting, Pending}).0 else s, vm)
    case Prepare(row) =>
      if !ok then End(s, vm) else Goto(s, vm, Register(row))
    case Register(row) =>
      var t := s.(vsock := s.vsock + {vm});
      if !ok then End(t, vm) else Goto(t, vm, TakeStale(row))
    case TakeStale(row) =>
      Goto(DropEntries(s, vm), vm, KillStale(row, Entry(s, vm)))
    case KillStale(row, stale) =>
      var cmds := Kill(s.cmds, stale);
      var cmd := Cmd(vm, TapNumber(s.nextTap + 1), NotStarted, NoWaiter);
      Goto(s.(nextTap := s.nextTap + 1, cmds := cmds + [cmd]), vm, Insert(row, |cmds|))
    case Insert(row, cmd) =>
      if cmd < |s.cmds| then
        Goto(s.(vmToCmd := s.vmToCmd[vm := cmd], vmToTap := s.vmToTap[vm := s.cmds[cmd].tap]), vm, Start(row, cmd))
      else s
    case Start(row, cmd) =>
      if !ok then End(s, vm)
      else if cmd < |s.cmds| then
        Goto(s.(cmds := s.cmds[cmd := s.cmds[cmd].(process := Alive(false))]), vm, MarkRunning(row, cmd))
      else s
    case MarkRunning(row, cmd) =>
      if !ok && row.status.Starting? then End(s, vm)
      else if cmd < |s.cmds| then
        var t := UpdateStatusIf(s, vm, row, Running, {Starting}).0;
        End(t.(cmds := t.cmds[cmd := t.cmds[cmd].(waiter := Waiting)]), vm)
      else s
    case _ => s
  }

  /** reconcileVmDelete */
  function Delete(s: State, vm: VmId): State
    requires vm in s.runs
  {
    match s.runs[vm]
    case DeleteUnregister => Goto(s.(vsock := s.vsock - {vm}), vm, DeleteExtract)
    case DeleteExtract =>
      Goto(DropEntries(s, vm).(extracted := s.extracted + {vm}), vm, DeleteKill(Entry(s, vm)))
    case DeleteKill(cmd) => Goto(s.(cmds := Kill(s.cmds, cmd)), vm, DeleteDisk)
    case DeleteDisk => End(s, vm).(cleaned := s.cleaned + {vm})
    case _ => s
  }

  function SetWaiter(s: State, c: CmdId, w: Waiter): State
    requires c < |s.cmds|
  {
    s.(cmds := s.cmds[c := s.cmds[c].(waiter := w)])
  }

  /** The exit goroutine: record the exit, unregister, take the entries out. */
  function Wait(s: State, c: CmdId, exit: Option<Status>): State
    requires c < |s.cmds|
  {
    var vm := s.cmds[c].vm;
    match s.cmds[c].waiter
    case Waiting => SetWaiter(if exit.Some? then SetStatus(s, vm, exit.value) else s, c, Unregistering)
    case Unregistering => SetWaiter(s.(vsock := s.vsock - {vm}), c, Removing)
    case Removing => SetWaiter(DropEntries(s, vm), c, Done)
    case _ => s
  }

  predicate Enabled(s: State, e: Event) {
    match e
    // single flight: the scheduler starts no second run of a VM
    case Begin(vm) => vm !in s.runs
    case Advance(vm, _) => vm in s.runs
    case ProcessExit(c) => c < |s.cmds| && s.cmds[c].process.Alive?
    case AdvanceWaiter(c, _) => c < |s.cmds| && s.cmds[c].process.Exited?
    case StopService(_) => true
    case SoftDelete(vm) => vm in s.rows
    case CreateRow(vm, row) => vm !in s.rows && !row.deleted
    case WriteStatus(vm, _) => vm in s.rows
  }

  function Next(s: State, e: Event): State
    requires Enabled(s, e)
  {
    match e
    case Begin(vm) => Goto(s, vm, Read)
    case Advance(vm, ok) => if s.runs[vm].Deleting() then Delete(s, vm) else Launch(s, vm, ok)
    case ProcessExit(c) => s.(cmds := s.cmds[c := s.cmds[c].(process := Exited)])
    case AdvanceWaiter(c, exit) => Wait(s, c, exit)
    case StopService(vm) => s.(cmds := Kill(s.cmds, Entry(s, vm)))
    case SoftDelete(vm) => s.(rows := s.rows[vm := s.rows[vm].(deleted := true)])
    case CreateRow(vm, row) => s.(rows := s.rows[vm := row])
    case WriteStatus(vm, status) => SetStatus(s, vm, status)
  }

  // ---------------------------------------------------------------------
  // The invariant
  // ---------------------------------------------------------------------

  /** Everything in a state that concerns one VM, except its commands. */
  datatype View = View(
    row: Option<Row>, cmd: Option<CmdId>, tap: Option<int>, registered: bool,
    pc: Option<Pc>, extracted: bool, cleaned: bool)

  function Lookup<T>(m: map<VmId, T>, vm: VmId): Option<T> {
    if vm in m then Some(m[vm]) else None
  }

  function ViewOf(s: State, vm: VmId): View {
    View(Lookup(s.rows, vm), Lookup(s.vmToCmd, vm), Lookup(s.vmToTap, vm), vm in s.vsock,
         Lookup(s.runs, vm), vm in s.extracted, vm in s.cleaned)
  }

  predicate Mine(me: ServerId, v: View) {
    v.row.Some? && v.row.value.server == me
  }

  /** The exit goroutine of the command may still take out map entries. */
  predicate Armed(cmd: Cmd) {
    cmd.waiter.Waiting? || cmd.waiter.Unregistering? || cmd.waiter.Removing?
  }

  /** A live process nobody has killed is the one the maps know, or the one a
      delete run is about to kill; a goroutine that can still remove entries
      belongs to the command the maps know, unless the VM is gone for good. */
  predicate CmdOk(me: ServerId, v: View, c: CmdId, cmd: Cmd) {
    && Mine(me, v)
    && (cmd.process == Alive(false) ==> v.cmd == Some(c) || v.pc == Some(DeleteKill(Some(c))))
    && (Armed(cmd) ==> v.cmd == Some(c) || v.extracted)
  }

  predicate MapsOk(v: View, vm: VmId, cmds: seq<Cmd>) {
    && (v.cmd.Some? <==> v.tap.Some?)
    && (v.cmd.Some? ==> v.cmd.value < |cmds| && cmds[v.cmd.value].vm == vm && v.tap.value == cmds[v.cmd.value].tap)
  }

  predicate GoneOk(v: View) {
    && (v.cleaned ==> v.extracted)
    && (v.extracted ==>
          && v.row.Some? && v.row.value.deleted
          && v.cmd.None? && !v.registered
          && (v.pc.Some? ==> !v.pc.value.Launching()))
  }

  predicate FreshCmd(vm: VmId, cmds: seq<Cmd>, c: CmdId) {
    c < |cmds| && cmds[c].vm == vm && cmds[c].process.NotStarted? && cmds[c].waiter.NoWaiter?
  }

  predicate PcOk(me: ServerId, v: View, vm: VmId, cmds: seq<Cmd>, pc: Pc) {
    && (!pc.Read? ==> Mine(me, v))
    && (pc.Deleting() ==> v.row.value.deleted)
    && match pc
       case Prepare(_) => v.cmd.None?
       case Register(_) => v.cmd.None?
       case TakeStale(_) => v.cmd.None?
       case KillStale(_, stale) => v.cmd.None? && stale.None?
       case Insert(_, c) => v.cmd.None? && FreshCmd(vm, cmds, c)
       case Start(_, c) => v.cmd == Some(c) && FreshCmd(vm, cmds, c)
       case MarkRunning(_, c) => v.cmd == Some(c) && c < |cmds| && cmds[c].waiter.NoWaiter?
       case DeleteExtract => !v.registered
       case DeleteKill(cmd) =>
         v.extracted && (cmd.Some? ==> !v.cleaned && cmd.value < |cmds| && cmds[cmd.value].vm == vm)
       case DeleteDisk => v.extracted
       case _ => true
  }

  ghost predicate CmdsOk(me: ServerId, v: View, vm: VmId, cmds: seq<Cmd>) {
    forall c :: 0 <= c < |cmds| && cmds[c].vm == vm ==> CmdOk(me, v, c, cmds[c])
  }

  ghost predicate VmInv(me: ServerId, v: View, vm: VmId, cmds: seq<Cmd>) {
    && MapsOk(v, vm, cmds)
    && GoneOk(v)
    && CmdsOk(me, v, vm, cmds)
    && (v.pc.Some? ==> PcOk(me, v, vm, cmds, v.pc.value))
  }

  ghost predicate TapsInv(s: State) {
    && s.nextTap == |s.cmds|
    && forall c :: 0 <= c < |s.cmds| ==> s.cmds[c].tap == TapNumber(c + 1)
  }

  ghost predicate Inv(s: State) {
    && TapsInv(s)
    && forall vm: VmId :: VmInv(s.me, ViewOf(s, vm), vm, s.cmds)
  }

  // ---------------------------------------------------------------------
  // Preservation: a step touches one VM, and only that one needs a look
  // ---------------------------------------------------------------------

  ghost predicate Touches(s: State, t: State, vm: VmId) {
    && s.me == t.me
    && |s.cmds| <= |t.cmds|
    && (forall c :: 0 <= c < |s.cmds| ==> t.cmds[c].vm == s.cmds[c].vm && t.cmds[c].tap == s.cmds[c].tap)
    && (forall c :: 0 <= c < |s.cmds| && s.cmds[c].vm != vm ==> t.cmds[c] == s.cmds[c])
    && (forall c :: |s.cmds| <= c < |t.cmds| ==> t.cmds[c].vm == vm)
    && (forall v: VmId :: v != vm ==> ViewOf(t, v) == ViewOf(s, v))
    && (vm in s.rows ==>
          vm in t.rows && t.rows[vm].server == s.rows[vm].server && (s.rows[vm].deleted ==> t.rows[vm].deleted))
    && s.extracted <= t.extracted
    && s.cleaned <= t.cleaned
  }

  /** The VM a step is about. */
  function Owner(s: State, e: Event): VmId
    requires Enabled(s, e)
  {
    if e.ProcessExit? || e.AdvanceWaiter? then s.cmds[e.cmd].vm else e.vm
  }

  lemma TouchInv(s: State, t: State, vm: VmId)
    requires Inv(s) && Touches(s, t, vm) && TapsInv(t)
    requires VmInv(s.me, ViewOf(t, vm), vm, t.cmds)
    ensures Inv(t)
  {
    forall v: VmId ensures VmInv(t.me, ViewOf(t, v), v, t.cmds) {
      if v != vm {
        assert VmInv(s.me, ViewOf(s, v), v, s.cmds);
        forall c | 0 <= c < |t.cmds| && t.cmds[c].vm == v ensures CmdOk(t.me, ViewOf(t, v), c, t.cmds[c]) {
          assert c < |s.cmds|;
        }
      }
    }
  }

  lemma InitInv(me: ServerId)
    ensures Inv(Init(me))
  {
  }

  /** A status update that takes the run of the VM on, or ends it. */
  lemma StatusInv(s: State, t: State, vm: VmId)
    requires Inv(s) && vm in s.runs && !s.runs[vm].Deleting() && !s.runs[vm].Read?
    requires t == s.(rows := t.rows, runs := t.runs)
    requires t.rows == s.rows || (vm in s.rows && exists st :: t.rows == s.rows[vm := s.rows[vm].(status := st)])
    requires t.runs == s.runs - {vm}
      || exists row :: t.runs == s.runs[vm := Recover(row)] || t.runs == s.runs[vm := Check(row)]
    ensures Inv(t) && Touches(s, t, vm)
  {
    assert VmInv(s.me, ViewOf(s, vm), vm, s.cmds);
    assert Touches(s, t, vm);
    TouchInv(s, t, vm);
  }

  lemma MarkStartingInv(s: State, vm: VmId, ok: bool)
    requires Inv(s) && vm in s.runs
    requires s.runs[vm].MarkStarting?
    ensures Inv(Launch(s, vm, ok)) && Touches(s, Launch(s, vm, ok), vm)
  {
    hide Inv, Touches, VmInv;
    StatusInv(s, Launch(s, vm, ok), vm);
  }

  lemma RecoverInv(s: State, vm: VmId, ok: bool)
    requires Inv(s) && vm in s.runs
    requires s.runs[vm].Recover?
    ensures Inv(Launch(s, vm, ok)) && Touches(s, Launch(s, vm, ok), vm)
  {
    hide Inv, Touches, VmInv;
    StatusInv(s, Launch(s, vm, ok), vm);
  }

  lemma AlreadyRunningInv(s: State, vm: VmId, ok: bool)
    requires Inv(s) && vm in s.runs
    requires s.runs[vm].MarkAlreadyRunning?
    ensures Inv(Launch(s, vm, ok)) && Touches(s, Launch(s, vm, ok), vm)
  {
    hide Inv, Touches, VmInv;
    StatusInv(s, Launch(s, vm, ok), vm);
  }

  lemma PrepareInv(s: State, vm: VmId, ok: bool)
    requires Inv(s) && vm in s.runs
    requires s.runs[vm].Read? || s.runs[vm].Check? || s.runs[vm].Prepare?
    ensures Inv(Launch(s, vm, ok)) && Touches(s, Launch(s, vm, ok), vm)
  {
    var t := Launch(s, vm, ok);
    assert VmInv(s.me, ViewOf(s, vm), vm, s.cmds);
    assert Touches(s, t, vm) && t.cmds == s.cmds;
    TouchInv(s, t, vm);
  }

  lemma RegisterInv(s: State, vm: VmId, ok: bool)
    requires Inv(s) && vm in s.runs && (s.runs[vm].Register? || s.runs[vm].TakeStale?)
    ensures Inv(Launch(s, vm, ok)) && Touches(s, Launch(s, vm, ok), vm)
  {
    var t := Launch(s, vm, ok);
    assert VmInv(s.me, ViewOf(s, vm), vm, s.cmds);
    assert Touches(s, t, vm) && t.cmds == s.cmds;
    TouchInv(s, t, vm);
  }

  lemma NewCommandInv(s: State, vm: VmId, ok: bool)
    requires Inv(s) && vm in s.runs && s.runs[vm].KillStale?
    ensures Inv(Launch(s, vm, ok)) && Touches(s, Launch(s, vm, ok), vm)
  {
    var t := Launch(s, vm, ok);
    assert VmInv(s.me, ViewOf(s, vm), vm, s.cmds);
    assert t.cmds == s.cmds + [Cmd(vm, TapNumber(s.nextTap + 1), NotStarted, NoWaiter)];
    assert Touches(s, t, vm);
    TouchInv(s, t, vm);
  }

  lemma InsertInv(s: State, vm: VmId, ok: bool)
    requires Inv(s) && vm in s.runs && s.runs[vm].Insert?
    ensures Inv(Launch(s, vm, ok)) && Touches(s, Launch(s, vm, ok), vm)
  {
    var t := Launch(s, vm, ok);
    assert VmInv(s.me, ViewOf(s, vm), vm, s.cmds);
    assert Touches(s, t, vm) && t.cmds == s.cmds;
    TouchInv(s, t, vm);
  }

  lemma StartInv(s: State, vm: VmId, ok: bool)
    requires Inv(s) && vm in s.runs && s.runs[vm].Start?
    ensures Inv(Launch(s, vm, ok)) && Touches(s, Launch(s, vm, ok), vm)
  {
    var t := Launch(s, vm, ok);
    assert VmInv(s.me, ViewOf(s, vm), vm, s.cmds);
    assert Touches(s, t, vm);
    TouchInv(s, t, vm);
  }

  lemma MarkRunningInv(s: State, vm: VmId, ok: bool)
    requires Inv(s) && vm in s.runs && s.runs[vm].MarkRunning?
    ensures Inv(Launch(s, vm, ok)) && Touches(s, Launch(s, vm, ok), vm)
  {
    var t := Launch(s, vm, ok);
    assert VmInv(s.me, ViewOf(s, vm), vm, s.cmds);
    assert Touches(s, t, vm);
    TouchInv(s, t, vm);
  }

  lemma UnmapInv(s: State, vm: VmId)
    requires Inv(s) && vm in s.runs && (s.runs[vm].DeleteUnregister? || s.runs[vm].DeleteExtract?)
    ensures Inv(Delete(s, vm)) && Touches(s, Delete(s, vm), vm)
  {
    var t := Delete(s, vm);
    assert VmInv(s.me, ViewOf(s, vm), vm, s.cmds);
    assert Touches(s, t, vm) && t.cmds == s.cmds;
    TouchInv(s, t, vm);
  }

  lemma CleanInv(s: State, vm: VmId)
    requires Inv(s) && vm in s.runs && (s.runs[vm].DeleteKill? || s.runs[vm].DeleteDisk?)
    ensures Inv(Delete(s, vm)) && Touches(s, Delete(s, vm), vm)
  {
    var t := Delete(s, vm);
    assert VmInv(s.me, ViewOf(s, vm), vm, s.cmds);
    assert Touches(s, t, vm);
    TouchInv(s, t, vm);
  }

  lemma DeleteInv(s: State, vm: VmId)
    requires Inv(s) && vm in s.runs && s.runs[vm].Deleting()
    ensures Inv(Delete(s, vm)) && Touches(s, Delete(s, vm), vm)
  {
    hide Inv, Touches, Delete;
    if s.runs[vm].DeleteUnregister? || s.runs[vm].DeleteExtract? { UnmapInv(s, vm); } else { CleanInv(s, vm); }
  }

  lemma RecordInv(s: State, c: CmdId, exit: Option<Status>)
    requires Inv(s) && c < |s.cmds| && s.cmds[c].process.Exited? && s.cmds[c].waiter.Waiting?
    ensures Inv(Wait(s, c, exit)) && Touches(s, Wait(s, c, exit), s.cmds[c].vm)
  {
    var t, vm := Wait(s, c, exit), s.cmds[c].vm;
    assert VmInv(s.me, ViewOf(s, vm), vm, s.cmds);
    assert CmdOk(s.me, ViewOf(s, vm), c, s.cmds[c]);
    assert Touches(s, t, vm);
    TouchInv(s, t, vm);
  }

  lemma UnregisterInv(s: State, c: CmdId, exit: Option<Status>)
    requires Inv(s) && c < |s.cmds| && s.cmds[c].process.Exited? && s.cmds[c].waiter.Unregistering?
    ensures Inv(Wait(s, c, exit)) && Touches(s, Wait(s, c, exit), s.cmds[c].vm)
  {
    var t, vm := Wait(s, c, exit), s.cmds[c].vm;
    assert VmInv(s.me, ViewOf(s, vm), vm, s.cmds);
    assert CmdOk(s.me, ViewOf(s, vm), c, s.cmds[c]);
    assert Touches(s, t, vm);
    TouchInv(s, t, vm);
  }

  /** Taking the entries out is harmless: an armed goroutine belongs to the very
      command the maps hold, so no other command loses its entry. */
  lemma RemoveInv(s: State, c: CmdId, exit: Option<Status>)
    requires Inv(s) && c < |s.cmds| && s.cmds[c].process.Exited? && s.cmds[c].waiter.Removing?
    ensures Inv(Wait(s, c, exit)) && Touches(s, Wait(s, c, exit), s.cmds[c].vm)
  {
    var t, vm := Wait(s, c, exit), s.cmds[c].vm;
    assert VmInv(s.me, ViewOf(s, vm), vm, s.cmds);
    assert CmdOk(s.me, ViewOf(s, vm), c, s.cmds[c]);
    assert Touches(s, t, vm);
    TouchInv(s, t, vm);
  }

  lemma WaitInv(s: State, c: CmdId, exit: Option<Status>)
    requires Inv(s) && c < |s.cmds| && s.cmds[c].process.Exited?
    ensures Inv(Wait(s, c, exit)) && Touches(s, Wait(s, c, exit), s.cmds[c].vm)
  {
    match s.cmds[c].waiter
    case Waiting => RecordInv(s, c, exit);
    case Unregistering => UnregisterInv(s, c, exit);
    case Removing => RemoveInv(s, c, exit);
    case _ =>
  }

  lemma TableInv(s: State, e: Event)
    requires Inv(s) && Enabled(s, e) && (e.Begin? || e.SoftDelete? || e.CreateRow? || e.WriteStatus?)
    ensures Inv(Next(s, e)) && Touches(s, Next(s, e), Owner(s, e))
  {
    hide Launch, Delete, Wait;
    var t := Next(s, e);
    assert VmInv(s.me, ViewOf(s, e.vm), e.vm, s.cmds);
    assert Touches(s, t, e.vm);
    TouchInv(s, t, e.vm);
  }

  lemma ProcessInv(s: State, e: Event)
    requires Inv(s) && Enabled(s, e) && (e.ProcessExit? || e.StopService?)
    ensures Inv(Next(s, e)) && Touches(s, Next(s, e), Owner(s, e))
  {
    hide Launch, Delete, Wait;
    var t := Next(s, e);
    var vm := Owner(s, e);
    assert VmInv(s.me, ViewOf(s, vm), vm, s.cmds);
    assert Touches(s, t, vm);
    TouchInv(s, t, vm);
  }

  lemma NextInv(s: State, e: Event)
    requires Inv(s) && Enabled(s, e)
    ensures Inv(Next(s, e)) && Touches(s, Next(s, e), Owner(s, e))
  {
    hide VmInv, TapsInv, Launch, Delete, Wait;
    match e
    case Advance(vm, ok) =>
      if s.runs[vm].Deleting() { DeleteInv(s, vm); }
      else {
        match s.runs[vm]
        case Register(_) => RegisterInv(s, vm, ok);
        case TakeStale(_) => RegisterInv(s, vm, ok);
        case KillStale(_, _) => NewCommandInv(s, vm, ok);
        case Insert(_, _) => InsertInv(s, vm, ok);
        case Start(_, _) => StartInv(s, vm, ok);
        case MarkRunning(_, _) => MarkRunningInv(s, vm, ok);
        case MarkStarting(_) => MarkStartingInv(s, vm, ok);
        case Recover(_) => RecoverInv(s, vm, ok);
        case MarkAlreadyRunning(_) => AlreadyRunningInv(s, vm, ok);
        case _ => PrepareInv(s, vm, ok);
      }
    case AdvanceWaiter(c, exit) => WaitInv(s, c, exit);
    case ProcessExit(_) => ProcessInv(s, e);
    case StopService(_) => ProcessInv(s, e);
    case _ => TableInv(s, e);
  }

  // ---------------------------------------------------------------------
  // Runs
  // ---------------------------------------------------------------------

  datatype Run = Run(states: seq<State>, events: seq<Event>)

  ghost predicate IsRun(r: Run) {
    && |r.states| == |r.events| + 1
    && r.states[0] == Init(r.states[0].me)
    && forall i :: 0 <= i < |r.events| ==>
         Enabled(r.states[i], r.events[i]) && r.states[i + 1] == Next(r.states[i], r.events[i])
  }

  lemma {:induction false} RunInv(r: Run, k: nat)
    requires IsRun(r) && k < |r.states|
    ensures Inv(r.states[k])
  {
    if k == 0 {
      InitInv(r.states[0].me);
    } else {
      RunInv(r, k - 1);
      NextInv(r.states[k - 1], r.events[k - 1]);
    }
  }

  predicate Live(s: State, c: CmdId) {
    c < |s.cmds| && s.cmds[c].process == Alive(false)
  }

  /** In no reachable state does a VM have two live, unkilled hypervisors, and the
      one it may have runs for a row this server owns. */
  lemma AtMostOneLiveProcess(r: Run, k: nat, c: CmdId, d: CmdId)
    requires IsRun(r) && k < |r.states|
    requires Live(r.states[k], c) && Live(r.states[k], d)
    ensures r.states[k].cmds[c].vm == r.states[k].cmds[d].vm ==> c == d
    ensures Mine(r.states[k].me, ViewOf(r.states[k], r.states[k].cmds[c].vm))
  {
    RunInv(r, k);
    var s := r.states[k];
    var v := ViewOf(s, s.cmds[c].vm);
    assert VmInv(s.me, v, s.cmds[c].vm, s.cmds);
    assert CmdOk(s.me, v, c, s.cmds[c]);
    if s.cmds[c].vm == s.cmds[d].vm {
      assert CmdOk(s.me, v, d, s.cmds[d]);
    }
  }

  /** No two servers run a hypervisor for the same VM, looked at in any two
      moments: all it takes is that they know the same server of that VM, which
      no statement changes. */
  lemma OneServerPerVm(r: Run, k: nat, c: CmdId, r': Run, k': nat, c': CmdId)
    requires IsRun(r) && k < |r.states| && IsRun(r') && k' < |r'.states|
    requires Live(r.states[k], c) && Live(r'.states[k'], c') && r.states[k].me != r'.states[k'].me
    requires var vm := r.states[k].cmds[c].vm;
             vm in r.states[k].rows && vm in r'.states[k'].rows ==>
               r.states[k].rows[vm].server == r'.states[k'].rows[vm].server
    ensures r.states[k].cmds[c].vm != r'.states[k'].cmds[c'].vm
  {
    AtMostOneLiveProcess(r, k, c, c);
    AtMostOneLiveProcess(r', k', c', c');
  }

  /** The server of a row never changes in a run. */
  lemma {:induction false} ServerFixed(r: Run, i: nat, k: nat, vm: VmId)
    requires IsRun(r) && i <= k < |r.states| && vm in r.states[i].rows
    ensures vm in r.states[k].rows && r.states[k].rows[vm].server == r.states[i].rows[vm].server
    decreases k
  {
    hide Next, Inv;
    if i < k {
      ServerFixed(r, i, k - 1, vm);
      RunInv(r, k - 1);
      var s, e := r.states[k - 1], r.events[k - 1];
      NextInv(s, e);
      if Owner(s, e) != vm { assert ViewOf(Next(s, e), vm) == ViewOf(s, vm); }
    }
  }

  lemma MapsAgree(r: Run, k: nat)
    requires IsRun(r) && k < |r.states|
    ensures r.states[k].vmToCmd.Keys == r.states[k].vmToTap.Keys
  {
    RunInv(r, k);
    var s := r.states[k];
    forall vm: VmId ensures vm in s.vmToCmd <==> vm in s.vmToTap {
      assert VmInv(s.me, ViewOf(s, vm), vm, s.cmds);
    }
  }

  /** nextTap wraps: names repeat with period 2^32 and not sooner. */
  lemma TapNumbersRepeat(i: nat, j: nat)
    ensures TapNumber(i) == TapNumber(j) <==> (i - j) % TWO32 == 0
    ensures -0x8000_0000 <= TapNumber(i) < 0x8000_0000 && (i < 0x8000_0000 ==> TapNumber(i) == i)
  {
  }

  /** Until the server has started 2^32 hypervisors no two VMs share a tap name. */
  lemma TapsNeverShared(r: Run, k: nat, v: VmId, w: VmId)
    requires IsRun(r) && k < |r.states| && r.states[k].nextTap <= TWO32
    requires v != w && v in r.states[k].vmToTap && w in r.states[k].vmToTap
    ensures r.states[k].vmToTap[v] != r.states[k].vmToTap[w]
  {
    RunInv(r, k);
    var s := r.states[k];
    assert VmInv(s.me, ViewOf(s, v), v, s.cmds);
    assert VmInv(s.me, ViewOf(s, w), w, s.cmds);
    TapNumbersRepeat(s.vmToCmd[v] + 1, s.vmToCmd[w] + 1);
  }

  /** An exit goroutine, however late it runs, drops no entry but its own
      command's, and no registration of a run that has got past registering. */
  lemma StaleWaiterHarmless(r: Run, k: nat)
    requires IsRun(r) && k < |r.events| && r.events[k].AdvanceWaiter?
    ensures var s, t, c := r.states[k], r.states[k + 1], r.events[k].cmd;
            forall vm :: vm in s.vmToCmd && s.vmToCmd[vm] != c ==>
              && vm in t.vmToCmd && t.vmToCmd[vm] == s.vmToCmd[vm]
              && Lookup(t.vmToTap, vm) == Lookup(s.vmToTap, vm)
    ensures var s, t := r.states[k], r.states[k + 1];
            forall vm :: vm in s.runs && vm in s.vsock && vm !in t.vsock ==>
              var pc := s.runs[vm];
              !(pc.TakeStale? || pc.KillStale? || pc.Insert? || pc.Start? || pc.MarkRunning?)
  {
    RunInv(r, k);
    var s, t, c := r.states[k], r.states[k + 1], r.events[k].cmd;
    var vm := s.cmds[c].vm;
    assert VmInv(s.me, ViewOf(s, vm), vm, s.cmds);
    assert CmdOk(s.me, ViewOf(s, vm), c, s.cmds[c]);
    forall v | v in s.vmToCmd && s.vmToCmd[v] != c
      ensures v in t.vmToCmd && t.vmToCmd[v] == s.vmToCmd[v] && Lookup(t.vmToTap, v) == Lookup(s.vmToTap, v)
    {
      assert VmInv(s.me, ViewOf(s, v), v, s.cmds);
    }
  }

  // ---------------------------------------------------------------------
  // What the exit goroutine writes
  // ---------------------------------------------------------------------

  /** Its three steps, on the fields: the status, the registration, the two entries, each of the
      command's own VM and of no other. */
  lemma WaiterWrites(s: State, c: CmdId, exit: Option<Status>)
    requires Enabled(s, AdvanceWaiter(c, exit))
    ensures var t := Next(s, AdvanceWaiter(c, exit));
            var vm, w := s.cmds[c].vm, s.cmds[c].waiter;
            && t.rows == (if w == Waiting && exit.Some? && vm in s.rows
                          then s.rows[vm := s.rows[vm].(status := exit.value)] else s.rows)
            && t.vsock == (if w == Unregistering then s.vsock - {vm} else s.vsock)
            && t.vmToCmd == (if w == Removing then s.vmToCmd - {vm} else s.vmToCmd)
            && t.vmToTap == (if w == Removing then s.vmToTap - {vm} else s.vmToTap)
            && |t.cmds| == |s.cmds| && t.cmds[c].process == s.cmds[c].process
            && (w == Waiting ==> t.cmds[c].waiter == Unregistering)
            && (w == Unregistering ==> t.cmds[c].waiter == Removing)
            && (w == Removing ==> t.cmds[c].waiter == Done)
            && t.runs == s.runs && t.nextTap == s.nextTap
  {
    hide Launch, Delete, Kill;
  }

  /** Nothing but a user's deletion changes a row apart from its status. */
  lemma RowChangedBy(s: State, e: Event, vm: VmId)
    requires Inv(s) && Enabled(s, e) && vm in s.rows
    ensures vm in Next(s, e).rows
    ensures var was, now := s.rows[vm], Next(s, e).rows[vm];
            now == was.(status := now.status) || (e == SoftDelete(vm) && now == was.(deleted := true))
  {
    hide Inv, Next;
    NextInv(s, e);
    if Owner(s, e) != vm {
      assert ViewOf(Next(s, e), vm) == ViewOf(s, vm);
    } else if e.Advance? {
      RowAdvance(s, vm, e.ok);
    } else if e.AdvanceWaiter? {
      WaiterWrites(s, e.cmd, e.exit);
    } else {
      RowOther(s, e, vm);
    }
  }

  lemma RowAdvance(s: State, vm: VmId, ok: bool)
    requires vm in s.runs && vm in s.rows
    ensures var t := Next(s, Advance(vm, ok)); vm in t.rows && t.rows[vm] == s.rows[vm].(status := t.rows[vm].status)
  {
    hide Next;
    if WritesStatus(s, Advance(vm, ok), vm) { RowUpdate(s, vm, ok); } else { StatusAdvance(s, vm, ok); }
  }

  lemma RowUpdate(s: State, vm: VmId, ok: bool)
    requires vm in s.runs && vm in s.rows && WritesStatus(s, Advance(vm, ok), vm)
    ensures var t := Next(s, Advance(vm, ok)); vm in t.rows && t.rows[vm] == s.rows[vm].(status := t.rows[vm].status)
  {
    hide Launch, Delete;
    if s.runs[vm].MarkStarting? || s.runs[vm].Recover? { EarlyUpdate(s, vm, ok); } else { LateUpdate(s, vm, ok); }
  }

  lemma EarlyUpdate(s: State, vm: VmId, ok: bool)
    requires vm in s.runs && vm in s.rows && (s.runs[vm].MarkStarting? || s.runs[vm].Recover?)
    ensures var t := Launch(s, vm, ok); vm in t.rows && t.rows[vm] == s.rows[vm].(status := t.rows[vm].status)
  {
    hide Kill, TapNumber;
  }

  lemma LateUpdate(s: State, vm: VmId, ok: bool)
    requires vm in s.runs && vm in s.rows && (s.runs[vm].MarkAlreadyRunning? || s.runs[vm].MarkRunning?)
    ensures var t := Launch(s, vm, ok); vm in t.rows && t.rows[vm] == s.rows[vm].(status := t.rows[vm].status)
  {
    hide Kill, TapNumber;
  }

  /** What a step may do to the process of a command: end it, start it, or kill it while it runs;
      only a service stop, a delete run and a run about to launch kill, and only what they hold. */
  lemma ProcessChangedBy(s: State, e: Event, c: CmdId)
    requires Enabled(s, e) && c < |s.cmds|
    ensures var t := Next(s, e);
            && c < |t.cmds|
            && var was, now := s.cmds[c].process, t.cmds[c].process;
               || now == was
               || (e == ProcessExit(c) && was.Alive? && now == Exited)
               || (e.Advance? && e.ok && s.runs[e.vm].Start? && s.runs[e.vm].cmd == c && now == Alive(false))
               || (was.Alive? && now == Alive(true)
                   && ((e.StopService? && e.vm in s.vmToCmd && s.vmToCmd[e.vm] == c)
                       || (e.Advance? && s.runs[e.vm] == DeleteKill(Some(c)))
                       || (e.Advance? && s.runs[e.vm].KillStale? && s.runs[e.vm].stale == Some(c))))
  {
    hide Next;
    if e.Advance? {
      if s.runs[e.vm].Deleting() { ProcessDelete(s, e.vm, c); } else { ProcessLaunch(s, e.vm, e.ok, c); }
      AdvanceIs(s, e.vm, e.ok);
    } else if e.AdvanceWaiter? {
      WaiterWrites(s, e.cmd, e.exit);
      ProcessWait(s, e, c);
    } else {
      ProcessOther(s, e, c);
    }
  }

  lemma AdvanceIs(s: State, vm: VmId, ok: bool)
    requires vm in s.runs
    ensures Next(s, Advance(vm, ok)) == if s.runs[vm].Deleting() then Delete(s, vm) else Launch(s, vm, ok)
  {
    hide Launch, Delete;
  }

  lemma ProcessDelete(s: State, vm: VmId, c: CmdId)
    requires vm in s.runs && s.runs[vm].Deleting() && c < |s.cmds|
    ensures var t := Delete(s, vm);
            && c < |t.cmds|
            && (t.cmds[c].process == s.cmds[c].process
                || (s.cmds[c].process.Alive? && t.cmds[c].process == Alive(true) && s.runs[vm] == DeleteKill(Some(c))))
  {
  }

  lemma ProcessLaunch(s: State, vm: VmId, ok: bool, c: CmdId)
    requires vm in s.runs && !s.runs[vm].Deleting() && c < |s.cmds|
    ensures var t := Launch(s, vm, ok);
            && c < |t.cmds|
            && (t.cmds[c].process == s.cmds[c].process
                || (ok && s.runs[vm].Start? && s.runs[vm].cmd == c && t.cmds[c].process == Alive(false))
                || (s.cmds[c].process.Alive? && t.cmds[c].process == Alive(true)
                    && s.runs[vm].KillStale? && s.runs[vm].stale == Some(c)))
  {
    hide Launch;
    if s.runs[vm].KillStale? || s.runs[vm].Start? || s.runs[vm].MarkRunning? {
      CommandLaunch(s, vm, ok, c);
    } else {
      SameCommands(s, vm, ok);
    }
  }

  lemma SameCommands(s: State, vm: VmId, ok: bool)
    requires vm in s.runs && !s.runs[vm].KillStale? && !s.runs[vm].Start? && !s.runs[vm].MarkRunning?
    ensures Launch(s, vm, ok).cmds == s.cmds
  {
    hide TapNumber, Kill;
  }

  lemma CommandLaunch(s: State, vm: VmId, ok: bool, c: CmdId)
    requires vm in s.runs && (s.runs[vm].KillStale? || s.runs[vm].Start? || s.runs[vm].MarkRunning?) && c < |s.cmds|
    ensures var t := Launch(s, vm, ok);
            && c < |t.cmds|
            && (t.cmds[c].process == s.cmds[c].process
                || (ok && s.runs[vm].Start? && s.runs[vm].cmd == c && t.cmds[c].process == Alive(false))
                || (s.cmds[c].process.Alive? && t.cmds[c].process == Alive(true)
                    && s.runs[vm].KillStale? && s.runs[vm].stale == Some(c)))
  {
    hide TapNumber;
  }

  lemma ProcessWait(s: State, e: Event, c: CmdId)
    requires Enabled(s, e) && e.AdvanceWaiter? && c < |s.cmds|
    ensures c < |Next(s, e).cmds| && Next(s, e).cmds[c].process == s.cmds[c].process
  {
    hide Launch, Delete, Kill;
  }

  lemma ProcessOther(s: State, e: Event, c: CmdId)
    requires Enabled(s, e) && !e.Advance? && !e.AdvanceWaiter? && c < |s.cmds|
    ensures var t := Next(s, e);
            && c < |t.cmds|
            && (t.cmds[c].process == s.cmds[c].process
                || (e == ProcessExit(c) && s.cmds[c].process.Alive? && t.cmds[c].process == Exited)
                || (s.cmds[c].process.Alive? && t.cmds[c].process == Alive(true)
                    && e.StopService? && e.vm in s.vmToCmd && s.vmToCmd[e.vm] == c))
  {
    hide Launch, Delete, Wait;
  }

  lemma RowOther(s: State, e: Event, vm: VmId)
    requires Enabled(s, e) && vm in s.rows && Owner(s, e) == vm && !e.Advance? && !e.AdvanceWaiter?
    ensures var t := Next(s, e);
            && vm in t.rows
            && (t.rows[vm] == s.rows[vm].(status := t.rows[vm].status)
                || (e == SoftDelete(vm) && t.rows[vm] == s.rows[vm].(deleted := true)))
  {
    hide Launch, Delete, Wait;
  }

  /** The steps that may write the status of the VM's row. */
  predicate WritesStatus(s: State, e: Event, vm: VmId) {
    match e
    case WriteStatus(v, _) => v == vm
    case Advance(v, _) =>
      v == vm && vm in s.runs
      && var pc := s.runs[vm]; pc.MarkStarting? || pc.Recover? || pc.MarkAlreadyRunning? || pc.MarkRunning?
    case AdvanceWaiter(c, exit) => c < |s.cmds| && s.cmds[c].vm == vm && s.cmds[c].waiter.Waiting? && exit.Some?
    case _ => false
  }

  lemma StatusStep(s: State, e: Event, vm: VmId)
    requires Inv(s) && Enabled(s, e) && vm in s.rows && !WritesStatus(s, e, vm)
    ensures vm in Next(s, e).rows && Next(s, e).rows[vm].status == s.rows[vm].status
  {
    hide Inv, Next;
    NextInv(s, e);
    if Owner(s, e) != vm {
      assert ViewOf(Next(s, e), vm) == ViewOf(s, vm);
    } else if e.Advance? {
      StatusAdvance(s, vm, e.ok);
    } else if e.AdvanceWaiter? {
      WaiterWrites(s, e.cmd, e.exit);
    } else {
      StatusOther(s, e, vm);
    }
  }

  lemma StatusAdvance(s: State, vm: VmId, ok: bool)
    requires vm in s.runs && !WritesStatus(s, Advance(vm, ok), vm)
    ensures Next(s, Advance(vm, ok)).rows == s.rows
  {
    hide Wait, Kill, TapNumber;
  }

  lemma StatusOther(s: State, e: Event, vm: VmId)
    requires Enabled(s, e) && vm in s.rows && Owner(s, e) == vm && !e.Advance? && !e.AdvanceWaiter? && !WritesStatus(s, e, vm)
    ensures vm in Next(s, e).rows && Next(s, e).rows[vm].status == s.rows[vm].status
  {
    hide Launch, Delete, Wait;
  }

  /** An exit that the goroutine recorded is the row's status until another step writes it. */
  lemma {:induction false} RecordedExitStays(r: Run, i: nat, k: nat, vm: VmId)
    requires IsRun(r) && i < k < |r.states| && r.events[i].AdvanceWaiter? && r.events[i].exit.Some?
    requires var c := r.events[i].cmd;
             c < |r.states[i].cmds| && r.states[i].cmds[c].vm == vm && r.states[i].cmds[c].waiter == Waiting
    requires vm in r.states[i].rows
    requires forall j :: i < j < k ==> !WritesStatus(r.states[j], r.events[j], vm)
    ensures vm in r.states[k].rows && r.states[k].rows[vm].status == r.events[i].exit.value
    decreases k
  {
    hide Next, Enabled, WritesStatus;
    if i + 1 < k {
      RecordedExitStays(r, i, k - 1, vm);
      RunInv(r, k - 1);
      StatusStep(r.states[k - 1], r.events[k - 1], vm);
    } else {
      assert Enabled(r.states[i], r.events[i]) && r.states[i + 1] == Next(r.states[i], r.events[i]);
      WaiterWrites(r.states[i], r.events[i].cmd, r.events[i].exit);
    }
  }

  // ---------------------------------------------------------------------
  // Deletion is final
  // ---------------------------------------------------------------------

  /** Step from s to t starts no process for vm and makes no command for it. */
  ghost predicate StartsNothing(s: State, t: State, vm: VmId) {
    && |s.cmds| <= |t.cmds|
    && forall c :: 0 <= c < |t.cmds| && t.cmds[c].vm == vm ==>
         c < |s.cmds| && (t.cmds[c].process.Alive? ==> s.cmds[c].process.Alive?)
  }

  ghost predicate Clean(s: State, vm: VmId) {
    && vm !in s.vmToCmd && vm !in s.vmToTap && vm !in s.vsock
    && forall c :: 0 <= c < |s.cmds| && s.cmds[c].vm == vm ==> !Live(s, c)
  }

  lemma CleanedIsClean(s: State, vm: VmId)
    requires Inv(s) && vm in s.cleaned
    ensures Clean(s, vm)
  {
    assert VmInv(s.me, ViewOf(s, vm), vm, s.cmds);
    forall c | 0 <= c < |s.cmds| && s.cmds[c].vm == vm ensures !Live(s, c) {
      assert CmdOk(s.me, ViewOf(s, vm), c, s.cmds[c]);
    }
  }

  lemma OtherStartsNothing(s: State, t: State, v: VmId, vm: VmId)
    requires Touches(s, t, v) && v != vm
    ensures StartsNothing(s, t, vm)
  {
  }

  lemma OwnStartsNothing(s: State, e: Event, vm: VmId)
    requires Inv(s) && Enabled(s, e) && vm in s.extracted && Owner(s, e) == vm
    ensures StartsNothing(s, Next(s, e), vm)
  {
    assert VmInv(s.me, ViewOf(s, vm), vm, s.cmds);
  }

  lemma CleanedStep(s: State, e: Event, vm: VmId)
    requires Inv(s) && Enabled(s, e) && vm in s.cleaned
    ensures vm in Next(s, e).cleaned && StartsNothing(s, Next(s, e), vm)
  {
    hide Next;
    NextInv(s, e);
    if Owner(s, e) == vm {
      assert VmInv(s.me, ViewOf(s, vm), vm, s.cmds);
      OwnStartsNothing(s, e, vm);
    } else {
      OtherStartsNothing(s, Next(s, e), Owner(s, e), vm);
    }
  }

  /** Once a delete run of a VM has ended, the VM has no map entry, no
      registration and no live process in any later state, and no later step
      starts one. */
  lemma {:induction false} DeletionFinal(r: Run, i: nat, k: nat, vm: VmId)
    requires IsRun(r) && i <= k < |r.states| && vm in r.states[i].cleaned
    ensures vm in r.states[k].cleaned && Clean(r.states[k], vm)
    ensures forall j :: i <= j < k ==> StartsNothing(r.states[j], r.states[j + 1], vm)
    decreases k
  {
    hide Next;
    RunInv(r, k);
    if i < k {
      DeletionFinal(r, i, k - 1, vm);
      RunInv(r, k - 1);
      CleanedStep(r.states[k - 1], r.events[k - 1], vm);
    }
    CleanedIsClean(r.states[k], vm);
  }

  predicate Condemned(s: State, vm: VmId) {
    vm in s.rows && s.rows[vm].deleted && s.rows[vm].server == s.me
  }

  lemma CondemnedStep(s: State, e: Event, vm: VmId)
    requires Inv(s) && Enabled(s, e) && Condemned(s, vm)
    ensures Condemned(Next(s, e), vm)
  {
    hide Next, Inv;
    NextInv(s, e);
    assert vm != Owner(s, e) ==> ViewOf(Next(s, e), vm) == ViewOf(s, vm);
  }

  lemma {:induction false} CondemnedStays(r: Run, i: nat, k: nat, vm: VmId)
    requires IsRun(r) && i <= k < |r.states| && Condemned(r.states[i], vm)
    ensures Condemned(r.states[k], vm)
    decreases k
  {
    hide Next;
    if i < k {
      CondemnedStays(r, i, k - 1, vm);
      RunInv(r, k - 1);
      CondemnedStep(r.states[k - 1], r.events[k - 1], vm);
    }
  }

  predicate ReadFails(s: State, e: Event, vm: VmId) {
    e == Advance(vm, false) && vm in s.runs && s.runs[vm].Read?
  }

  /** The run of a condemned VM reads the row next, or is on the delete path. */
  predicate OnDeletePath(s: State, vm: VmId) {
    vm in s.runs && (s.runs[vm].Read? || s.runs[vm].Deleting())
  }

  lemma BeginReads(s: State, vm: VmId)
    requires Enabled(s, Begin(vm))
    ensures OnDeletePath(Next(s, Begin(vm)), vm)
  {
  }

  lemma DeletePathAdvance(s: State, ok: bool, vm: VmId)
    requires Condemned(s, vm) && OnDeletePath(s, vm) && (s.runs[vm].Read? ==> ok)
    ensures var t := Next(s, Advance(vm, ok)); OnDeletePath(t, vm) || (vm !in t.runs && vm in t.cleaned)
  {
    hide Wait;
  }

  lemma DeletePathWait(s: State, e: Event, vm: VmId)
    requires Enabled(s, e) && OnDeletePath(s, vm) && !e.Advance?
    ensures OnDeletePath(Next(s, e), vm)
  {
    hide Launch, Delete;
  }

  lemma DeletePathStep(s: State, e: Event, vm: VmId)
    requires Inv(s) && Enabled(s, e) && Condemned(s, vm) && OnDeletePath(s, vm) && !ReadFails(s, e, vm)
    ensures OnDeletePath(Next(s, e), vm) || (vm !in Next(s, e).runs && vm in Next(s, e).cleaned)
  {
    hide Next, Inv;
    if !e.Advance? {
      DeletePathWait(s, e, vm);
    } else if e.vm == vm {
      DeletePathAdvance(s, e.ok, vm);
    } else {
      NextInv(s, e);
      assert ViewOf(Next(s, e), vm) == ViewOf(s, vm);
    }
  }

  /** A run dispatched after the row was soft-deleted and read successfully takes
      the delete path, whatever an older run was doing when the deletion landed. */
  lemma {:induction false} CondemnedRunDeletes(r: Run, i: nat, j: nat, k: nat, vm: VmId)
    requires IsRun(r) && i <= j < k < |r.states|
    requires Condemned(r.states[i], vm) && r.events[j] == Begin(vm)
    requires forall m :: j < m < k ==> vm in r.states[m].runs && !ReadFails(r.states[m], r.events[m], vm)
    ensures OnDeletePath(r.states[k], vm) || (vm !in r.states[k].runs && vm in r.states[k].cleaned)
    decreases k
  {
    hide Next;
    if j + 1 < k {
      RunInv(r, k - 1);
      CondemnedStays(r, i, k - 1, vm);
      CondemnedRunDeletes(r, i, j, k - 1, vm);
      DeletePathStep(r.states[k - 1], r.events[k - 1], vm);
    } else {
      BeginReads(r.states[j], vm);
    }
  }

  /** A soft-deleted VM is cleaned up for good by the first run dispatched after
      the deletion that manages to read the row. */
  lemma DeletedForGood(r: Run, i: nat, j: nat, m: nat, k: nat, vm: VmId)
    requires IsRun(r) && i <= j < m <= k < |r.states|
    requires Condemned(r.states[i], vm) && r.events[j] == Begin(vm)
    requires forall n :: j < n < m ==> vm in r.states[n].runs && !ReadFails(r.states[n], r.events[n], vm)
    requires vm !in r.states[m].runs
    ensures Clean(r.states[k], vm)
    ensures forall n :: m <= n < k ==> StartsNothing(r.states[n], r.states[n + 1], vm)
  {
    CondemnedRunDeletes(r, i, j, m, vm);
    DeletionFinal(r, m, k, vm);
  }

  // ---------------------------------------------------------------------
  // A start that fails late is never retried
  // ---------------------------------------------------------------------

  /** The entry of a command that nobody waits for, while no run is starting it. */
  predicate Stuck(s: State, vm: VmId) {
    || vm in s.extracted
    || (&& vm in s.vmToCmd
        && s.vmToCmd[vm] < |s.cmds|
        && s.cmds[s.vmToCmd[vm]].vm == vm
        && s.cmds[s.vmToCmd[vm]].waiter.NoWaiter?
        && (vm in s.runs ==> !s.runs[vm].Start? && !s.runs[vm].MarkRunning?))
  }

  lemma FailedStartSticks(s: State, vm: VmId)
    requires Inv(s) && vm in s.runs && s.runs[vm].Start?
    ensures Stuck(Next(s, Advance(vm, false)), vm)
    ensures StartsNothing(s, Next(s, Advance(vm, false)), vm)
  {
    assert VmInv(s.me, ViewOf(s, vm), vm, s.cmds);
  }

  /** The goroutine is started only after the status update: if that fails, the
      hypervisor runs with nobody waiting for it. */
  lemma UnwatchedSticks(s: State, vm: VmId)
    requires Inv(s) && vm in s.runs && s.runs[vm].MarkRunning? && s.runs[vm].row.status.Starting?
    ensures Stuck(Next(s, Advance(vm, false)), vm)
    ensures StartsNothing(s, Next(s, Advance(vm, false)), vm)
  {
    assert VmInv(s.me, ViewOf(s, vm), vm, s.cmds);
  }

  lemma StuckAdvance(s: State, ok: bool, vm: VmId)
    requires Inv(s) && vm in s.runs && Stuck(s, vm)
    ensures Stuck(Next(s, Advance(vm, ok)), vm) && StartsNothing(s, Next(s, Advance(vm, ok)), vm)
  {
    hide Wait;
    assert VmInv(s.me, ViewOf(s, vm), vm, s.cmds);
  }

  lemma StuckOther(s: State, e: Event, vm: VmId)
    requires Inv(s) && Enabled(s, e) && Stuck(s, vm) && Owner(s, e) == vm && !e.Advance?
    ensures Stuck(Next(s, e), vm) && StartsNothing(s, Next(s, e), vm)
  {
    hide Launch, Delete;
    assert VmInv(s.me, ViewOf(s, vm), vm, s.cmds);
    if e.AdvanceWaiter? { assert CmdOk(s.me, ViewOf(s, vm), e.cmd, s.cmds[e.cmd]); }
  }

  lemma StuckStep(s: State, e: Event, vm: VmId)
    requires Inv(s) && Enabled(s, e) && Stuck(s, vm)
    ensures Stuck(Next(s, e), vm) && StartsNothing(s, Next(s, e), vm)
  {
    hide Next;
    if Owner(s, e) != vm {
      NextInv(s, e);
      assert ViewOf(Next(s, e), vm) == ViewOf(s, vm);
      OtherStartsNothing(s, Next(s, e), Owner(s, e), vm);
    } else if e.Advance? {
      StuckAdvance(s, e.ok, vm);
    } else {
      StuckOther(s, e, vm);
    }
  }

  /** The run fails at cmd.Start, or at the status update right after it. */
  predicate FailsLate(s: State, e: Event, vm: VmId) {
    && e == Advance(vm, false) && vm in s.runs
    && (s.runs[vm].Start? || (s.runs[vm].MarkRunning? && s.runs[vm].row.status.Starting?))
  }

  /** After cmd.Start fails, or starts a process whose status update fails, no
      later step of this server starts a process for the VM, even once that
      process has exited: every later run finds the entry and stops there. */
  lemma {:induction false} FailedStartIsFinal(r: Run, i: nat, k: nat, vm: VmId)
    requires IsRun(r) && i < k < |r.states| && FailsLate(r.states[i], r.events[i], vm)
    ensures Stuck(r.states[k], vm)
    ensures forall j :: i <= j < k ==> StartsNothing(r.states[j], r.states[j + 1], vm)
    decreases k
  {
    hide Next;
    RunInv(r, k - 1);
    if i + 1 == k {
      if r.states[i].runs[vm].Start? { FailedStartSticks(r.states[i], vm); } else { UnwatchedSticks(r.states[i], vm); }
    } else {
      FailedStartIsFinal(r, i, k - 1, vm);
      StuckStep(r.states[k - 1], r.events[k - 1], vm);
    }
  }
}
