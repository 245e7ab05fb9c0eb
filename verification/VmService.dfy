/** reconcileVM, its exit goroutine and reconcileVmDelete as the code has them:
    methods that update the service's fields. Run without interference they take
    exactly the steps of the state machine, so what is proved there about every
    interleaving of those steps is about this code. */
module VmService {
  import opened VmLifecycle

  /** Which foreign calls and statements of a run succeed. */
  datatype Outcomes = Outcomes(
    read: bool, starting: bool, recover: bool, running: bool,
    prepare: bool, register: bool, start: bool, disk: bool)

  function Succeeds(o: Outcomes, pc: Pc): bool {
    match pc
    case Read => o.read
    case MarkStarting(_) => o.starting
    case Recover(_) => o.recover
    case MarkAlreadyRunning(_) => o.running
    case MarkRunning(_, _) => o.running
    case Prepare(_) => o.prepare
    case Register(_) => o.register
    case Start(_, _) => o.start
    case DeleteDisk => o.disk
    case _ => true
  }

  function Rank(pc: Pc): nat {
    match pc
    case Read => 20
    case MarkStarting(_) => 19
    case Recover(_) => 18
    case Check(_) => 17
    case MarkAlreadyRunning(_) => 16
    case Prepare(_) => 15
    case Register(_) => 14
    case TakeStale(_) => 13
    case KillStale(_, _) => 12
    case Insert(_, _) => 11
    case Start(_, _) => 10
    case MarkRunning(_, _) => 9
    case DeleteUnregister => 4
    case DeleteExtract => 3
    case DeleteKill(_) => 2
    case DeleteDisk => 1
  }

  /** The state in which the VM's run ends when nothing else takes a step. */
  ghost function RunAlone(s: State, vm: VmId, o: Outcomes): State
    decreases if vm in s.runs then Rank(s.runs[vm]) else 0
  {
    if vm !in s.runs then s
    else
      var t := Next(s, Advance(vm, Succeeds(o, s.runs[vm])));
      if vm in t.runs && Rank(t.runs[vm]) >= Rank(s.runs[vm]) then t else RunAlone(t, vm, o)
  }

  // What a run does from each of its program points, one step unfolded.

  lemma AloneStep(s: State, t: State, vm: VmId, o: Outcomes)
    requires vm in s.runs && t == Next(s, Advance(vm, Succeeds(o, s.runs[vm])))
    requires vm in t.runs && Rank(t.runs[vm]) < Rank(s.runs[vm])
    ensures RunAlone(s, vm, o) == RunAlone(t, vm, o)
  {
    hide Next;
  }

  lemma AloneRead(s: State, vm: VmId, o: Outcomes)
    requires vm in s.runs && s.runs[vm].Read?
    ensures RunAlone(s, vm, o) ==
            if !o.read || vm !in s.rows || s.rows[vm].server != s.me then End(s, vm)
            else RunAlone(Goto(s, vm, if s.rows[vm].deleted then DeleteUnregister else MarkStarting(s.rows[vm])), vm, o)
  {
  }

  lemma AloneMarkStarting(s: State, vm: VmId, row: Row, o: Outcomes)
    requires vm in s.runs && s.runs[vm] == MarkStarting(row)
    ensures var (t, r) := UpdateStatusIf(s, vm, row, Starting, {Pending});
            RunAlone(s, vm, o) == if !o.starting && row.status.Pending? then End(s, vm) else RunAlone(Goto(t, vm, Recover(r)), vm, o)
  {
  }

  lemma AloneRecover(s: State, vm: VmId, row: Row, o: Outcomes)
    requires vm in s.runs && s.runs[vm] == Recover(row)
    ensures var (t, r) := UpdateStatusIf(s, vm, row, Starting, {Failed, Stopped});
            RunAlone(s, vm, o) ==
            if !o.recover && (row.status.Failed? || row.status.Stopped?) then End(s, vm)
            else RunAlone(Goto(t, vm, Check(r)), vm, o)
  {
  }

  lemma AloneCheck(s: State, vm: VmId, row: Row, o: Outcomes)
    requires vm in s.runs && s.runs[vm] == Check(row)
    ensures RunAlone(s, vm, o) ==
            RunAlone(Goto(s, vm, if vm in s.vmToCmd then MarkAlreadyRunning(row) else Prepare(row)), vm, o)
  {
  }

  lemma AloneAlreadyRunning(s: State, vm: VmId, row: Row, o: Outcomes)
    requires vm in s.runs && s.runs[vm] == MarkAlreadyRunning(row)
    ensures RunAlone(s, vm, o) ==
            End(if o.running then UpdateStatusIf(s, vm, row, Running, {Starting, Pending}).0 else s, vm)
  {
  }

  lemma AlonePrepare(s: State, vm: VmId, row: Row, o: Outcomes)
    requires vm in s.runs && s.runs[vm] == Prepare(row)
    ensures RunAlone(s, vm, o) == if !o.prepare then End(s, vm) else RunAlone(Goto(s, vm, Register(row)), vm, o)
  {
  }

  lemma AloneRegister(s: State, vm: VmId, row: Row, o: Outcomes)
    requires vm in s.runs && s.runs[vm] == Register(row)
    ensures var t := s.(vsock := s.vsock + {vm});
            RunAlone(s, vm, o) == if !o.register then End(t, vm) else RunAlone(Goto(t, vm, TakeStale(row)), vm, o)
  {
  }

  lemma AloneTakeStale(s: State, vm: VmId, row: Row, o: Outcomes)
    requires vm in s.runs && s.runs[vm] == TakeStale(row)
    ensures RunAlone(s, vm, o) == RunAlone(Goto(DropEntries(s, vm), vm, KillStale(row, Entry(s, vm))), vm, o)
  {
  }

  lemma AloneKillStale(s: State, vm: VmId, row: Row, stale: Option<CmdId>, o: Outcomes)
    requires vm in s.runs && s.runs[vm] == KillStale(row, stale)
    ensures var cmds := Kill(s.cmds, stale) + [Cmd(vm, TapNumber(s.nextTap + 1), NotStarted, NoWaiter)];
            RunAlone(s, vm, o) ==
            RunAlone(Goto(s.(nextTap := s.nextTap + 1, cmds := cmds), vm, Insert(row, |s.cmds|)), vm, o)
  {
    var cmds := Kill(s.cmds, stale) + [Cmd(vm, TapNumber(s.nextTap + 1), NotStarted, NoWaiter)];
    var t := Goto(s.(nextTap := s.nextTap + 1, cmds := cmds), vm, Insert(row, |s.cmds|));
    assert t == Next(s, Advance(vm, true)) by {
      assert |Kill(s.cmds, stale)| == |s.cmds|;
    }
    AloneStep(s, t, vm, o);
  }

  lemma AloneInsert(s: State, vm: VmId, row: Row, c: CmdId, o: Outcomes)
    requires vm in s.runs && s.runs[vm] == Insert(row, c) && c < |s.cmds|
    ensures RunAlone(s, vm, o) ==
            RunAlone(Goto(s.(vmToCmd := s.vmToCmd[vm := c], vmToTap := s.vmToTap[vm := s.cmds[c].tap]),
                          vm, Start(row, c)), vm, o)
  {
  }

  lemma AloneStart(s: State, vm: VmId, row: Row, c: CmdId, o: Outcomes)
    requires vm in s.runs && s.runs[vm] == Start(row, c) && c < |s.cmds|
    ensures RunAlone(s, vm, o) ==
            if !o.start then End(s, vm)
            else RunAlone(Goto(s.(cmds := s.cmds[c := s.cmds[c].(process := Alive(false))]), vm, MarkRunning(row, c)), vm, o)
  {
  }

  lemma AloneMarkRunning(s: State, vm: VmId, row: Row, c: CmdId, o: Outcomes)
    requires vm in s.runs && s.runs[vm] == MarkRunning(row, c) && c < |s.cmds|
    ensures var t := UpdateStatusIf(s, vm, row, Running, {Starting}).0;
            RunAlone(s, vm, o) ==
            if !o.running && row.status.Starting? then End(s, vm) else End(t.(cmds := t.cmds[c := t.cmds[c].(waiter := Waiting)]), vm)
  {
  }

  // ---------------------------------------------------------------------
  // What an undisturbed, successful run achieves
  // ---------------------------------------------------------------------

  const ALL_WELL: Outcomes := Outcomes(true, true, true, true, true, true, true, true)

  /** The row a launching run works with: pending, failed and stopped rows were set to starting. */
  function Restarted(row: Row): Row {
    if row.status == Pending || row.status == Failed || row.status == Stopped then row.(status := Starting) else row
  }

  /** When the run returns an error, from each of its parts on. The worker then
      retries in five seconds instead of an hour. */
  predicate LaunchError(row: Row, o: Outcomes) {
    !o.start || (!o.running && row.status == Starting)
  }

  predicate StartError(row: Row, o: Outcomes) {
    !o.prepare || !o.register || LaunchError(row, o)
  }

  predicate UpdateError(row: Row, o: Outcomes) {
    (!o.starting && row.status == Pending) || (!o.recover && (row.status == Failed || row.status == Stopped))
  }

  predicate LiveError(entered: bool, row: Row, o: Outcomes) {
    || UpdateError(row, o)
    || (if entered then !o.running && Restarted(row).status == Starting else StartError(Restarted(row), o))
  }

  predicate RunError(s: State, vm: VmId, o: Outcomes) {
    || !o.read || vm !in s.rows
    || (s.rows[vm].server == s.me
        && if s.rows[vm].deleted then !o.disk else LiveError(vm in s.vmToCmd, s.rows[vm], o))
  }

  /** The VM has a live hypervisor that is entered in both maps, registered and waited for. */
  predicate Up(s: State, vm: VmId) {
    && vm in s.vmToCmd && vm in s.vmToTap && vm in s.vsock
    && Live(s, s.vmToCmd[vm])
    && s.cmds[s.vmToCmd[vm]].vm == vm
    && s.cmds[s.vmToCmd[vm]].tap == s.vmToTap[vm]
    && s.cmds[s.vmToCmd[vm]].waiter.Waiting?
  }

  /** The status a run leaves on a row whose hypervisor it started. */
  function Started(status: Status): Status {
    if status == Pending || status == Failed || status == Stopped || status == Starting then Running else status
  }

  lemma LaunchAlone(s: State, vm: VmId, row: Row, o: Outcomes)
    requires vm in s.runs && s.runs[vm] == Prepare(row) && vm in s.rows && vm !in s.vmToCmd && !StartError(row, o)
    ensures var t := RunAlone(s, vm, o);
            && Up(t, vm) && vm !in t.runs
            && t.rows == (if row.status.Starting? then SetStatus(s, vm, Running).rows else s.rows)
            && |t.cmds| == |s.cmds| + 1 && t.cmds[..|s.cmds|] == s.cmds
  {
    hide RunAlone, Next;
    AlonePrepare(s, vm, row, o);
    var a := Goto(s, vm, Register(row));
    AloneRegister(a, vm, row, o);
    var b := Goto(a.(vsock := a.vsock + {vm}), vm, TakeStale(row));
    AloneTakeStale(b, vm, row, o);
    var c := Goto(DropEntries(b, vm), vm, KillStale(row, None));
    AloneKillStale(c, vm, row, None, o);
    var cmd := Cmd(vm, TapNumber(c.nextTap + 1), NotStarted, NoWaiter);
    var d := Goto(c.(nextTap := c.nextTap + 1, cmds := c.cmds + [cmd]), vm, Insert(row, |c.cmds|));
    StartAlone(d, vm, row, |c.cmds|, o);
  }

  lemma StartAlone(s: State, vm: VmId, row: Row, c: CmdId, o: Outcomes)
    requires vm in s.runs && s.runs[vm] == Insert(row, c) && vm in s.rows && vm in s.vsock
    requires c + 1 == |s.cmds| && s.cmds[c].vm == vm && !LaunchError(row, o)
    ensures var t := RunAlone(s, vm, o);
            && Up(t, vm) && vm !in t.runs
            && t.rows == (if row.status.Starting? then SetStatus(s, vm, Running).rows else s.rows)
            && |t.cmds| == |s.cmds| && t.cmds[..c] == s.cmds[..c]
  {
    hide RunAlone, Next;
    AloneInsert(s, vm, row, c, o);
    var a := Goto(s.(vmToCmd := s.vmToCmd[vm := c], vmToTap := s.vmToTap[vm := s.cmds[c].tap]), vm, Start(row, c));
    AloneStart(a, vm, row, c, o);
    var b := Goto(a.(cmds := a.cmds[c := a.cmds[c].(process := Alive(false))]), vm, MarkRunning(row, c));
    AloneMarkRunning(b, vm, row, c, o);
  }

  lemma RecoveredAlone(s: State, vm: VmId, row: Row, o: Outcomes)
    requires vm in s.runs && s.runs[vm] == Recover(row) && vm in s.rows && row == s.rows[vm]
    requires !UpdateError(row, o) && row.status != Pending
    ensures var next := if vm in s.vmToCmd then MarkAlreadyRunning(Restarted(row)) else Prepare(Restarted(row));
            var t := Goto(s.(rows := s.rows[vm := Restarted(row)]), vm, next);
            RunAlone(s, vm, o) == RunAlone(t, vm, o)
  {
    hide RunAlone, Next;
    AloneRecover(s, vm, row, o);
    var (u, q) := UpdateStatusIf(s, vm, row, Starting, {Failed, Stopped});
    AloneCheck(Goto(u, vm, Check(q)), vm, q, o);
    assert q == Restarted(row) && u.rows == s.rows[vm := q];
    var next := if vm in s.vmToCmd then MarkAlreadyRunning(q) else Prepare(q);
    assert Goto(Goto(u, vm, Check(q)), vm, next) == Goto(s.(rows := s.rows[vm := q]), vm, next);
  }

  lemma CheckedAlone(s: State, vm: VmId, row: Row, o: Outcomes)
    requires vm in s.runs && s.runs[vm] == MarkStarting(row) && vm in s.rows && row == s.rows[vm] && !UpdateError(row, o)
    ensures var next := if vm in s.vmToCmd then MarkAlreadyRunning(Restarted(row)) else Prepare(Restarted(row));
            var t := Goto(s.(rows := s.rows[vm := Restarted(row)]), vm, next);
            RunAlone(s, vm, o) == RunAlone(t, vm, o)
  {
    hide RunAlone, Next;
    AloneMarkStarting(s, vm, row, o);
    var (t, r) := UpdateStatusIf(s, vm, row, Starting, {Pending});
    RecoveredAlone(Goto(t, vm, Recover(r)), vm, r, o);
    assert t.rows == s.rows[vm := r] && Restarted(r) == Restarted(row);
    var next := if vm in s.vmToCmd then MarkAlreadyRunning(Restarted(row)) else Prepare(Restarted(row));
    assert Goto(Goto(t, vm, Recover(r)).(rows := t.rows[vm := Restarted(r)]), vm, next)
        == Goto(s.(rows := s.rows[vm := Restarted(row)]), vm, next);
  }

  /** A run that returns no error, for a live row of this server without a map
      entry, brings the VM up: one more hypervisor, the other commands untouched,
      and the row running. */
  lemma HealthyRunStartsTheVm(s: State, vm: VmId, o: Outcomes)
    requires vm !in s.runs && vm in s.rows && vm !in s.vmToCmd
    requires s.rows[vm].server == s.me && !s.rows[vm].deleted && !RunError(s, vm, o)
    ensures var t := RunAlone(Next(s, Begin(vm)), vm, o);
            && Up(t, vm) && vm !in t.runs
            && t.rows == s.rows[vm := s.rows[vm].(status := Started(s.rows[vm].status))]
            && |t.cmds| == |s.cmds| + 1 && t.cmds[..|s.cmds|] == s.cmds
  {
    hide RunAlone, Up;
    var row := s.rows[vm];
    var a := Next(s, Begin(vm));
    AloneRead(a, vm, o);
    var b := Goto(a, vm, MarkStarting(row));
    hide Next;
    CheckedAlone(b, vm, row, o);
    var c := Goto(b.(rows := b.rows[vm := Restarted(row)]), vm, Prepare(Restarted(row)));
    LaunchAlone(c, vm, Restarted(row), o);
  }

  /** So a run that returns no error leaves every live row of this server with a
      map entry; and a deleted row without one. */
  lemma NilMeansEntered(s: State, vm: VmId, o: Outcomes)
    requires vm !in s.runs && vm in s.rows && s.rows[vm].server == s.me && !RunError(s, vm, o)
    ensures vm in RunAlone(Next(s, Begin(vm)), vm, o).vmToCmd <==> !s.rows[vm].deleted
  {
    hide RunAlone;
    var row := s.rows[vm];
    var a := Next(s, Begin(vm));
    AloneRead(a, vm, o);
    if row.deleted {
      DeleteAlone(Goto(a, vm, DeleteUnregister), vm, o);
    } else if vm !in s.vmToCmd {
      HealthyRunStartsTheVm(s, vm, o);
    } else {
      hide Next;
      var b := Goto(a, vm, MarkStarting(row));
      CheckedAlone(b, vm, row, o);
      AloneAlreadyRunning(Goto(b.(rows := b.rows[vm := Restarted(row)]), vm, MarkAlreadyRunning(Restarted(row))), vm, Restarted(row), o);
    }
  }

  /** The whole effect of a delete run. */
  function Deleted(s: State, vm: VmId): State {
    DropEntries(s, vm).(
      vsock := s.vsock - {vm}, cmds := Kill(s.cmds, Entry(s, vm)), runs := s.runs - {vm},
      extracted := s.extracted + {vm}, cleaned := s.cleaned + {vm})
  }

  lemma DeleteAlone(s: State, vm: VmId, o: Outcomes)
    requires vm in s.runs && s.runs[vm].DeleteUnregister?
    ensures RunAlone(s, vm, o) == Deleted(s, vm)
  {
    hide RunAlone, Kill, Next;
    AloneUnregister(s, vm, o);
    var t := Goto(s.(vsock := s.vsock - {vm}), vm, DeleteExtract);
    AloneExtract(t, vm, o);
    var u := Goto(DropEntries(t, vm).(extracted := s.extracted + {vm}), vm, DeleteKill(Entry(s, vm)));
    AloneDeleteKill(u, vm, Entry(s, vm), o);
    var v := Goto(u.(cmds := Kill(s.cmds, Entry(s, vm))), vm, DeleteDisk);
    AloneDisk(v, vm, o);
    assert v.runs - {vm} == s.runs - {vm};
  }

  lemma AloneUnregister(s: State, vm: VmId, o: Outcomes)
    requires vm in s.runs && s.runs[vm].DeleteUnregister?
    ensures RunAlone(s, vm, o) == RunAlone(Goto(s.(vsock := s.vsock - {vm}), vm, DeleteExtract), vm, o)
  {
    hide RunAlone;
    AloneStep(s, Goto(s.(vsock := s.vsock - {vm}), vm, DeleteExtract), vm, o);
  }

  lemma AloneExtract(s: State, vm: VmId, o: Outcomes)
    requires vm in s.runs && s.runs[vm].DeleteExtract?
    ensures RunAlone(s, vm, o) ==
            RunAlone(Goto(DropEntries(s, vm).(extracted := s.extracted + {vm}), vm, DeleteKill(Entry(s, vm))), vm, o)
  {
    hide RunAlone;
    AloneStep(s, Goto(DropEntries(s, vm).(extracted := s.extracted + {vm}), vm, DeleteKill(Entry(s, vm))), vm, o);
  }

  lemma AloneDeleteKill(s: State, vm: VmId, cmd: Option<CmdId>, o: Outcomes)
    requires vm in s.runs && s.runs[vm] == DeleteKill(cmd)
    ensures RunAlone(s, vm, o) == RunAlone(Goto(s.(cmds := Kill(s.cmds, cmd)), vm, DeleteDisk), vm, o)
  {
    hide RunAlone, Kill;
    AloneStep(s, Goto(s.(cmds := Kill(s.cmds, cmd)), vm, DeleteDisk), vm, o);
  }

  lemma AloneDisk(s: State, vm: VmId, o: Outcomes)
    requires vm in s.runs && s.runs[vm].DeleteDisk?
    ensures RunAlone(s, vm, o) == End(s, vm).(cleaned := s.cleaned + {vm})
  {
  }

  // ---------------------------------------------------------------------
  // How a run ends, told from the fields before and after
  // ---------------------------------------------------------------------

  /** What other code can see of a service. */
  datatype Fields = Fields(
    rows: map<VmId, Row>, vmToCmd: map<VmId, CmdId>, vmToTap: map<VmId, int>, nextTap: nat,
    vsock: set<VmId>, cmds: seq<Cmd>)

  predicate SameMaps(s: Fields, t: Fields) {
    t.vmToCmd == s.vmToCmd && t.vmToTap == s.vmToTap && t.nextTap == s.nextTap && t.cmds == s.cmds
  }

  predicate Untouched(s: Fields, t: Fields) {
    t.rows == s.rows && t.vsock == s.vsock && SameMaps(s, t)
  }

  /** A deleted VM: its registration and entries are gone and its process is killed. */
  predicate CleanedUp(s: Fields, t: Fields, vm: VmId) {
    && t.rows == s.rows && t.nextTap == s.nextTap && t.vsock == s.vsock - {vm}
    && t.vmToCmd == s.vmToCmd - {vm} && t.vmToTap == s.vmToTap - {vm}
    && t.cmds == if vm in s.vmToCmd && s.vmToCmd[vm] < |s.cmds| && s.cmds[s.vmToCmd[vm]].process.Alive?
                 then s.cmds[s.vmToCmd[vm] := s.cmds[s.vmToCmd[vm]].(process := Alive(true))] else s.cmds
  }

  /** A live row of this server: pending, failed and stopped rows become starting first. */
  predicate LiveEnds(s: Fields, t: Fields, vm: VmId, o: Outcomes, ok: bool)
    requires vm in s.rows
  {
    var was := s.rows[vm].status;
    if (was == Pending && !o.starting) || ((was == Failed || was == Stopped) && !o.recover) then
      !ok && Untouched(s, t)
    else if was == Pending || was == Failed || was == Stopped then
      CheckedEnds(s.(rows := s.rows[vm := s.rows[vm].(status := Starting)]), t, vm, o, ok)
    else
      CheckedEnds(s, t, vm, o, ok)
  }

  /** From there on: a VM with an entry is taken for running; any other is prepared, registered,
      entered with a new command and started, up to the first call that fails. */
  predicate CheckedEnds(s: Fields, t: Fields, vm: VmId, o: Outcomes, ok: bool)
    requires vm in s.rows
  {
    var starting := s.rows[vm].status == Starting || s.rows[vm].status == Pending;
    var running := s.rows[vm := s.rows[vm].(status := Running)];
    if vm in s.vmToCmd then
      && ok == (o.running || !starting)
      && t.rows == (if starting && o.running then running else s.rows)
      && t.vsock == s.vsock && SameMaps(s, t)
    else if !o.prepare || !o.register then
      && !ok && t.rows == s.rows
      && t.vsock == (if o.prepare then s.vsock + {vm} else s.vsock) && SameMaps(s, t)
    else
      var cmd := Cmd(vm, TapNumber(s.nextTap + 1),
                     if o.start then Alive(false) else NotStarted, if ok then Waiting else NoWaiter);
      && ok == (o.start && (o.running || s.rows[vm].status != Starting))
      && t.rows == (if ok && s.rows[vm].status == Starting then running else s.rows)
      && t.vsock == s.vsock + {vm} && t.nextTap == s.nextTap + 1 && t.cmds == s.cmds + [cmd]
      && t.vmToCmd == s.vmToCmd[vm := |s.cmds|] && t.vmToTap == s.vmToTap[vm := cmd.tap]
  }

  lemma LiveRefused(s: Fields, t: Fields, vm: VmId, o: Outcomes)
    requires vm in s.rows && Untouched(s, t) && UpdateError(s.rows[vm], o)
    ensures LiveEnds(s, t, vm, o, false)
  {
    hide CheckedEnds;
  }

  lemma LiveChecked(s: Fields, u: Fields, t: Fields, vm: VmId, o: Outcomes, ok: bool)
    requires vm in s.rows && !UpdateError(s.rows[vm], o)
    requires u.rows == if Restarted(s.rows[vm]) != s.rows[vm] then s.rows[vm := Restarted(s.rows[vm])] else s.rows
    requires u == s.(rows := u.rows) && vm in u.rows && CheckedEnds(u, t, vm, o, ok)
    ensures LiveEnds(s, t, vm, o, ok)
  {
    hide CheckedEnds;
  }

  class Service {
    const me: ServerId
    var rows: map<VmId, Row>
    var vmToCmd: map<VmId, CmdId>
    var vmToTap: map<VmId, int>
    var nextTap: nat
    var vsock: set<VmId>
    var cmds: seq<Cmd>
    ghost var runs: map<VmId, Pc>
    ghost var extracted: set<VmId>
    ghost var cleaned: set<VmId>

    ghost function Abs(): State
      reads this
    {
      State(me, rows, vmToCmd, vmToTap, nextTap, vsock, cmds, runs, extracted, cleaned)
    }

    function Seen(): Fields
      reads this
    {
      Fields(rows, vmToCmd, vmToTap, nextTap, vsock, cmds)
    }

    constructor (me: ServerId)
      ensures Abs() == Init(me)
    {
      this.me := me;
      rows, vmToCmd, vmToTap, nextTap, vsock, cmds := map[], map[], map[], 0, {}, [];
      runs, extracted, cleaned := map[], {}, {};
    }

    method ReconcileVMUpdateStatusIf(vm: VmId, row: Row, after: Status, before: set<Status>) returns (updated: Row)
      requires vm in rows
      modifies this`rows
      ensures (Abs(), updated) == UpdateStatusIf(old(Abs()), vm, row, after, before)
      ensures rows == if row.status in before then old(rows)[vm := old(rows)[vm].(status := after)] else old(rows)
      ensures updated == if row.status in before then old(rows)[vm].(status := after) else row
    {
      updated := row;
      if row.status in before {
        rows := rows[vm := rows[vm].(status := after)];
        updated := rows[vm];
      }
    }

    method TakeEntries(vm: VmId) returns (cmd: Option<CmdId>)
      modifies this`vmToCmd, this`vmToTap
      ensures Abs() == DropEntries(old(Abs()), vm) && cmd == Entry(old(Abs()), vm)
      ensures vmToCmd == old(vmToCmd) - {vm} && vmToTap == old(vmToTap) - {vm}
      ensures cmd == if vm in old(vmToCmd) then Some(old(vmToCmd)[vm]) else None
    {
      cmd := if vm in vmToCmd then Some(vmToCmd[vm]) else None;
      vmToTap := vmToTap - {vm};
      vmToCmd := vmToCmd - {vm};
    }

    method KillProcess(cmd: Option<CmdId>)
      modifies this`cmds
      ensures Abs() == old(Abs()).(cmds := Kill(old(cmds), cmd))
      ensures cmds == if cmd.Some? && cmd.value < |old(cmds)| && old(cmds)[cmd.value].process.Alive?
                      then old(cmds)[cmd.value := old(cmds)[cmd.value].(process := Alive(true))] else old(cmds)
    {
      if cmd.Some? && cmd.value < |cmds| && cmds[cmd.value].process.Alive? {
        cmds := cmds[cmd.value := cmds[cmd.value].(process := Alive(true))];
      }
    }

    /** What the goroutine does first: the exit is recorded in the row, unless it is there
        already. `fetched` and `updated` say whether its two statements succeed. */
    method RecordExit(c: CmdId, failed: bool, fetched: bool, updated: bool)
      requires c < |cmds| && cmds[c].waiter == Waiting
      modifies this`rows, this`cmds
      ensures var status := if failed then Status.Failed else Stopped;
              var vm := old(cmds[c].vm);
              && rows == (if vm in old(rows) && fetched && updated
                          then old(rows)[vm := old(rows)[vm].(status := status)] else old(rows))
              && cmds == old(cmds)[c := old(cmds)[c].(waiter := Unregistering)]
      ensures var status := if failed then Status.Failed else Stopped;
              Abs() == Wait(old(Abs()), c, if fetched && updated then Some(status) else None)
    {
      var vm := cmds[c].vm;
      if fetched && vm in rows {
        if failed {
          if rows[vm].status != Status.Failed && updated {
            rows := rows[vm := rows[vm].(status := Status.Failed)];
          }
        } else if rows[vm].status != Stopped && updated {
          rows := rows[vm := rows[vm].(status := Stopped)];
        }
      }
      cmds := cmds[c := cmds[c].(waiter := Unregistering)];
    }

    /** The goroutine after cmd.Wait() has returned, with an error or not. */
    method OnExit(c: CmdId, failed: bool, fetched: bool, updated: bool)
      requires c < |cmds| && cmds[c].waiter == Waiting
      modifies this
      ensures var status := if failed then Status.Failed else Stopped;
              var vm := old(cmds[c].vm);
              && rows == (if vm in old(rows) && fetched && updated
                          then old(rows)[vm := old(rows)[vm].(status := status)] else old(rows))
              && vsock == old(vsock) - {vm}
              && vmToCmd == old(vmToCmd) - {vm} && vmToTap == old(vmToTap) - {vm}
              && cmds == old(cmds)[c := old(cmds)[c].(waiter := Done)] && nextTap == old(nextTap)
      ensures var status := if failed then Status.Failed else Stopped;
              var s := Wait(old(Abs()), c, if fetched && updated then Some(status) else None);
              Abs() == Wait(Wait(s, c, None), c, None)
    {
      var vm := cmds[c].vm;
      RecordExit(c, failed, fetched, updated);
      label unregistering:
      vsock := vsock - {vm};
      cmds := cmds[c := cmds[c].(waiter := Removing)];
      assert Abs() == Wait(old@unregistering(Abs()), c, None);
      label removing:
      var _ := TakeEntries(vm);
      cmds := cmds[c := cmds[c].(waiter := Done)];
      assert Abs() == Wait(old@removing(Abs()), c, None);
    }

    method ReconcileVmDelete(vm: VmId)
      modifies this
      ensures Abs() == Deleted(old(Abs()), vm)
      ensures CleanedUp(old(Seen()), Seen(), vm)
    {
      vsock := vsock - {vm};
      var cmd := TakeEntries(vm);
      KillProcess(cmd);
      extracted, cleaned, runs := extracted + {vm}, cleaned + {vm}, runs - {vm};
    }

    method ReconcileVM(vm: VmId, o: Outcomes) returns (ok: bool)
      requires vm !in runs
      modifies this
      ensures ok == !RunError(old(Abs()), vm, o)
      ensures if !o.read || vm !in old(rows) then !ok && Untouched(old(Seen()), Seen())
              else if old(rows)[vm].server != me then ok && Untouched(old(Seen()), Seen())
              else if old(rows)[vm].deleted then ok == o.disk && CleanedUp(old(Seen()), Seen(), vm)
              else LiveEnds(old(Seen()), Seen(), vm, o, ok)
      ensures Abs() == RunAlone(Next(old(Abs()), Begin(vm)), vm, o)
    {
      hide RunAlone, Deleted, LiveEnds, CleanedUp, Launch, Delete;
      runs := runs[vm := Read];
      AloneRead(Abs(), vm, o);
      if !o.read || vm !in rows {
        runs := runs - {vm};
        return false;
      }
      var row := rows[vm];
      if row.server != me {
        runs := runs - {vm};
        return true;
      }
      if row.deleted {
        runs := runs[vm := DeleteUnregister];
        DeleteAlone(Abs(), vm, o);
        ReconcileVmDelete(vm);
        return o.disk;
      }
      runs := runs[vm := MarkStarting(row)];
      ok := ReconcileLiveVM(vm, row, o);
    }

    method ReconcileLiveVM(vm: VmId, vmRow: Row, o: Outcomes) returns (ok: bool)
      requires vm in rows && vm in runs && runs[vm] == MarkStarting(vmRow)
      modifies this
      ensures ok == !LiveError(old(vm in vmToCmd), vmRow, o)
      ensures vmRow == old(rows)[vm] ==> LiveEnds(old(Seen()), Seen(), vm, o, ok)
      ensures Abs() == RunAlone(old(Abs()), vm, o)
    {
      hide RunAlone, Next, CheckedEnds, LiveEnds;
      var row;
      ghost var s := Seen();
      ok, row := AdvanceToStarting(vm, vmRow, o);
      if !ok {
        if vmRow == s.rows[vm] { LiveRefused(s, Seen(), vm, o); }
        return;
      }
      ghost var u := Seen();
      ok := FromCheck(vm, row, o);
      if vmRow == s.rows[vm] { LiveChecked(s, u, Seen(), vm, o, ok); }
    }

    /** What follows the two status updates. */
    method FromCheck(vm: VmId, row: Row, o: Outcomes) returns (ok: bool)
      requires vm in rows && vm in runs && runs[vm] == Check(row)
      modifies this
      ensures ok == if old(vm in vmToCmd) then o.running || row.status !in {Starting, VmLifecycle.Pending}
                    else !StartError(row, o)
      ensures row == old(rows)[vm] ==> CheckedEnds(old(Seen()), Seen(), vm, o, ok)
      ensures Abs() == RunAlone(old(Abs()), vm, o)
    {
      hide RunAlone, Next;
      AloneCheck(Abs(), vm, row, o);
      if vm in vmToCmd {
        ok := TakeForRunning(vm, row, o);
        return;
      }
      runs := runs[vm := Prepare(row)];
      ok := StartHypervisor(vm, row, o);
    }

    method TakeForRunning(vm: VmId, row: Row, o: Outcomes) returns (ok: bool)
      requires vm in rows && vm in runs && runs[vm] == Check(row) && vm in vmToCmd
      modifies this`rows, this`runs
      ensures ok == (o.running || row.status !in {Starting, VmLifecycle.Pending})
      ensures rows == if o.running && row.status in {Starting, VmLifecycle.Pending}
                      then old(rows)[vm := old(rows)[vm].(status := Running)] else old(rows)
      ensures Abs() == RunAlone(old(Abs()), vm, o)
    {
      hide RunAlone, Next;
      AloneCheck(Abs(), vm, row, o);
      runs := runs[vm := MarkAlreadyRunning(row)];
      AloneAlreadyRunning(Abs(), vm, row, o);
      if o.running {
        var _ := ReconcileVMUpdateStatusIf(vm, row, Running, {Starting, Pending});
      }
      runs := runs - {vm};
      return o.running || row.status !in {Starting, VmLifecycle.Pending};
    }

    /** The first status update of a run. */
    method LeavePending(vm: VmId, vmRow: Row, o: Outcomes) returns (ok: bool, row: Row)
      requires vm in rows && vm in runs && runs[vm] == MarkStarting(vmRow)
      modifies this`rows, this`runs
      ensures ok == (o.starting || vmRow.status != Pending)
      ensures ok ==> row.status == if vmRow.status == Pending then Starting else vmRow.status
      ensures ok ==> vm in rows && vm in runs && runs[vm] == Recover(row)
      ensures rows == if ok && vmRow.status == Pending then old(rows)[vm := old(rows)[vm].(status := Starting)] else old(rows)
      ensures row == if ok && vmRow.status == Pending then rows[vm] else vmRow
      ensures if ok then RunAlone(Abs(), vm, o) == RunAlone(old(Abs()), vm, o) else Abs() == RunAlone(old(Abs()), vm, o)
    {
      hide RunAlone, Next;
      row := vmRow;
      AloneMarkStarting(Abs(), vm, vmRow, o);
      if !o.starting && vmRow.status == Pending {
        runs := runs - {vm};
        return false, row;
      }
      row := ReconcileVMUpdateStatusIf(vm, vmRow, Starting, {Pending});
      runs := runs[vm := Recover(row)];
      return true, row;
    }

    /** The two status updates that come first. */
    method AdvanceToStarting(vm: VmId, vmRow: Row, o: Outcomes) returns (ok: bool, row: Row)
      requires vm in rows && vm in runs && runs[vm] == MarkStarting(vmRow)
      modifies this`rows, this`runs
      ensures ok == !UpdateError(vmRow, o) && (ok ==> row.status == Restarted(vmRow).status)
      ensures ok ==> vm in rows && vm in runs && runs[vm] == Check(row)
      ensures vmRow == old(rows)[vm] ==>
                && ok == !((vmRow.status == Pending && !o.starting)
                           || ((vmRow.status == Status.Failed || vmRow.status == Stopped) && !o.recover))
                && rows == (if ok && (vmRow.status == Pending || vmRow.status == Status.Failed || vmRow.status == Stopped)
                            then old(rows)[vm := vmRow.(status := Starting)] else old(rows))
                && (ok ==> row == rows[vm])
      ensures if ok then RunAlone(Abs(), vm, o) == RunAlone(old(Abs()), vm, o) else Abs() == RunAlone(old(Abs()), vm, o)
    {
      hide RunAlone, Next;
      row := vmRow;
      ok, row := LeavePending(vm, vmRow, o);
      if !ok {
        return;
      }
      AloneRecover(Abs(), vm, row, o);
      if !o.recover && (row.status == Failed || row.status == Stopped) {
        runs := runs - {vm};
        return false, row;
      }
      row := ReconcileVMUpdateStatusIf(vm, row, Starting, {Failed, Stopped});
      runs := runs[vm := Check(row)];
      return true, row;
    }

    method StartHypervisor(vm: VmId, row: Row, o: Outcomes) returns (ok: bool)
      requires vm in rows && vm in runs && runs[vm] == Prepare(row)
      modifies this
      ensures ok == !StartError(row, o)
      ensures Abs() == RunAlone(old(Abs()), vm, o)
      ensures ok == (o.prepare && o.register && o.start && (o.running || row.status != Starting))
      ensures vsock == if o.prepare then old(vsock) + {vm} else old(vsock)
      ensures !o.prepare || !o.register ==>
                rows == old(rows) && vmToCmd == old(vmToCmd) && vmToTap == old(vmToTap)
                && cmds == old(cmds) && nextTap == old(nextTap)
      ensures o.prepare && o.register ==>
                && vmToCmd == old(vmToCmd)[vm := |old(cmds)|]
                && vmToTap == old(vmToTap)[vm := TapNumber(old(nextTap) + 1)]
                && nextTap == old(nextTap) + 1
                && (vm !in old(vmToCmd) ==>
                      cmds == old(cmds) + [Cmd(vm, TapNumber(old(nextTap) + 1),
                                               if o.start then Alive(false) else NotStarted,
                                               if ok then Waiting else NoWaiter)])
                && rows == if ok && row.status == Starting then old(rows)[vm := old(rows)[vm].(status := Running)] else old(rows)
    {
      hide RunAlone, Next;
      AlonePrepare(Abs(), vm, row, o);
      if !o.prepare {
        runs := runs - {vm};
        return false;
      }
      runs := runs[vm := Register(row)];
      AloneRegister(Abs(), vm, row, o);
      vsock := vsock + {vm};
      if !o.register {
        runs := runs - {vm};
        return false;
      }
      runs := runs[vm := TakeStale(row)];
      ok := CleanUpAndLaunch(vm, row, o);
    }

    method CleanUpAndLaunch(vm: VmId, row: Row, o: Outcomes) returns (ok: bool)
      requires vm in rows && vm in runs && runs[vm] == TakeStale(row)
      modifies this
      ensures ok == !LaunchError(row, o)
      ensures Abs() == RunAlone(old(Abs()), vm, o)
      ensures ok == (o.start && (o.running || row.status != Starting)) && vsock == old(vsock)
      ensures vmToCmd == old(vmToCmd)[vm := |old(cmds)|]
      ensures vmToTap == old(vmToTap)[vm := TapNumber(old(nextTap) + 1)]
      ensures nextTap == old(nextTap) + 1
      ensures vm !in old(vmToCmd) ==>
                cmds == old(cmds) + [Cmd(vm, TapNumber(old(nextTap) + 1),
                                         if o.start then Alive(false) else NotStarted, if ok then Waiting else NoWaiter)]
      ensures rows == if ok && row.status == Starting then old(rows)[vm := old(rows)[vm].(status := Running)] else old(rows)
    {
      hide RunAlone, Next, Kill, TapNumber;
      ghost var taps := vmToTap;
      var c := CleanUp(vm, row, o);
      ok := LaunchCommand(vm, row, c, o);
      assert (taps - {vm})[vm := TapNumber(old(nextTap) + 1)] == taps[vm := TapNumber(old(nextTap) + 1)];
    }

    /** A stale entry is taken out and its process killed, and a new command is made. */
    method CleanUp(vm: VmId, row: Row, o: Outcomes) returns (c: CmdId)
      requires vm in runs && runs[vm] == TakeStale(row)
      modifies this`vmToCmd, this`vmToTap, this`nextTap, this`cmds, this`runs
      ensures vm in runs && runs[vm] == Insert(row, c) && c == |old(cmds)| && |cmds| == c + 1
      ensures RunAlone(Abs(), vm, o) == RunAlone(old(Abs()), vm, o)
      ensures vmToCmd == old(vmToCmd) - {vm} && vmToTap == old(vmToTap) - {vm} && nextTap == old(nextTap) + 1
      ensures cmds[c] == Cmd(vm, TapNumber(old(nextTap) + 1), NotStarted, NoWaiter)
      ensures vm !in old(vmToCmd) ==> cmds[..c] == old(cmds)
    {
      hide RunAlone, Next, Kill, TapNumber;
      AloneTakeStale(Abs(), vm, row, o);
      var stale := TakeEntries(vm);
      runs := runs[vm := KillStale(row, stale)];
      c := NewCommand(vm, row, stale, o);
    }

    /** A stale process is killed and a command with the next tap is made. */
    method NewCommand(vm: VmId, row: Row, stale: Option<CmdId>, o: Outcomes) returns (c: CmdId)
      requires vm in runs && runs[vm] == KillStale(row, stale)
      modifies this`nextTap, this`cmds, this`runs
      ensures vm in runs && runs[vm] == Insert(row, c) && c < |cmds|
      ensures RunAlone(Abs(), vm, o) == RunAlone(old(Abs()), vm, o)
      ensures c == |old(cmds)| && nextTap == old(nextTap) + 1
      ensures |cmds| == c + 1 && cmds[c] == Cmd(vm, TapNumber(old(nextTap) + 1), NotStarted, NoWaiter)
      ensures stale.None? ==> cmds[..c] == old(cmds)
    {
      hide RunAlone, Next;
      AloneKillStale(Abs(), vm, row, stale, o);
      c := |cmds|;
      KillProcess(stale);
      nextTap := nextTap + 1;
      cmds := cmds + [Cmd(vm, TapNumber(nextTap), NotStarted, NoWaiter)];
      runs := runs[vm := Insert(row, c)];
    }

    method LaunchCommand(vm: VmId, row: Row, c: CmdId, o: Outcomes) returns (ok: bool)
      requires vm in rows && vm in runs && runs[vm] == Insert(row, c) && c < |cmds|
      modifies this
      ensures ok == !LaunchError(row, o)
      ensures Abs() == RunAlone(old(Abs()), vm, o)
      ensures ok == (o.start && (o.running || row.status != Starting))
      ensures vmToCmd == old(vmToCmd)[vm := c] && vmToTap == old(vmToTap)[vm := old(cmds)[c].tap]
      ensures vsock == old(vsock) && nextTap == old(nextTap)
      ensures cmds == old(cmds)[c := Cmd(old(cmds)[c].vm, old(cmds)[c].tap,
                                         if o.start then Alive(false) else old(cmds)[c].process,
                                         if ok then Waiting else old(cmds)[c].waiter)]
      ensures rows == if ok && row.status == Starting then old(rows)[vm := old(rows)[vm].(status := Running)] else old(rows)
    {
      hide RunAlone, Next;
      AloneInsert(Abs(), vm, row, c, o);
      vmToCmd := vmToCmd[vm := c];
      vmToTap := vmToTap[vm := cmds[c].tap];
      runs := runs[vm := Start(row, c)];
      ok := StartCommand(vm, row, c, o);
    }

    /** cmd.Start, the last status update and the goroutine that waits for the exit. */
    method StartCommand(vm: VmId, row: Row, c: CmdId, o: Outcomes) returns (ok: bool)
      requires vm in rows && vm in runs && runs[vm] == Start(row, c) && c < |cmds|
      modifies this`cmds, this`rows, this`runs
      ensures ok == (o.start && (o.running || row.status != Starting))
      ensures Abs() == RunAlone(old(Abs()), vm, o)
      ensures cmds == old(cmds)[c := Cmd(old(cmds)[c].vm, old(cmds)[c].tap,
                                         if o.start then Alive(false) else old(cmds)[c].process,
                                         if ok then Waiting else old(cmds)[c].waiter)]
      ensures rows == if ok && row.status == Starting then old(rows)[vm := old(rows)[vm].(status := Running)] else old(rows)
    {
      hide RunAlone, Next;
      AloneStart(Abs(), vm, row, c, o);
      if !o.start {
        runs := runs - {vm};
        return false;
      }
      cmds := cmds[c := cmds[c].(process := Alive(false))];
      runs := runs[vm := MarkRunning(row, c)];
      AloneMarkRunning(Abs(), vm, row, c, o);
      if !o.running && row.status == Starting {
        runs := runs - {vm};
        return false;
      }
      var _ := ReconcileVMUpdateStatusIf(vm, row, Running, {Starting});
      cmds := cmds[c := cmds[c].(waiter := Waiting)];
      runs := runs - {vm};
      return true;
    }
  }
}
