/** One build row and every run of reconcileBuild that any server makes of it:
    the time-bounded lease in builds.processing_by, and the statuses a run writes.
    Any server may believe itself leader, so nothing here relies on one leader. */
module BuildLease {

  datatype Option<+T> = None | Some(value: T)

  type ServerId = nat
  type VmId = nat
  type ImageId = nat

  /** The database clock, in seconds. */
  type Time = int

  const LEASE_SECONDS: int := 30 * 60

  datatype Status = Pending | Building | Succesful | Failed

  datatype Row = Row(
    status: Status, processingBy: Option<ServerId>, processingStartedAt: Option<Time>,
    vm: Option<VmId>, image: Option<ImageId>,
    buildingAt: Option<Time>, successfulAt: Option<Time>, failedAt: Option<Time>, deleted: bool)

  predicate Terminal(status: Status) {
    status.Succesful? || status.Failed?
  }

  // ---------------------------------------------------------------------
  // The statements of build.sql
  // ---------------------------------------------------------------------

  predicate Stale(row: Row, now: Time) {
    row.processingStartedAt.Some? && row.processingStartedAt.value < now - LEASE_SECONDS
  }

  predicate Claimable(row: Row, server: ServerId, now: Time) {
    && !Terminal(row.status)
    && !row.deleted
    && (row.processingBy.None? || row.processingBy.value == server || Stale(row, now))
  }

  function Claimed(row: Row, server: ServerId, now: Time): Row {
    row.(processingBy := Some(server), processingStartedAt := Some(now))
  }

  function Released(row: Row, server: ServerId): Row {
    if row.processingBy == Some(server) then row.(processingBy := None, processingStartedAt := None) else row
  }

  function MarkedBuilding(row: Row, vm: VmId, now: Time): Row {
    row.(status := Building, buildingAt := Some(now), vm := Some(vm))
  }

  function MarkedSuccessful(row: Row, image: ImageId, now: Time): Row {
    row.(status := Succesful, successfulAt := Some(now), image := Some(image))
  }

  function MarkedFailed(row: Row, now: Time): Row {
    row.(status := Failed, failedAt := Some(now))
  }

  // ---------------------------------------------------------------------
  // A run, step by step
  // ---------------------------------------------------------------------

  /** `build` is the row BuildClaimLease returned to the run. */
  datatype Pc =
    | Claim
    | Inspect(build: Row)
    | Enter(build: Row)
    | Work(build: Row)
    | LinkVm(build: Row, vm: VmId)
    | MarkSuccess(build: Row, image: ImageId)
    | MarkFailure(build: Row, entered: bool)
    | Leave
    | Release

  datatype Run = Run(pc: Pc, claimedAt: Time)

  /** What the run meets on the way: failing calls, the age of the build on the
      server's own clock, the state of the build VM, the outcome of the build. */
  datatype Outcome =
    | Broken
    | Fine
    | Stuck
    | NewVm(vm: VmId)
    | VmFailed
    | VmNotReady
    | Built(image: ImageId)
    | BuildFailed

  datatype State = State(now: Time, row: Row, runs: map<ServerId, Run>, active: set<ServerId>)

  datatype Event =
    | Tick(seconds: nat)
    | Begin(server: ServerId)
    | Advance(server: ServerId, outcome: Outcome)
    | Crash(server: ServerId)
    | SoftDelete

  predicate Holds(s: State, server: ServerId) {
    server in s.runs && !s.runs[server].pc.Claim?
  }

  function Goto(s: State, server: ServerId, pc: Pc): State
    requires server in s.runs
  {
    s.(runs := s.runs[server := s.runs[server].(pc := pc)])
  }

  function End(s: State, server: ServerId): State {
    s.(runs := s.runs - {server})
  }

  function Step(s: State, server: ServerId, o: Outcome): State
    requires server in s.runs
  {
    match s.runs[server].pc
    case Claim =>
      if o.Broken? || !Claimable(s.row, server, s.now) then End(s, server)
      else
        var row := Claimed(s.row, server, s.now);
        s.(row := row, runs := s.runs[server := Run(Inspect(row), s.now)])
    case Inspect(b) =>
      if Terminal(b.status) then Goto(s, server, Release)
      else if b.status.Building? && b.buildingAt.Some? && o.Stuck? then Goto(s, server, MarkFailure(b, false))
      else Goto(s, server, Enter(b))
    case Enter(b) =>
      if server in s.active then Goto(s, server, Release)
      else Goto(s.(active := s.active + {server}), server, Work(b))
    case Work(b) =>
      if o.Broken? then Goto(s, server, Leave)
      else if b.vm.None? then
        if o.NewVm? && b.status.Pending? then Goto(s, server, LinkVm(b, o.vm)) else Goto(s, server, Leave)
      else if o.VmFailed? then Goto(s, server, MarkFailure(b, true))
      else if b.image.None? && o.Built? then Goto(s, server, MarkSuccess(b, o.image))
      else if b.image.None? && o.BuildFailed? then Goto(s, server, MarkFailure(b, true))
      else Goto(s, server, Leave)
    case LinkVm(b, vm) =>
      Goto(if o.Broken? then s else s.(row := MarkedBuilding(s.row, vm, s.now)), server, Leave)
    case MarkSuccess(b, image) =>
      // a failing statement makes executeBuild return an error, which fails the build
      if o.Broken? then Goto(s, server, MarkFailure(b, true))
      else Goto(s.(row := MarkedSuccessful(s.row, image, s.now)), server, Leave)
    case MarkFailure(b, entered) =>
      Goto(if o.Broken? then s else s.(row := MarkedFailed(s.row, s.now)), server, if entered then Leave else Release)
    case Leave =>
      Goto(s.(active := s.active - {server}), server, Release)
    case Release =>
      End(if o.Broken? then s else s.(row := Released(s.row, server)), server)
  }

  predicate Enabled(s: State, e: Event) {
    match e
    case Tick(_) => true
    // a server's own scheduler runs a build once at a time
    case Begin(server) => server !in s.runs
    case Advance(server, _) => server in s.runs
    case Crash(_) => true
    case SoftDelete => true
  }

  function Next(s: State, e: Event): State
    requires Enabled(s, e)
  {
    match e
    case Tick(seconds) => s.(now := s.now + seconds)
    case Begin(server) => s.(runs := s.runs[server := Run(Claim, s.now)])
    case Advance(server, o) => Step(s, server, o)
    // the process and all it remembers are gone; the row keeps its lease
    case Crash(server) => s.(runs := s.runs - {server}, active := s.active - {server})
    case SoftDelete => s.(row := s.row.(deleted := true))
  }

  predicate Init(s: State) {
    && s.row == Row(Pending, None, None, None, None, None, None, None, false)
    && s.runs == map[]
    && s.active == {}
  }

  datatype Trace = Trace(states: seq<State>, events: seq<Event>)

  ghost predicate IsTrace(t: Trace) {
    && |t.states| == |t.events| + 1
    && Init(t.states[0])
    && forall i :: 0 <= i < |t.events| ==>
         Enabled(t.states[i], t.events[i]) && t.states[i + 1] == Next(t.states[i], t.events[i])
  }

  /** Who writes the row, and what: a claim that is due, the end of a lease of one's own, the three
      status writes, and the user. A crash writes nothing, so the lease stays. */
  lemma RowWrittenBy(s: State, e: Event)
    requires Enabled(s, e)
    ensures var was, now := s.row, Next(s, e).row;
            || now == was
            || (e.SoftDelete? && now == was.(deleted := true))
            || (&& e.Advance? && !e.outcome.Broken?
                && match s.runs[e.server].pc
                   case Claim =>
                     && (was.status == Pending || was.status == Building) && !was.deleted
                     && (was.processingBy == None || was.processingBy == Some(e.server)
                         || (was.processingStartedAt.Some? && s.now - was.processingStartedAt.value > 1800))
                     && now == was.(processingBy := Some(e.server), processingStartedAt := Some(s.now))
                   case LinkVm(_, vm) => now == was.(status := Building, buildingAt := Some(s.now), vm := Some(vm))
                   case MarkSuccess(_, image) =>
                     now == was.(status := Succesful, successfulAt := Some(s.now), image := Some(image))
                   case MarkFailure(_, _) => now == was.(status := Failed, failedAt := Some(s.now))
                   case Release =>
                     was.processingBy == Some(e.server) && now == was.(processingBy := None, processingStartedAt := None)
                   case _ => false)
  {
  }

  // ---------------------------------------------------------------------
  // Mutual exclusion
  // ---------------------------------------------------------------------

  /** The run claimed at most 30 minutes ago. */
  predicate InTime(s: State, server: ServerId) {
    server in s.runs && s.now - s.runs[server].claimedAt <= LEASE_SECONDS
  }

  /** A run that is still in time owns the lease it took, whatever runs that have
      overstayed do. */
  ghost predicate LeaseInv(s: State) {
    forall server :: server in s.runs && Holds(s, server) ==>
      && s.runs[server].claimedAt <= s.now
      && (InTime(s, server) ==>
            s.row.processingBy == Some(server) && s.row.processingStartedAt == Some(s.runs[server].claimedAt))
  }

  lemma LeaseAdvance(s: State, server: ServerId, o: Outcome, other: ServerId)
    requires LeaseInv(s) && server in s.runs
    ensures var t := Step(s, server, o);
            other in t.runs && Holds(t, other) ==>
              && t.runs[other].claimedAt <= t.now
              && (InTime(t, other) ==>
                    t.row.processingBy == Some(other) && t.row.processingStartedAt == Some(t.runs[other].claimedAt))
  {
    assert server in s.runs && Holds(s, server) ==> s.runs[server].claimedAt <= s.now;
  }

  lemma LeaseStep(s: State, e: Event)
    requires LeaseInv(s) && Enabled(s, e)
    ensures LeaseInv(Next(s, e))
  {
    if e.Advance? {
      hide Step;
      forall other { LeaseAdvance(s, e.server, e.outcome, other); }
    }
  }

  lemma {:induction false} TraceLease(t: Trace, k: nat)
    requires IsTrace(t) && k < |t.states|
    ensures LeaseInv(t.states[k])
  {
    if k > 0 {
      TraceLease(t, k - 1);
      LeaseStep(t.states[k - 1], t.events[k - 1]);
    }
  }

  /** Of all the runs that have claimed the build, at most one is within its 30
      minutes: with two leaders, crashes and restarts, and runs that overstay. */
  lemma MutualExclusion(t: Trace, k: nat, a: ServerId, b: ServerId)
    requires IsTrace(t) && k < |t.states|
    requires Holds(t.states[k], a) && InTime(t.states[k], a)
    requires Holds(t.states[k], b) && InTime(t.states[k], b)
    ensures a == b
    ensures t.states[k].row.processingBy == Some(a)
  {
    TraceLease(t, k);
  }

  /** While one run is active another server gets the lease only if that run has overstayed. */
  lemma ClaimOnlyFromOverstayed(t: Trace, k: nat, holder: ServerId)
    requires IsTrace(t) && k < |t.events| && Holds(t.states[k], holder)
    requires t.events[k].Advance? && t.events[k].server != holder
    requires !Holds(t.states[k], t.events[k].server) && Holds(t.states[k + 1], t.events[k].server)
    ensures !InTime(t.states[k], holder)
  {
    TraceLease(t, k);
  }

  /** And it does get the lease from one that has: a claim against the run that
      owns the lease succeeds exactly when that run has overstayed and the build
      is neither over nor deleted. */
  lemma ClaimFromOwner(s: State, owner: ServerId, other: ServerId)
    requires Holds(s, owner) && owner != other
    requires s.row.processingBy == Some(owner) && s.row.processingStartedAt == Some(s.runs[owner].claimedAt)
    ensures Claimable(s.row, other, s.now) <==> !InTime(s, owner) && !Terminal(s.row.status) && !s.row.deleted
  {
  }

  /** No step of another run, a late release included, drops the lease of a run in time. */
  lemma LeaseNotDropped(t: Trace, k: nat, holder: ServerId)
    requires IsTrace(t) && k < |t.events|
    requires Holds(t.states[k], holder) && InTime(t.states[k + 1], holder)
    requires !(t.events[k].Advance? && t.events[k].server == holder)
    ensures Holds(t.states[k + 1], holder) && t.states[k + 1].row.processingBy == Some(holder)
  {
    TraceLease(t, k + 1);
  }

  // ---------------------------------------------------------------------
  // Statuses
  // ---------------------------------------------------------------------

  predicate Moves(before: Status, after: Status) {
    || before == after
    || (before.Pending? && after.Building?)
    || (before.Building? && Terminal(after))
  }

  predicate RowOk(row: Row) {
    && (row.image.Some? <==> row.status.Succesful?)
    && (row.failedAt.Some? <==> row.status.Failed?)
    && (row.successfulAt.Some? <==> row.status.Succesful?)
    && (row.vm.Some? <==> !row.status.Pending?)
    && (row.buildingAt.Some? <==> !row.status.Pending?)
  }

  /** What a run remembers of the row is still true of it. */
  predicate Agrees(b: Row, row: Row) {
    b.status == row.status && b.vm == row.vm && b.image == row.image && b.buildingAt == row.buildingAt
  }

  predicate RunOk(pc: Pc, row: Row) {
    match pc
    case Inspect(b) => Agrees(b, row) && !Terminal(row.status)
    case Enter(b) => Agrees(b, row) && !Terminal(row.status)
    case Work(b) => Agrees(b, row) && !Terminal(row.status)
    case LinkVm(b, _) => Agrees(b, row) && row.status.Pending?
    case MarkSuccess(b, _) => Agrees(b, row) && row.status.Building?
    case MarkFailure(b, _) => Agrees(b, row) && row.status.Building?
    case _ => true
  }

  // ---------------------------------------------------------------------
  // Which status writes are harmful
  // ---------------------------------------------------------------------

  /** The statement of this step is one of BuildMarkBuilding, BuildMarkSuccessful
      and BuildMarkFailed, and it succeeds. */
  predicate Writes(s: State, e: Event) {
    && e.Advance? && e.server in s.runs && !e.outcome.Broken?
    && var pc := s.runs[e.server].pc; pc.LinkVm? || pc.MarkSuccess? || pc.MarkFailure?
  }

  function Written(pc: Pc): Status
    requires pc.LinkVm? || pc.MarkSuccess? || pc.MarkFailure?
  {
    if pc.LinkVm? then Building else if pc.MarkSuccess? then Succesful else Failed
  }

  /** The status a run must have read to get to its program point. */
  predicate Expected(pc: Pc) {
    match pc
    case Inspect(b) => !Terminal(b.status) && (b.vm.Some? ==> !b.status.Pending?)
    case Enter(b) => !Terminal(b.status) && (b.vm.Some? ==> !b.status.Pending?)
    case Work(b) => !Terminal(b.status) && (b.vm.Some? ==> !b.status.Pending?)
    case LinkVm(b, _) => b.status.Pending?
    case MarkSuccess(b, _) => b.status.Building?
    case MarkFailure(b, _) => b.status.Building?
    case _ => true
  }

  ghost predicate ExpectedInv(s: State) {
    && (s.row.vm.Some? ==> !s.row.status.Pending?)
    && forall server :: server in s.runs ==> Expected(s.runs[server].pc)
  }

  lemma ExpectedStep(s: State, e: Event)
    requires ExpectedInv(s) && Enabled(s, e)
    ensures ExpectedInv(Next(s, e))
  {
  }

  lemma {:induction false} TraceExpected(t: Trace, k: nat)
    requires IsTrace(t) && k < |t.states|
    ensures ExpectedInv(t.states[k])
  {
    if k > 0 {
      TraceExpected(t, k - 1);
      ExpectedStep(t.states[k - 1], t.events[k - 1]);
    }
  }

  /** The row has moved on since the run read it, and not to what the run is
      about to write anyway. */
  predicate Harmful(s: State, e: Event) {
    && Writes(s, e)
    && var pc := s.runs[e.server].pc;
       && s.row.status != pc.build.status
       && !(s.row.status == Written(pc) && (pc.MarkSuccess? ==> s.row.image == Some(pc.image)))
  }

  /** The status moves forward or not at all, the row stays consistent, and an
      image once set stays. */
  predicate Sound(before: Row, after: Row) {
    Moves(before.status, after.status) && RowOk(after) && (before.image.Some? ==> after.image == before.image)
  }

  /** A step of any run, of any age, is sound exactly when it is no harmful write. */
  lemma SoundExactly(s: State, e: Event)
    requires ExpectedInv(s) && RowOk(s.row) && Enabled(s, e)
    ensures Sound(s.row, Next(s, e).row) <==> !Harmful(s, e)
  {
    if e.Advance? {
      assert Expected(s.runs[e.server].pc);
    }
  }

  /** All steps of a trace are sound exactly when none is a harmful write. */
  lemma {:induction false} LifecycleExactly(t: Trace, k: nat)
    requires IsTrace(t) && k < |t.states|
    ensures (forall j :: 0 <= j < k ==> Sound(t.states[j].row, t.states[j + 1].row))
       <==> (forall j :: 0 <= j < k ==> !Harmful(t.states[j], t.events[j]))
    ensures (forall j :: 0 <= j < k ==> !Harmful(t.states[j], t.events[j])) ==> RowOk(t.states[k].row)
  {
    hide Harmful, Sound, Next;
    if k > 0 {
      LifecycleExactly(t, k - 1);
      TraceExpected(t, k - 1);
      if RowOk(t.states[k - 1].row) {
        SoundExactly(t.states[k - 1], t.events[k - 1]);
        if Sound(t.states[k - 1].row, t.states[k].row) { SoundRow(t.states[k - 1].row, t.states[k].row); }
      }
    }
  }

  lemma SoundRow(before: Row, after: Row)
    requires Sound(before, after)
    ensures RowOk(after)
  {
  }

  // ---------------------------------------------------------------------
  // Runs that still own the lease write no harm
  // ---------------------------------------------------------------------

  /** The lease in the row is the one this run took. */
  predicate Owns(s: State, server: ServerId) {
    && Holds(s, server)
    && s.row.processingBy == Some(server) && s.row.processingStartedAt == Some(s.runs[server].claimedAt)
  }

  /** A status is written only by a run that owns the lease at that moment. */
  predicate Rightful(s: State, e: Event) {
    Writes(s, e) ==> Owns(s, e.server)
  }

  /** What the owner of the lease remembers of the row is true of it. */
  ghost predicate StatusInv(s: State) {
    && RowOk(s.row)
    && forall server :: server in s.runs && Owns(s, server) ==> RunOk(s.runs[server].pc, s.row)
  }

  lemma StatusStep(s: State, e: Event)
    requires StatusInv(s) && Enabled(s, e) && Rightful(s, e)
    ensures StatusInv(Next(s, e)) && Sound(s.row, Next(s, e).row)
  {
    if e.Advance? && Owns(s, e.server) {
      assert RunOk(s.runs[e.server].pc, s.row);
    }
  }

  lemma {:induction false} TraceStatus(t: Trace, k: nat)
    requires IsTrace(t) && k < |t.states|
    requires forall i :: 0 <= i < k ==> Rightful(t.states[i], t.events[i])
    ensures StatusInv(t.states[k])
  {
    if k > 0 {
      TraceStatus(t, k - 1);
      StatusStep(t.states[k - 1], t.events[k - 1]);
    }
  }

  /** A build moves only pending, building, then succesful or failed; it has an
      image exactly when succesful and a failure time exactly when failed. */
  lemma {:induction false} Lifecycle(t: Trace, i: nat, k: nat)
    requires IsTrace(t) && i <= k < |t.states|
    requires forall j :: 0 <= j < k ==> Rightful(t.states[j], t.events[j])
    ensures RowOk(t.states[k].row)
    ensures i < k ==> Moves(t.states[k - 1].row.status, t.states[k].row.status)
    ensures Terminal(t.states[i].row.status) ==> t.states[k].row.status == t.states[i].row.status
    ensures t.states[i].row.image.Some? ==> t.states[k].row.image == t.states[i].row.image
    decreases k
  {
    TraceStatus(t, k);
    if i < k {
      Lifecycle(t, i, k - 1);
      TraceStatus(t, k - 1);
      StatusStep(t.states[k - 1], t.events[k - 1]);
    }
  }

  ghost predicate AllInTime(s: State) {
    forall server :: server in s.runs && Holds(s, server) ==> InTime(s, server)
  }

  /** Runs that all end within 30 minutes of their claims write rightfully. */
  lemma InTimeIsRightful(t: Trace, k: nat)
    requires IsTrace(t) && k < |t.events| && AllInTime(t.states[k])
    ensures Rightful(t.states[k], t.events[k])
  {
    TraceLease(t, k);
  }

  /** A deployment that once found an image on its build never finds the build
      failed afterwards. */
  lemma ImageThenNeverFailed(t: Trace, i: nat, k: nat)
    requires IsTrace(t) && i <= k < |t.states|
    requires forall j :: 0 <= j < k ==> Rightful(t.states[j], t.events[j])
    requires t.states[i].row.image.Some?
    ensures t.states[k].row.failedAt.None? && t.states[k].row.image == t.states[i].row.image
  {
    TraceStatus(t, i);
    Lifecycle(t, i, k);
  }

  // ---------------------------------------------------------------------
  // What an overstaying run can do
  // ---------------------------------------------------------------------

  ghost predicate EndsIn(t: Trace, s: State) {
    IsTrace(t) && t.states[|t.events|] == s
  }

  lemma Then(t: Trace, s: State, e: Event, next: State) returns (longer: Trace)
    requires EndsIn(t, s) && Enabled(s, e) && next == Next(s, e)
    ensures EndsIn(longer, next) && |longer.events| == |t.events| + 1 && |longer.states| == |t.events| + 2
    ensures longer.states[|t.events|] == s && longer.events[|t.events|] == e
  {
    hide Next, Enabled;
    longer := Trace(t.states + [next], t.events + [e]);
  }

  const FRESH: Row := Row(Pending, None, None, None, None, None, None, None, false)
  /** The row once server 1 has created build VM 7 at time 0. */
  const LINKED: Row := Row(Building, None, None, Some(7), None, Some(0), None, None, false)

  /** Server 1 alone, at time 0. */
  function Solo(row: Row, pc: Pc, active: set<ServerId>): State {
    State(0, row, map[1 := Run(pc, 0)], active)
  }

  /** A run of server 1 up to the body of reconcileBuild. */
  lemma Claims(t: Trace, free: Row) returns (longer: Trace)
    requires EndsIn(t, State(0, free, map[], {}))
    requires !Terminal(free.status) && !free.deleted && free.processingBy.None?
    ensures EndsIn(longer, Solo(Claimed(free, 1, 0), Work(Claimed(free, 1, 0)), {1}))
  {
    hide EndsIn;
    var row := Claimed(free, 1, 0);
    longer := Then(t, State(0, free, map[], {}), Begin(1), Solo(free, Claim, {}));
    longer := Then(longer, Solo(free, Claim, {}), Advance(1, Fine), Solo(row, Inspect(row), {}));
    longer := Then(longer, Solo(row, Inspect(row), {}), Advance(1, Fine), Solo(row, Enter(row), {}));
    longer := Then(longer, Solo(row, Enter(row), {}), Advance(1, Fine), Solo(row, Work(row), {1}));
  }

  lemma FirstRun() returns (t: Trace)
    ensures EndsIn(t, State(0, LINKED, map[], {}))
  {
    t := Trace([State(0, FRESH, map[], {})], []);
    t := Claims(t, FRESH);
    hide EndsIn;
    var row, linked := Claimed(FRESH, 1, 0), Claimed(LINKED, 1, 0);
    t := Then(t, Solo(row, Work(row), {1}), Advance(1, NewVm(7)), Solo(row, LinkVm(row, 7), {1}));
    t := Then(t, Solo(row, LinkVm(row, 7), {1}), Advance(1, Fine), Solo(linked, Leave, {1}));
    t := Then(t, Solo(linked, Leave, {1}), Advance(1, Fine), Solo(linked, Release, {}));
    t := Then(t, Solo(linked, Release, {}), Advance(1, Fine), State(0, LINKED, map[], {}));
  }

  /** From the start: server 1 takes longer than half an hour over a build;
      server 2 then claims it, finds it stuck and fails it; then server 1 makes
      it succesful. That last step is a harmful write by a run without the lease. */
  lemma OverstayingRunRevivesAFailedBuild() returns (t: Trace, k: nat)
    ensures IsTrace(t) && k + 1 == |t.events|
    ensures t.states[k].row.status.Failed? && t.states[k + 1].row.status.Succesful?
    ensures t.states[k + 1].row.failedAt.Some? && t.states[k + 1].row.image.Some?
    ensures Harmful(t.states[k], t.events[k]) && !Rightful(t.states[k], t.events[k])
  {
    t := FirstRun();
    t := Claims(t, LINKED);
    var now := LEASE_SECONDS + 1;
    var row := Claimed(LINKED, 1, 0);
    var slow := Run(MarkSuccess(row, 9), 0);
    var taken := Claimed(LINKED, 2, now);
    var failed := MarkedFailed(taken, now);
    t := Then(t, Solo(row, Work(row), {1}), Advance(1, Built(9)), Solo(row, MarkSuccess(row, 9), {1}));
    t := Overtaken(t, row, slow, taken, failed, now);
    k := |t.events|;
    var last := State(now, failed, map[1 := slow, 2 := Run(Release, now)], {1});
    var revived := State(now, MarkedSuccessful(failed, 9, now), map[1 := Run(Leave, 0), 2 := Run(Release, now)], {1});
    t := Then(t, last, Advance(1, Fine), revived);
  }

  /** Server 2 claims the build from the slow run and fails it. */
  lemma Overtaken(t: Trace, row: Row, slow: Run, taken: Row, failed: Row, now: Time) returns (longer: Trace)
    requires now == LEASE_SECONDS + 1 && row == Claimed(LINKED, 1, 0) && slow == Run(MarkSuccess(row, 9), 0)
    requires taken == Claimed(LINKED, 2, now) && failed == MarkedFailed(taken, now)
    requires EndsIn(t, Solo(row, MarkSuccess(row, 9), {1}))
    ensures EndsIn(longer, State(now, failed, map[1 := slow, 2 := Run(Release, now)], {1}))
  {
    hide EndsIn;
    var a := State(now, row, map[1 := slow], {1});
    longer := Then(t, Solo(row, MarkSuccess(row, 9), {1}), Tick(now), a);
    var b := State(now, row, map[1 := slow, 2 := Run(Claim, now)], {1});
    longer := Then(longer, a, Begin(2), b);
    var c := State(now, taken, map[1 := slow, 2 := Run(Inspect(taken), now)], {1});
    longer := Then(longer, b, Advance(2, Fine), c);
    var d := State(now, taken, map[1 := slow, 2 := Run(MarkFailure(taken, false), now)], {1});
    longer := Then(longer, c, Advance(2, Stuck), d);
    longer := Then(longer, d, Advance(2, Fine), State(now, failed, map[1 := slow, 2 := Run(Release, now)], {1}));
  }
}
