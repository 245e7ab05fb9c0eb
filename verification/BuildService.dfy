/** reconcileBuild as the code has it, a method over the build row and the
    server's activeBuilds entry. Run without interference it ends in the state
    the steps of the machine lead to. */
module BuildService {
  import opened BuildLease

  /** What a run meets at each of its foreign calls and statements. */
  datatype Outcomes = Outcomes(
    claim: Outcome, inspect: Outcome, work: Outcome, link: Outcome,
    markSuccess: Outcome, markFailure: Outcome, release: Outcome)

  function Meets(o: Outcomes, pc: Pc): Outcome {
    match pc
    case Claim => o.claim
    case Inspect(_) => o.inspect
    case Enter(_) => Fine
    case Work(_) => o.work
    case LinkVm(_, _) => o.link
    case MarkSuccess(_, _) => o.markSuccess
    case MarkFailure(_, _) => o.markFailure
    case Leave => Fine
    case Release => o.release
  }

  function Rank(pc: Pc): nat {
    match pc
    case Claim => 8
    case Inspect(_) => 7
    case Enter(_) => 6
    case Work(_) => 5
    case LinkVm(_, _) => 4
    case MarkSuccess(_, _) => 4
    case MarkFailure(_, _) => 3
    case Leave => 2
    case Release => 1
  }

  lemma RankDrops(s: State, server: ServerId, o: Outcome)
    requires server in s.runs
    ensures server in Step(s, server, o).runs ==>
              Rank(Step(s, server, o).runs[server].pc) < Rank(s.runs[server].pc)
  {
  }

  /** The state in which the server's run ends when nothing else takes a step. */
  ghost function RunAlone(s: State, server: ServerId, o: Outcomes): State
    decreases if server in s.runs then Rank(s.runs[server].pc) else 0
  {
    if server !in s.runs then s
    else
      RankDrops(s, server, Meets(o, s.runs[server].pc));
      RunAlone(Step(s, server, Meets(o, s.runs[server].pc)), server, o)
  }

  lemma Alone(s: State, server: ServerId, o: Outcomes)
    requires server in s.runs
    ensures RunAlone(s, server, o) == RunAlone(Step(s, server, Meets(o, s.runs[server].pc)), server, o)
  {
    hide Step;
  }

  /** Every statement of the run works; what varies is what it finds. */
  predicate Undisturbed(o: Outcomes) {
    o.claim.Fine? && o.link.Fine? && o.markSuccess.Fine? && o.markFailure.Fine? && o.release.Fine?
  }

  /** The status such a run leaves behind. */
  function StatusAfter(status: Status, o: Outcomes): Status {
    match status
    case Pending => if o.work.NewVm? then Building else Pending
    case Building =>
      if o.inspect.Stuck? || o.work.VmFailed? || o.work.BuildFailed? then Failed
      else if o.work.Built? then Succesful
      else Building
    case _ => status
  }

  /** The row is as it was but for its lease, which is free, and its progress. */
  ghost predicate Progressed(s: State, t: State, server: ServerId, o: Outcomes) {
    && server !in t.runs && server !in t.active
    && t.row.processingBy.None? && t.row.processingStartedAt.None?
    && t.row.status == StatusAfter(s.row.status, o)
    && RowOk(t.row)
    && (t.row.status.Succesful? ==> o.work.Built? && t.row.image == Some(o.work.image))
    && (t.row.status == s.row.status ==> t.row == s.row.(processingBy := None, processingStartedAt := None))
  }

  /** From the program point at which the run leaves: the row keeps what was
      written and the lease is released. */
  lemma LeaveAlone(s: State, server: ServerId, o: Outcomes)
    requires server in s.runs && s.runs[server].pc.Leave? && o.release.Fine?
    ensures RunAlone(s, server, o)
         == s.(row := Released(s.row, server), active := s.active - {server}, runs := s.runs - {server})
  {
    hide RunAlone;
    Alone(s, server, o);
    ReleaseAlone(Step(s, server, Fine), server, o);
    assert Step(s, server, Fine).runs - {server} == s.runs - {server};
  }

  lemma ReleaseAlone(s: State, server: ServerId, o: Outcomes)
    requires server in s.runs && s.runs[server].pc.Release? && o.release.Fine?
    ensures RunAlone(s, server, o) == s.(row := Released(s.row, server), runs := s.runs - {server})
  {
    hide RunAlone;
    Alone(s, server, o);
    AloneEnds(Step(s, server, Fine), server, o);
  }

  lemma WorkAlone(s: State, server: ServerId, build: Row, o: Outcomes)
    requires server in s.runs && s.runs[server].pc == Work(build) && Undisturbed(o)
    requires build == s.row && RowOk(s.row) && !Terminal(s.row.status) && s.row.processingBy == Some(server)
    requires !o.inspect.Stuck? || s.row.status.Pending?
    ensures Progressed(s, RunAlone(s, server, o), server, o)
  {
    hide RunAlone;
    Alone(s, server, o);
    var a := Step(s, server, o.work);
    if a.runs[server].pc.Leave? {
      LeaveAlone(a, server, o);
    } else {
      Alone(a, server, o);
      LeaveAlone(Step(a, server, Fine), server, o);
    }
  }

  /** A run that claims a free build and meets no failing statement moves the
      build exactly as what it finds says, and leaves no lease behind. */
  lemma UndisturbedRunProgresses(s: State, server: ServerId, o: Outcomes)
    requires server !in s.runs && server !in s.active && Undisturbed(o)
    requires Claimable(s.row, server, s.now) && RowOk(s.row)
    ensures Progressed(s, RunAlone(Next(s, Begin(server)), server, o), server, o)
  {
    hide RunAlone, Progressed;
    var a := Next(s, Begin(server));
    Alone(a, server, o);
    var b := Step(a, server, Fine);
    Alone(b, server, o);
    var c := Step(b, server, o.inspect);
    Alone(c, server, o);
    if c.runs[server].pc.MarkFailure? {
      StuckAlone(s, c, server, o);
    } else {
      var d := Step(c, server, Fine);
      WorkAlone(d, server, d.row, o);
      SameProgress(s, d, RunAlone(d, server, o), server, o);
    }
  }

  lemma StuckAlone(s: State, c: State, server: ServerId, o: Outcomes)
    requires server in c.runs && c.runs[server].pc.MarkFailure? && !c.runs[server].pc.entered && Undisturbed(o)
    requires server !in c.active && o.inspect.Stuck? && s.row.status.Building? && RowOk(s.row)
    requires c.row == Claimed(s.row, server, c.now)
    ensures Progressed(s, RunAlone(c, server, o), server, o)
  {
    hide RunAlone;
    Alone(c, server, o);
    ReleaseAlone(Step(c, server, Fine), server, o);
  }

  lemma SameProgress(s: State, d: State, t: State, server: ServerId, o: Outcomes)
    requires Progressed(d, t, server, o) && d.row == Claimed(s.row, server, d.now)
    ensures Progressed(s, t, server, o)
  {
  }

  // ---------------------------------------------------------------------
  // The row a run leaves, told from the row it found
  // ---------------------------------------------------------------------

  function FailedRow(row: Row, now: Time, o: Outcomes): Row {
    if o.markFailure.Broken? then row else row.(status := Failed, failedAt := Some(now))
  }

  /** After the body of a run that claimed `build`: a build without a VM gets one and is building;
      a build whose VM or execution failed, or whose success could not be recorded, is failed; one
      that was executed is succesful. */
  function WorkedRow(row: Row, build: Row, now: Time, o: Outcomes): Row {
    if o.work.Broken? then row
    else if build.vm == None then
      if o.work.NewVm? && build.status == Pending && !o.link.Broken?
      then row.(status := Building, buildingAt := Some(now), vm := Some(o.work.vm)) else row
    else if o.work.VmFailed? then FailedRow(row, now, o)
    else if build.image == None && o.work.Built? then
      if o.markSuccess.Broken? then FailedRow(row, now, o)
      else row.(status := Succesful, successfulAt := Some(now), image := Some(o.work.image))
    else if build.image == None && o.work.BuildFailed? then FailedRow(row, now, o)
    else row
  }

  /** After a whole run; `busy` says that the server was executing the build already. */
  function LeftRow(row: Row, me: ServerId, now: Time, busy: bool, o: Outcomes): Row {
    var claimable :=
      && (row.status == Pending || row.status == Building) && !row.deleted
      && (row.processingBy == None || row.processingBy == Some(me)
          || (row.processingStartedAt.Some? && now - row.processingStartedAt.value > 1800));
    if o.claim.Broken? || !claimable then row
    else
      var build := row.(processingBy := Some(me), processingStartedAt := Some(now));
      var done :=
        if build.status == Building && build.buildingAt.Some? && o.inspect.Stuck? then FailedRow(build, now, o)
        else if busy then build
        else WorkedRow(build, build, now, o);
      if o.release.Broken? then done else done.(processingBy := None, processingStartedAt := None)
  }

  /** Its status, which claim, work and release leave to what the run found. */
  lemma LeftStatus(row: Row, me: ServerId, now: Time, busy: bool, o: Outcomes)
    ensures var left := LeftRow(row, me, now, busy, o);
            && (Terminal(row.status) || row.deleted ==> left == row)
            && (left.status != row.status ==>
                  || (left.status == Building && row.status == Pending && o.work.NewVm?)
                  || (left.status == Failed && !o.markFailure.Broken?)
                  || (left.status == Succesful && row.vm.Some? && left.image == Some(o.work.image)))
  {
  }

  class Service {
    const me: ServerId
    var now: Time
    var row: Row
    var activeBuild: bool
    // the runs and activeBuilds entries of every server, this one's included
    ghost var runs: map<ServerId, Run>
    ghost var active: set<ServerId>

    ghost predicate Valid()
      reads this
    {
      activeBuild <==> me in active
    }

    ghost function Abs(): State
      reads this
    {
      State(now, row, runs, active)
    }

    constructor (me: ServerId, now: Time, row: Row)
      ensures Valid() && Abs() == State(now, row, map[], {}) && this.me == me
    {
      this.me, this.now, this.row, this.activeBuild := me, now, row, false;
      runs, active := map[], {};
    }

    method ClaimLease() returns (claimed: Option<Row>)
      modifies this`row
      ensures claimed == if Claimable(old(row), me, now) then Some(Claimed(old(row), me, now)) else None
      ensures row == if claimed.Some? then claimed.value else old(row)
      ensures claimed ==
              if && (old(row).status == Pending || old(row).status == Building) && !old(row).deleted
                 && (old(row).processingBy == None || old(row).processingBy == Some(me)
                     || (old(row).processingStartedAt.Some? && now - old(row).processingStartedAt.value > 1800))
              then Some(old(row).(processingBy := Some(me), processingStartedAt := Some(now))) else None
    {
      if !Terminal(row.status) && !row.deleted
         && (row.processingBy.None? || row.processingBy.value == me || Stale(row, now)) {
        row := row.(processingBy := Some(me), processingStartedAt := Some(now));
        return Some(row);
      }
      return None;
    }

    method ReleaseBuildLease(o: Outcomes)
      requires me in runs && runs[me].pc.Release?
      modifies this`row, this`runs
      ensures Abs() == RunAlone(old(Abs()), me, o)
      ensures row == if !o.release.Broken? && old(row).processingBy == Some(me)
                     then old(row).(processingBy := None, processingStartedAt := None) else old(row)
    {
      Alone(Abs(), me, o);
      if !o.release.Broken? && row.processingBy == Some(me) {
        row := row.(processingBy := None, processingStartedAt := None);
      }
      runs := runs - {me};
    }

    method ReconcileBuild(o: Outcomes)
      requires Valid() && me !in runs
      modifies this
      ensures Valid() && Abs() == RunAlone(Next(old(Abs()), Begin(me)), me, o)
      ensures row == LeftRow(old(row), me, now, old(activeBuild), o)
      ensures activeBuild == old(activeBuild) && now == old(now)
    {
      hide RunAlone;
      runs := runs[me := Run(Claim, now)];
      Alone(Abs(), me, o);
      if o.claim.Broken? {
        runs := runs - {me};
        AloneEnds(Abs(), me, o);
        return;
      }
      var claimed := ClaimLease();
      if claimed.None? {
        runs := runs - {me};
        AloneEnds(Abs(), me, o);
        return;
      }
      runs := runs[me := Run(Inspect(claimed.value), now)];
      InspectBuild(claimed.value, o);
    }

    method InspectBuild(build: Row, o: Outcomes)
      requires Valid() && me in runs && runs[me].pc == Inspect(build)
      modifies this
      ensures Valid() && Abs() == RunAlone(old(Abs()), me, o)
      ensures activeBuild == old(activeBuild) && now == old(now)
      ensures !Terminal(build.status) && old(row).processingBy == Some(me) ==>
                var done := if build.status == Building && build.buildingAt.Some? && o.inspect.Stuck?
                            then FailedRow(old(row), now, o)
                            else if old(activeBuild) then old(row)
                            else WorkedRow(old(row), build, now, o);
                row == if o.release.Broken? then done else done.(processingBy := None, processingStartedAt := None)
    {
      hide RunAlone;
      Alone(Abs(), me, o);
      if Terminal(build.status) {
        runs := runs[me := runs[me].(pc := Release)];
        ReleaseBuildLease(o);
        return;
      }
      if build.status.Building? && build.buildingAt.Some? && o.inspect.Stuck? {
        runs := runs[me := runs[me].(pc := MarkFailure(build, false))];
        MarkFailed(build, false, o);
        ReleaseBuildLease(o);
        return;
      }
      runs := runs[me := runs[me].(pc := Enter(build))];
      EnterBuild(build, o);
    }

    /** The build is executed unless it is being executed already. */
    method EnterBuild(build: Row, o: Outcomes)
      requires Valid() && me in runs && runs[me].pc == Enter(build)
      modifies this
      ensures Valid() && Abs() == RunAlone(old(Abs()), me, o)
      ensures activeBuild == old(activeBuild) && now == old(now)
      ensures old(row).processingBy == Some(me) ==>
                var done := if old(activeBuild) then old(row) else WorkedRow(old(row), build, now, o);
                row == if o.release.Broken? then done else done.(processingBy := None, processingStartedAt := None)
    {
      hide RunAlone;
      Alone(Abs(), me, o);
      if activeBuild {
        runs := runs[me := runs[me].(pc := Release)];
        ReleaseBuildLease(o);
        return;
      }
      activeBuild, active := true, active + {me};
      runs := runs[me := runs[me].(pc := Work(build))];
      ProcessBuild(build, o);
      Alone(Abs(), me, o);
      activeBuild, active := false, active - {me};
      runs := runs[me := runs[me].(pc := Release)];
      ReleaseBuildLease(o);
    }

    /** The body of reconcileBuild between its two deferred calls. */
    method ProcessBuild(build: Row, o: Outcomes)
      requires Valid() && me in runs && runs[me].pc == Work(build)
      modifies this`row, this`runs
      ensures Valid() && me in runs && runs[me].pc == Leave
      ensures row == WorkedRow(old(row), build, now, o)
      ensures RunAlone(Abs(), me, o) == RunAlone(old(Abs()), me, o)
    {
      hide RunAlone;
      Alone(Abs(), me, o);
      if o.work.Broken? {
        runs := runs[me := runs[me].(pc := Leave)];
      } else if build.vm.None? {
        if o.work.NewVm? && build.status.Pending? {
          runs := runs[me := runs[me].(pc := LinkVm(build, o.work.vm))];
          Alone(Abs(), me, o);
          if !o.link.Broken? {
            row := MarkedBuilding(row, o.work.vm, now);
          }
        }
        runs := runs[me := runs[me].(pc := Leave)];
      } else if o.work.VmFailed? {
        runs := runs[me := runs[me].(pc := MarkFailure(build, true))];
        MarkFailed(build, true, o);
      } else if build.image.None? && o.work.Built? {
        runs := runs[me := runs[me].(pc := MarkSuccess(build, o.work.image))];
        Alone(Abs(), me, o);
        if o.markSuccess.Broken? {
          runs := runs[me := runs[me].(pc := MarkFailure(build, true))];
          MarkFailed(build, true, o);
        } else {
          row := MarkedSuccessful(row, o.work.image, now);
          runs := runs[me := runs[me].(pc := Leave)];
        }
      } else if build.image.None? && o.work.BuildFailed? {
        runs := runs[me := runs[me].(pc := MarkFailure(build, true))];
        MarkFailed(build, true, o);
      } else {
        runs := runs[me := runs[me].(pc := Leave)];
      }
    }

    method MarkFailed(ghost build: Row, ghost entered: bool, o: Outcomes)
      requires me in runs && runs[me].pc == MarkFailure(build, entered)
      modifies this`row, this`runs
      ensures me in runs && runs[me].pc == (if entered then Leave else Release)
      ensures row == FailedRow(old(row), now, o)
      ensures RunAlone(Abs(), me, o) == RunAlone(old(Abs()), me, o)
    {
      hide RunAlone;
      Alone(Abs(), me, o);
      if !o.markFailure.Broken? {
        row := MarkedFailed(row, now);
      }
      runs := runs[me := runs[me].(pc := if entered then Leave else Release)];
    }
  }

  lemma AloneEnds(s: State, server: ServerId, o: Outcomes)
    requires server !in s.runs
    ensures RunAlone(s, server, o) == s
  {
  }
}
