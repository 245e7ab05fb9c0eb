/** Handing a project's custom domains from one deployment to the next
    (internal/zeitwork/deployment.go:32-53,180-197,258-303).

    A run of `reconcileDeployment` that finds its VM healthy marks the deployment running,
    points the custom domains at it and stops the project's older running deployments, each
    of these being one statement or several. Between any two statements anything else may
    happen: other runs, user stops, failed builds, failovers that change a deployment's VM, and
    edits of the domains. Deployment ids are version 7 UUIDs, so "older" is "smaller". */
module HandOver {

  datatype Option<T> = None | Some(value: T)

  type Id = nat

  datatype Deployment = Deployment(
    project: Id,
    vm: Option<Id>,
    running: bool,
    stopped: bool,
    failed: bool,
    deleted: bool) {

    /** The WHERE clause of DeploymentFindRunningAndOlder, without the comparison of ids. */
    predicate Findable() {
      running && !stopped && !failed && !deleted
    }
  }

  /** `custom` is `name NOT LIKE '%.zeitwork.app'`. */
  datatype Domain = Domain(project: Id, deployment: Option<Id>, custom: bool, active: bool)

  /** Where a run is. `left` holds the old deployments still to stop, with the VM each had when
      they were listed; `Marking(q, left)` has deleted the VM of q and is about to mark q. */
  datatype Stage =
    | Checking
    | Pointing
    | Finding
    | Stopping(left: map<Id, Option<Id>>)
    | Marking(q: Id, left: map<Id, Option<Id>>)

  /** `errors` are the old deployments given up on after a failed statement, `since` those that
      started running after the old ones were listed. */
  datatype Run = Run(deployment: Id, stage: Stage, errors: set<Id>, since: set<Id>) {

    /** The old deployments this run will still touch. */
    function Todo(): set<Id> {
      match stage
      case Stopping(left) => left.Keys
      case Marking(q, left) => left.Keys + {q}
      case _ => {}
    }

    predicate Listed() {
      stage.Stopping? || stage.Marking?
    }
  }

  /** `retired` are the deployments some hand-over marked as stopped and `cut` the VMs some
      hand-over deleted; `owner` says for which deployment a VM was made. */
  datatype State = State(
    deployments: map<Id, Deployment>,
    domains: map<Id, Domain>,
    runs: map<Id, Run>,
    owner: map<Id, Id>,
    retired: set<Id>,
    cut: set<Id>)

  datatype Event =
    | Create(d: Id, project: Id)
    | Settle(d: Id, stopped: bool, failed: bool, deleted: bool)
    | Attach(d: Id, vm: Id)
    | Detach(d: Id)
    | AddDomain(domain: Id, row: Domain)
    | RemoveDomain(domain: Id)
    | Resurrect(domain: Id)
    | Read(run: Id, d: Id)
    | MarkRunning(run: Id)
    | Point(run: Id)
    | Find(run: Id)
    | DeleteVm(run: Id, q: Id)
    | MarkStopped(run: Id, q: Id)
    | Fail(run: Id, q: Id)
    | Leave(run: Id)

  // ---------------------------------------------------------------------
  // Steps
  // ---------------------------------------------------------------------

  predicate Init(s: State) {
    s == State(map[], map[], map[], map[], {}, {})
  }

  predicate Known(s: State, run: Id) {
    run in s.runs && s.runs[run].deployment in s.deployments
  }

  predicate Older(s: State, q: Id, d: Id) {
    q in s.deployments && d in s.deployments && q < d && s.deployments[q].project == s.deployments[d].project
  }

  /** The rows DeploymentFindRunningAndOlder returns for deployment d. */
  function RunningAndOlder(s: State, d: Id): map<Id, Option<Id>> {
    map q | q in s.deployments && Older(s, q, d) && s.deployments[q].Findable() :: s.deployments[q].vm
  }

  /** DomainUpdateDeploymentForProject */
  function Pointed(domains: map<Id, Domain>, project: Id, d: Id): map<Id, Domain> {
    map x | x in domains ::
      if domains[x].project == project && domains[x].custom && domains[x].active
      then domains[x].(deployment := Some(d)) else domains[x]
  }

  predicate Enabled(s: State, e: Event) {
    match e
    case Create(d, _) => d !in s.deployments
    case Settle(d, _, _, _) => d in s.deployments
    case Attach(d, vm) => d in s.deployments && vm !in s.owner
    case Detach(d) => d in s.deployments
    case AddDomain(x, row) => x !in s.domains && row.active && (row.custom ==> row.deployment == None)
    case RemoveDomain(x) => x in s.domains
    case Resurrect(x) => x in s.domains && !s.domains[x].active
    case Read(run, d) =>
      && run !in s.runs && d in s.deployments
      && var row := s.deployments[d]; !row.running && !row.stopped && !row.failed && !row.deleted
    case MarkRunning(run) => Known(s, run) && s.runs[run].stage == Checking
    case Point(run) => Known(s, run) && s.runs[run].stage == Pointing
    case Find(run) => Known(s, run) && s.runs[run].stage == Finding
    case DeleteVm(run, q) =>
      run in s.runs && var g := s.runs[run].stage; g.Stopping? && q in g.left && g.left[q].Some?
    case MarkStopped(run, q) => run in s.runs && q in s.deployments && ReadyToMark(s.runs[run].stage, q)
    case Fail(run, q) =>
      run in s.runs && var g := s.runs[run].stage; ReadyToMark(g, q) || (g.Stopping? && q in g.left)
    case Leave(run) => run in s.runs
  }

  predicate ReadyToMark(g: Stage, q: Id) {
    (g.Marking? && g.q == q) || (g.Stopping? && q in g.left && g.left[q].None?)
  }

  function Without(g: Stage, q: Id): Stage
    requires g.Stopping? || g.Marking?
  {
    Stopping(g.left - {q})
  }

  function Apply(s: State, e: Event): State
    requires Enabled(s, e)
  {
    match e
    case Create(d, p) =>
      s.(deployments := s.deployments[d := Deployment(p, None, false, false, false, false)])
    case Settle(d, stopped, failed, deleted) =>
      var row := s.deployments[d];
      SetRow(s, d, row.(stopped := row.stopped || stopped, failed := row.failed || failed, deleted := row.deleted || deleted))
    case Attach(d, vm) => SetRow(s, d, s.deployments[d].(vm := Some(vm))).(owner := s.owner[vm := d])
    case Detach(d) => SetRow(s, d, s.deployments[d].(vm := None))
    case AddDomain(x, row) => s.(domains := s.domains[x := row])
    case RemoveDomain(x) => s.(domains := s.domains[x := s.domains[x].(active := false)])
    case Resurrect(x) => s.(domains := s.domains[x := s.domains[x].(active := true)])
    case Read(run, d) => s.(runs := s.runs[run := Run(d, Checking, {}, {})])
    case MarkRunning(run) =>
      var d := s.runs[run].deployment;
      var t := SetRow(s, d, s.deployments[d].(running := true));
      t.(runs := map r | r in s.runs ::
        if r == run then s.runs[r].(stage := Pointing)
        else if s.runs[r].Listed() then s.runs[r].(since := s.runs[r].since + {d})
        else s.runs[r])
    case Point(run) =>
      var d := s.runs[run].deployment;
      SetStage(s, run, Finding).(domains := Pointed(s.domains, s.deployments[d].project, d))
    case Find(run) => SetStage(s, run, Stopping(RunningAndOlder(s, s.runs[run].deployment)))
    case DeleteVm(run, q) =>
      var left := s.runs[run].stage.left;
      SetStage(s, run, Marking(q, left - {q})).(cut := s.cut + {left[q].value})
    case MarkStopped(run, q) =>
      var t := SetStage(s, run, Without(s.runs[run].stage, q)).(retired := s.retired + {q});
      SetRow(t, q, s.deployments[q].(stopped := true))
    case Fail(run, q) =>
      var t := SetStage(s, run, Without(s.runs[run].stage, q));
      t.(runs := t.runs[run := t.runs[run].(errors := t.runs[run].errors + {q})])
    case Leave(run) => s.(runs := s.runs - {run})
  }

  function SetRow(s: State, d: Id, row: Deployment): State {
    s.(deployments := s.deployments[d := row])
  }

  function SetStage(s: State, run: Id, g: Stage): State
    requires run in s.runs
  {
    s.(runs := s.runs[run := s.runs[run].(stage := g)])
  }

  // ---------------------------------------------------------------------
  // What always holds
  // ---------------------------------------------------------------------

  ghost predicate RunInv(s: State, r: Run) {
    && r.deployment in s.deployments
    && (r.stage != Checking ==> s.deployments[r.deployment].running)
    && (forall q :: q in r.Todo() ==> Older(s, q, r.deployment) && s.deployments[q].running)
    && (r.Listed() ==> forall q :: q in r.stage.left && r.stage.left[q].Some? ==>
          r.stage.left[q].value in s.owner && s.owner[r.stage.left[q].value] == q)
  }

  ghost predicate RunsInv(s: State) {
    forall r :: r in s.runs ==> RunInv(s, s.runs[r])
  }

  /** Nothing a run has listed is forgotten: an older deployment that still runs is to be
      stopped, was given up on, or started running afterwards. */
  ghost predicate Accounted(s: State, r: Run) {
    r.Listed() ==>
      forall q :: Older(s, q, r.deployment) && s.deployments[q].Findable() ==>
        q in r.Todo() || q in r.errors || q in r.since
  }

  ghost predicate AccountsInv(s: State) {
    forall r :: r in s.runs ==> Accounted(s, s.runs[r])
  }

  /** A custom domain only ever points at a deployment of its project that was marked running. */
  ghost predicate DomainInv(s: State, x: Domain) {
    x.custom && x.deployment.Some? ==>
      x.deployment.value in s.deployments
      && s.deployments[x.deployment.value].running
      && s.deployments[x.deployment.value].project == x.project
  }

  ghost predicate DomainsInv(s: State) {
    forall x :: x in s.domains ==> DomainInv(s, s.domains[x])
  }

  /** A VM belongs to one deployment for ever. */
  ghost predicate OwnersInv(s: State) {
    && (forall d :: d in s.deployments && s.deployments[d].vm.Some? ==>
          s.deployments[d].vm.value in s.owner && s.owner[s.deployments[d].vm.value] == d)
    && (forall v :: v in s.owner ==> s.owner[v] in s.deployments)
  }

  ghost predicate Ran(s: State, d: Id) {
    d in s.deployments && s.deployments[d].running
  }

  /** Hand-overs only ever touched deployments that were marked running. */
  ghost predicate TouchedInv(s: State) {
    && (forall d :: d in s.retired ==> Ran(s, d))
    && (forall v :: v in s.cut ==> v in s.owner && Ran(s, s.owner[v]))
  }

  ghost predicate Inv(s: State) {
    RunsInv(s) && AccountsInv(s) && DomainsInv(s) && OwnersInv(s) && TouchedInv(s)
  }

  // ---------------------------------------------------------------------
  // Every step keeps it
  // ---------------------------------------------------------------------

  /** Rows stay, in their project, and what was marked running stays marked; VMs keep their owner. */
  ghost predicate Grew(s: State, t: State) {
    && (forall d :: d in s.deployments ==>
          d in t.deployments && t.deployments[d].project == s.deployments[d].project
          && (s.deployments[d].running ==> t.deployments[d].running))
    && (forall v :: v in s.owner ==> v in t.owner && t.owner[v] == s.owner[v])
  }

  lemma StepGrows(s: State, e: Event)
    requires Enabled(s, e)
    ensures Grew(s, Apply(s, e))
  {
  }

  lemma RunGrows(s: State, t: State, r: Run)
    requires RunInv(s, r) && Grew(s, t)
    ensures RunInv(t, r)
  {
  }

  /** A deployment is changed by its user or a failed build, by gaining or losing a VM, by the run
      that marks it running, and by a hand-over that stops it. */
  lemma DeploymentChangedBy(s: State, e: Event, d: Id)
    requires Enabled(s, e) && d in s.deployments
    ensures d in Apply(s, e).deployments
    ensures var was, now := s.deployments[d], Apply(s, e).deployments[d];
            || now == was
            || (e.Settle? && e.d == d
                && now == was.(stopped := was.stopped || e.stopped, failed := was.failed || e.failed,
                               deleted := was.deleted || e.deleted))
            || (e.Attach? && e.d == d && now == was.(vm := Some(e.vm)))
            || (e.Detach? && e.d == d && now == was.(vm := None))
            || (e.MarkRunning? && s.runs[e.run].deployment == d && now == was.(running := true))
            || (e.MarkStopped? && e.q == d && now == was.(stopped := true))
  {
  }

  /** A domain is changed by its user, who may delete it and bring it back with its pointer, and by
      the hand-over of a deployment of its project, if it is a custom one and active. */
  lemma DomainChangedBy(s: State, e: Event, x: Id)
    requires Enabled(s, e) && x in s.domains
    ensures x in Apply(s, e).domains
    ensures var was, now := s.domains[x], Apply(s, e).domains[x];
            || now == was
            || (e == RemoveDomain(x) && now == was.(active := false))
            || (e == Resurrect(x) && now == was.(active := true))
            || (e.Point? && was.custom && was.active
                && s.deployments[s.runs[e.run].deployment].project == was.project
                && now == was.(deployment := Some(s.runs[e.run].deployment)))
  {
  }

  /** The event is a statement of run i. */
  predicate By(e: Event, i: Id) {
    match e
    case Read(run, _) => run == i
    case MarkRunning(run) => run == i
    case Point(run) => run == i
    case Find(run) => run == i
    case DeleteVm(run, _) => run == i
    case MarkStopped(run, _) => run == i
    case Fail(run, _) => run == i
    case Leave(run) => run == i
    case _ => false
  }

  lemma OtherRun(s: State, e: Event, i: Id)
    requires Enabled(s, e) && i in Apply(s, e).runs && !By(e, i)
    ensures i in s.runs
    ensures var r := Apply(s, e).runs[i];
            if e.MarkRunning? && s.runs[i].Listed() then
              e.run in s.runs && r == s.runs[i].(since := s.runs[i].since + {s.runs[e.run].deployment})
            else r == s.runs[i]
  {
  }

  lemma OwnFind(s: State, i: Id)
    requires RunsInv(s) && OwnersInv(s) && Enabled(s, Find(i))
    ensures RunInv(Apply(s, Find(i)), Apply(s, Find(i)).runs[i])
  {
  }

  lemma OwnStop(s: State, e: Event, i: Id)
    requires i in s.runs && RunInv(s, s.runs[i])
    requires Enabled(s, e) && By(e, i) && (e.DeleteVm? || e.MarkStopped? || e.Fail?)
    ensures i in Apply(s, e).runs && RunInv(s, Apply(s, e).runs[i])
  {
  }

  lemma OwnRun(s: State, e: Event, i: Id)
    requires RunsInv(s) && OwnersInv(s) && Enabled(s, e) && i in Apply(s, e).runs && By(e, i)
    ensures RunInv(Apply(s, e), Apply(s, e).runs[i])
  {
    if e.Find? {
      OwnFind(s, i);
    } else if e.DeleteVm? || e.MarkStopped? || e.Fail? {
      hide Apply, RunInv, Grew;
      OwnStop(s, e, i);
      StepGrows(s, e);
      RunGrows(s, Apply(s, e), Apply(s, e).runs[i]);
    }
  }

  lemma RunsStep(s: State, e: Event)
    requires RunsInv(s) && OwnersInv(s) && Enabled(s, e)
    ensures RunsInv(Apply(s, e))
  {
    hide Enabled, Apply, Grew;
    StepGrows(s, e);
    var t := Apply(s, e);
    forall i | i in t.runs
      ensures RunInv(t, t.runs[i])
    {
      if By(e, i) {
        OwnRun(s, e, i);
      } else {
        OtherRun(s, e, i);
        RunGrows(s, t, s.runs[i]);
      }
    }
  }

  lemma AccountsStep(s: State, e: Event)
    requires RunsInv(s) && AccountsInv(s) && Enabled(s, e)
    ensures AccountsInv(Apply(s, e))
  {
    var t := Apply(s, e);
    forall i | i in t.runs
      ensures Accounted(t, t.runs[i])
    {
      if By(e, i) { OwnAccount(s, e, i); } else { OtherAccount(s, e, i); }
    }
  }

  lemma OwnAccount(s: State, e: Event, i: Id)
    requires AccountsInv(s) && Enabled(s, e) && i in Apply(s, e).runs && By(e, i)
    ensures Accounted(Apply(s, e), Apply(s, e).runs[i])
  {
  }

  lemma OtherAccount(s: State, e: Event, i: Id)
    requires RunsInv(s) && AccountsInv(s) && Enabled(s, e) && i in Apply(s, e).runs && !By(e, i)
    ensures Accounted(Apply(s, e), Apply(s, e).runs[i])
  {
    OtherRun(s, e, i);
    var t, r := Apply(s, e), s.runs[i];
    forall q | r.Listed() && Older(t, q, r.deployment) && t.deployments[q].Findable()
      ensures (Older(s, q, r.deployment) && s.deployments[q].Findable()) || q in t.runs[i].since
    {
      NewlyFindable(s, e, r.deployment, q);
    }
  }

  /** Only being marked running makes an older deployment findable. */
  lemma NewlyFindable(s: State, e: Event, d: Id, q: Id)
    requires Enabled(s, e) && d in s.deployments && Older(Apply(s, e), q, d) && Apply(s, e).deployments[q].Findable()
    ensures (Older(s, q, d) && s.deployments[q].Findable()) || (e.MarkRunning? && q == s.runs[e.run].deployment)
  {
  }

  lemma DomainsStep(s: State, e: Event)
    requires RunsInv(s) && DomainsInv(s) && Enabled(s, e)
    ensures DomainsInv(Apply(s, e))
  {
  }

  lemma OwnersStep(s: State, e: Event)
    requires OwnersInv(s) && Enabled(s, e)
    ensures OwnersInv(Apply(s, e))
  {
  }

  lemma TouchedBefore(s: State, e: Event)
    requires RunsInv(s) && TouchedInv(s) && Enabled(s, e)
    ensures forall d :: d in Apply(s, e).retired ==> Ran(s, d)
    ensures forall v :: v in Apply(s, e).cut ==> v in s.owner && Ran(s, s.owner[v])
  {
  }

  lemma TouchedStep(s: State, e: Event)
    requires RunsInv(s) && TouchedInv(s) && Enabled(s, e)
    ensures TouchedInv(Apply(s, e))
  {
    hide Apply, Enabled, RunsInv;
    TouchedBefore(s, e);
    StepGrows(s, e);
  }

  lemma StepInv(s: State, e: Event)
    requires Inv(s) && Enabled(s, e)
    ensures Inv(Apply(s, e))
  {
    hide RunsInv, AccountsInv, DomainsInv, OwnersInv, TouchedInv, Apply, Enabled;
    RunsStep(s, e);
    AccountsStep(s, e);
    DomainsStep(s, e);
    OwnersStep(s, e);
    TouchedStep(s, e);
  }
}
