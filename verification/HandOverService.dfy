/** The tail of reconcileDeployment as the code has it (internal/zeitwork/deployment.go:180-197,
    251-303): methods over the deployment and domain tables. Run without interference they
    take exactly the steps of the interleaved model. */
module HandOverService {
  import opened HandOver
  import opened HandOverSafety

  /** The statements that fail: the three single ones, and VMSoftDelete and
      DeploymentMarkStopped for these old deployments. */
  datatype Failures = Failures(mark: bool, point: bool, find: bool, vm: set<Id>, stop: set<Id>)

  /** The old deployments that are given up on. */
  function GivenUp(listed: map<Id, Option<Id>>, f: Failures): set<Id> {
    set q | q in listed && ((listed[q].Some? && q in f.vm) || q in f.stop)
  }

  /** The VMs deleted once the old deployments in `qs` have been dealt with. */
  function VmsOf(listed: map<Id, Option<Id>>, qs: set<Id>, f: Failures): set<Id> {
    set q | q in qs && q in listed && listed[q].Some? && q !in f.vm :: listed[q].value
  }

  function Restricted(listed: map<Id, Option<Id>>, todo: set<Id>): map<Id, Option<Id>> {
    map q | q in listed && q in todo :: listed[q]
  }

  lemma NoSteps(s: State)
    ensures Possible(s, []) && After(s, []) == s && Quiet([])
  {
  }

  lemma QuietJoined(es: seq<Event>, fs: seq<Event>)
    requires Quiet(es) && Quiet(fs)
    ensures Quiet(es + fs)
  {
  }

  lemma NothingDone(listed: map<Id, Option<Id>>, rows: map<Id, Deployment>, f: Failures)
    ensures Restricted(listed, listed.Keys) == listed
    ensures listed.Keys - listed.Keys - GivenUp(listed, f) == {} && Stopped(rows, {}) == rows
    ensures listed.Keys - listed.Keys == {} && VmsOf(listed, {}, f) == {}
    ensures Restricted(listed, {}) == map[]
  {
  }

  /** What one more old deployment adds to the rows, the deleted VMs and the list. */
  lemma OneMore(listed: map<Id, Option<Id>>, rows: map<Id, Deployment>, todo: set<Id>, q: Id, f: Failures)
    requires q in todo && todo <= listed.Keys && q in rows
    ensures q in Restricted(listed, todo) && Restricted(listed, todo)[q] == listed[q]
    ensures Restricted(listed, todo) - {q} == Restricted(listed, todo - {q})
    ensures var was := Stopped(rows, listed.Keys - todo - GivenUp(listed, f));
            q in was && Stopped(rows, listed.Keys - (todo - {q}) - GivenUp(listed, f))
            == if (listed[q].Some? && q in f.vm) || q in f.stop then was else was[q := was[q].(stopped := true)]
    ensures var was := VmsOf(listed, listed.Keys - todo, f);
            VmsOf(listed, listed.Keys - (todo - {q}), f)
            == if listed[q].Some? && q !in f.vm then was + {listed[q].value} else was
  {
    assert listed.Keys - (todo - {q}) == (listed.Keys - todo) + {q};
  }

  lemma Joined(s: State, es: seq<Event>, fs: seq<Event>)
    requires Possible(s, es) && Possible(After(s, es), fs)
    ensures Possible(s, es + fs) && After(s, es + fs) == After(After(s, es), fs)
    decreases |es|
  {
    hide Apply, Enabled;
    if es == [] {
      assert [] + fs == fs;
    } else {
      assert (es + fs)[1..] == es[1..] + fs;
      Joined(Apply(s, es[0]), es[1..], fs);
    }
  }

  function Stopped(rows: map<Id, Deployment>, qs: set<Id>): map<Id, Deployment> {
    map q | q in rows :: if q in qs then rows[q].(stopped := true) else rows[q]
  }

  lemma {:induction false} Snoc(s: State, es: seq<Event>, e: Event)
    requires Possible(s, es) && Enabled(After(s, es), e)
    ensures Possible(s, es + [e]) && After(s, es + [e]) == Apply(After(s, es), e)
    decreases |es|
  {
    hide Apply, Enabled;
    if es == [] {
      assert [] + [e] == [e] && [e][1..] == [];
    } else {
      assert (es + [e])[1..] == es[1..] + [e];
      Snoc(Apply(s, es[0]), es[1..], e);
    }
  }

  class Service {
    var deployments: map<Id, Deployment>
    var domains: map<Id, Domain>
    /** VMs this service has soft-deleted. */
    var deletedVms: set<Id>
    ghost var runs: map<Id, Run>
    ghost var owner: map<Id, Id>
    ghost var retired: set<Id>

    ghost function Abs(): State
      reads this
    {
      State(deployments, domains, runs, owner, retired, deletedVms)
    }

    ghost method Note(run: Id, g: Stage)
      requires run in runs
      modifies `runs
      ensures runs == old(runs)[run := old(runs)[run].(stage := g)]
    {
      runs := runs[run := runs[run].(stage := g)];
    }

    method DeploymentMarkRunning(ghost run: Id, d: Id)
      requires Enabled(Abs(), HandOver.Event.MarkRunning(run)) && runs[run].deployment == d
      modifies `deployments, `runs
      ensures Abs() == Apply(old(Abs()), HandOver.Event.MarkRunning(run))
    {
      ghost var t := Apply(Abs(), HandOver.Event.MarkRunning(run));
      deployments := deployments[d := deployments[d].(running := true)];
      runs := t.runs;
    }

    method PointCustomDomainsToDeployment(ghost run: Id, d: Id)
      requires Enabled(Abs(), Point(run)) && runs[run].deployment == d
      modifies `domains, `runs
      ensures Abs() == Apply(old(Abs()), Point(run))
    {
      domains := Pointed(domains, deployments[d].project, d);
      Note(run, Finding);
    }

    method DeploymentMarkStopped(ghost run: Id, q: Id)
      requires Enabled(Abs(), MarkStopped(run, q))
      modifies `deployments, `runs, `retired
      ensures Abs() == Apply(old(Abs()), MarkStopped(run, q))
    {
      deployments := deployments[q := deployments[q].(stopped := true)];
      Note(run, Without(runs[run].stage, q));
      retired := retired + {q};
    }

    method VMSoftDelete(ghost run: Id, q: Id, vm: Id)
      requires Enabled(Abs(), DeleteVm(run, q)) && runs[run].stage.left[q] == Some(vm)
      modifies `deletedVms, `runs
      ensures Abs() == Apply(old(Abs()), DeleteVm(run, q))
    {
      deletedVms := deletedVms + {vm};
      Note(run, Marking(q, runs[run].stage.left - {q}));
    }

    ghost method GiveUp(run: Id, q: Id)
      requires Enabled(Abs(), Fail(run, q))
      modifies `runs
      ensures Abs() == Apply(old(Abs()), Fail(run, q))
    {
      runs := Apply(Abs(), Fail(run, q)).runs;
    }

    /** One pass of the loop: what happens to one old deployment. */
    method StopOne(ghost run: Id, q: Id, vm: Option<Id>, f: Failures) returns (ghost es: seq<Event>)
      requires run in runs && runs[run].stage.Stopping? && q in deployments
      requires q in runs[run].stage.left && runs[run].stage.left[q] == vm
      modifies this
      ensures Possible(old(Abs()), es) && After(old(Abs()), es) == Abs() && Quiet(es)
      ensures run in runs && runs[run].stage == Stopping(old(runs[run].stage.left) - {q})
      ensures deployments == if (vm.Some? && q in f.vm) || q in f.stop then old(deployments)
                             else old(deployments)[q := old(deployments)[q].(stopped := true)]
      ensures deletedVms == if vm.Some? && q !in f.vm then old(deletedVms) + {vm.value} else old(deletedVms)
      ensures domains == old(domains)
    {
      es := [];
      if vm.Some? {
        if q in f.vm {
          GiveUp(run, q);
          Snoc(old(Abs()), es, Fail(run, q));
          es := es + [Fail(run, q)];
          return;
        }
        VMSoftDelete(run, q, vm.value);
        Snoc(old(Abs()), es, DeleteVm(run, q));
        es := es + [DeleteVm(run, q)];
      }
      if q in f.stop {
        Snoc(old(Abs()), es, Fail(run, q));
        GiveUp(run, q);
        es := es + [Fail(run, q)];
        return;
      }
      Snoc(old(Abs()), es, MarkStopped(run, q));
      DeploymentMarkStopped(run, q);
      es := es + [MarkStopped(run, q)];
    }

    /** The loop over the old deployments: those not given up on are stopped, and the VMs whose
        deletion did not fail are deleted. */
    method StopThem(ghost run: Id, listed: map<Id, Option<Id>>, f: Failures) returns (ghost es: seq<Event>)
      requires run in runs && runs[run].stage == Stopping(listed) && listed.Keys <= deployments.Keys
      modifies this
      ensures Possible(old(Abs()), es) && After(old(Abs()), es) == Abs() && Quiet(es)
      ensures domains == old(domains) && run in runs && runs[run].stage == Stopping(map[])
      ensures deployments == Stopped(old(deployments), listed.Keys - GivenUp(listed, f))
      ensures deletedVms == old(deletedVms) + VmsOf(listed, listed.Keys, f)
    {
      hide *;
      es := [];
      ghost var start, rows, vms := Abs(), deployments, deletedVms;
      var todo := listed.Keys;
      NothingDone(listed, rows, f);
      NoSteps(start);
      while todo != {}
        invariant todo <= listed.Keys && domains == old(domains)
        invariant listed.Keys <= deployments.Keys && rows.Keys == deployments.Keys
        invariant run in runs && runs[run].stage == Stopping(Restricted(listed, todo))
        invariant deployments == Stopped(rows, listed.Keys - todo - GivenUp(listed, f))
        invariant deletedVms == vms + VmsOf(listed, listed.Keys - todo, f)
        invariant Possible(start, es) && After(start, es) == Abs() && Quiet(es)
        decreases todo
      {
        var q :| q in todo;
        OneMore(listed, rows, todo, q, f);
        ghost var more := StopOne(run, q, listed[q], f);
        Joined(start, es, more);
        QuietJoined(es, more);
        es := es + more;
        todo := todo - {q};
      }
      assert listed.Keys - {} - GivenUp(listed, f) == listed.Keys - GivenUp(listed, f);
      assert listed.Keys - {} == listed.Keys;
    }

    method StopOldDeployments(ghost run: Id, d: Id, f: Failures) returns (ok: bool, ghost es: seq<Event>)
      requires Enabled(Abs(), Find(run)) && runs[run].deployment == d
      modifies this
      ensures Possible(old(Abs()), es) && After(old(Abs()), es) == Abs() && Quiet(es)
      ensures ok == !f.find && domains == old(domains) && run in runs
      ensures !ok ==> Abs() == old(Abs())
      ensures ok ==>
                var listed := old(RunningAndOlder(Abs(), d));
                && runs[run].stage == Stopping(map[])
                && deployments == Stopped(old(deployments), listed.Keys - GivenUp(listed, f))
                && deletedVms == old(deletedVms) + VmsOf(listed, listed.Keys, f)
    {
      if f.find {
        return false, [];
      }
      var listed := map q | q in deployments && q < d && deployments[q].project == deployments[d].project
                            && deployments[q].Findable() :: deployments[q].vm;
      assert listed == RunningAndOlder(Abs(), d);
      ghost var start := Abs();
      Note(run, Stopping(listed));
      assert Abs() == Apply(start, Find(run));
      hide Apply, Enabled, RunningAndOlder;
      ghost var rest := StopThem(run, listed, f);
      Two(start, Find(run), rest);
      return true, [Find(run)] + rest;
    }

    ghost method End(run: Id)
      requires run in runs
      modifies `runs
      ensures Abs() == Apply(old(Abs()), Leave(run))
    {
      runs := runs - {run};
    }

    /** What a healthy deployment's run does last. An error ends the run where it is. */
    method FinishDeployment(ghost run: Id, d: Id, f: Failures) returns (ok: bool, ghost es: seq<Event>)
      requires Enabled(Abs(), HandOver.Event.MarkRunning(run)) && runs[run].deployment == d
      modifies this
      ensures Possible(old(Abs()), es) && After(old(Abs()), es) == Abs() && run !in runs
      ensures ok == !(f.mark || f.point || f.find)
      ensures deployments == AfterFinish(old(Abs()), d, f)
      ensures domains == if f.mark || f.point then old(domains)
                         else Pointed(old(domains), old(deployments)[d].project, d)
      ensures deletedVms == old(deletedVms) + CutBy(old(Abs()), d, f)
    {
      ghost var start := Abs();
      if f.mark {
        End(run);
        es := [Leave(run)];
        assert es[1..] == [];
        return false, es;
      }
      ok, es := MarkAndHandOver(run, d, f);
      ghost var last := Abs();
      End(run);
      hide Possible, After, Apply, AfterFinish;
      Snoc(start, es, Leave(run));
      es := es + [Leave(run)];
    }

    method MarkAndHandOver(ghost run: Id, d: Id, f: Failures) returns (ok: bool, ghost es: seq<Event>)
      requires Enabled(Abs(), HandOver.Event.MarkRunning(run)) && runs[run].deployment == d && !f.mark
      modifies this
      ensures Possible(old(Abs()), es) && After(old(Abs()), es) == Abs() && run in runs
      ensures ok == !(f.point || f.find)
      ensures deployments == AfterFinish(old(Abs()), d, f)
      ensures domains == if f.point then old(domains)
                         else Pointed(old(domains), old(deployments)[d].project, d)
      ensures deletedVms == old(deletedVms) + CutBy(old(Abs()), d, f)
    {
      ghost var start := Abs();
      DeploymentMarkRunning(run, d);
      ghost var marked := Abs();
      if f.point {
        NoSteps(marked);
        Two(start, HandOver.Event.MarkRunning(run), []);
        return false, [HandOver.Event.MarkRunning(run)] + [];
      }
      PointCustomDomainsToDeployment(run, d);
      ghost var rest;
      SameList(start, run, d);
      ok, rest := StopOldDeployments(run, d, f);
      Two(marked, Point(run), rest);
      Two(start, HandOver.Event.MarkRunning(run), [Point(run)] + rest);
      es := [HandOver.Event.MarkRunning(run)] + ([Point(run)] + rest);
    }
  }

  /** The deployment rows after an undisturbed end of a run for deployment d. */
  function AfterFinish(s: State, d: Id, f: Failures): map<Id, Deployment>
    requires d in s.deployments
  {
    var marked := s.deployments[d := s.deployments[d].(running := true)];
    var listed := RunningAndOlder(s, d);
    if f.mark then s.deployments
    else if f.point || f.find then marked
    else Stopped(marked, listed.Keys - GivenUp(listed, f))
  }

  /** The VMs it has deleted. */
  function CutBy(s: State, d: Id, f: Failures): set<Id>
    requires d in s.deployments
  {
    var listed := RunningAndOlder(s, d);
    if f.mark || f.point || f.find then {} else VmsOf(listed, listed.Keys, f)
  }

  /** On the rows: without a failure of a single statement, the older deployments of d's project
      that are marked running, and neither stopped, failed nor deleted, are stopped, except those
      with a failing statement of their own; d is marked running; all else is as it was. */
  lemma AfterFinishIs(s: State, d: Id, f: Failures, q: Id)
    requires d in s.deployments && q in s.deployments
    ensures var rows, was := AfterFinish(s, d, f), s.deployments[q];
            && rows.Keys == s.deployments.Keys
            && rows[q] ==
                 if f.mark then was
                 else if q == d then was.(running := true)
                 else if && !f.point && !f.find
                         && q < d && was.project == s.deployments[d].project
                         && was.running && !was.stopped && !was.failed && !was.deleted
                         && !(was.vm.Some? && q in f.vm) && q !in f.stop
                 then was.(stopped := true)
                 else was
  {
  }

  /** And the VMs deleted are those of these deployments, except where deleting the VM failed. */
  lemma CutByIs(s: State, d: Id, f: Failures, v: Id)
    requires d in s.deployments
    ensures v in CutBy(s, d, f) <==>
            && !f.mark && !f.point && !f.find
            && exists q :: && q in s.deployments && q < d && s.deployments[q].project == s.deployments[d].project
                           && s.deployments[q].running && !s.deployments[q].stopped
                           && !s.deployments[q].failed && !s.deployments[q].deleted
                           && s.deployments[q].vm == Some(v) && q !in f.vm
  {
    var listed := RunningAndOlder(s, d);
    if v in CutBy(s, d, f) {
      var q :| q in listed && listed[q].Some? && q !in f.vm && listed[q].value == v;
      assert s.deployments[q].vm == Some(v);
    }
    if q :| && q in s.deployments && q < d && s.deployments[q].project == s.deployments[d].project
            && s.deployments[q].running && !s.deployments[q].stopped
            && !s.deployments[q].failed && !s.deployments[q].deleted
            && s.deployments[q].vm == Some(v) && q !in f.vm {
      assert q in listed && listed[q] == Some(v);
    }
  }

  /** The domains that are pointed at d: the active custom ones of the project. */
  lemma PointedIs(domains: map<Id, Domain>, project: Id, d: Id)
    ensures var now := Pointed(domains, project, d);
            && now.Keys == domains.Keys
            && forall x :: x in domains ==>
                 now[x] == if domains[x].project == project && domains[x].custom && domains[x].active
                           then domains[x].(deployment := Some(d)) else domains[x]
  {
  }

  /** Marking d running and pointing the domains does not change which deployments are older. */
  lemma SameList(s: State, run: Id, d: Id)
    requires Enabled(s, HandOver.Event.MarkRunning(run)) && s.runs[run].deployment == d
    ensures var a := Apply(s, HandOver.Event.MarkRunning(run));
            Enabled(a, Point(run)) && RunningAndOlder(Apply(a, Point(run)), d) == RunningAndOlder(s, d)
  {
  }

  /** After a run that meets no failure, no older deployment of the project is running, and the
      run's own deployment is. */
  lemma FinishLeavesOne(s: State, d: Id, q: Id)
    requires q in s.deployments && d in s.deployments && q < d && s.deployments[q].project == s.deployments[d].project
    ensures var rows := AfterFinish(s, d, Failures(false, false, false, {}, {}));
            && q in rows && d in rows
            && !(rows[q].running && !rows[q].stopped && !rows[q].failed && !rows[q].deleted)
            && rows[d].running && rows[d].stopped == s.deployments[d].stopped
  {
  }
}
