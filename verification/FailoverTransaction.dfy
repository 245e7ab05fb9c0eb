/** detectAndFailoverDeadServers, replaceDeadServerVMs and replaceVM as the code
    has them, over the tables as the failover transaction sees them. */
module FailoverTransaction {
  import opened IpAllocator
  import opened Failover
  import opened FailoverRoom
  import opened FailoverRuns
  import opened FailoverOutcome

  /** Foreign keys and the unique constraint on deployments.vm_id. */
  ghost predicate Constraints(db: Db) {
    PointersExist(db) && UniquePointers(db.deployments)
  }

  /** When no listed server can be a target, only listed work is moved or lost;
      nothing moves without an eligible server, and with room nothing is lost. */
  ghost predicate Tally(before: Db, moved: map<VmId, VmId>, lost: set<VmId>, listed: set<ServerId>) {
    && (listed !! Eligible(before) ==> moved.Keys + lost <= ListedWork(before, listed))
    && (Eligible(before) == {} ==> moved == map[])
    && (listed !! Eligible(before) && Ample(before, listed) && Eligible(before) != {} ==> lost == {})
  }

  /** What a failover of `listed` has done so far. */
  ghost predicate Progress(before: Db, db: Db, moved: map<VmId, VmId>, lost: set<VmId>, listed: set<ServerId>) {
    && Accounted(before, db, moved, lost)
    && Placed(before, db, listed)
    && Constraints(before) && Constraints(db)
    && Tally(before, moved, lost, listed)
  }

  lemma PlacedReplaced(before: Db, db: Db, listed: set<ServerId>, vm: VmId, id: VmId, target: ServerId, ip: Address)
    requires Placed(before, db, listed) && vm in db.vms && target in Eligible(db)
    ensures Placed(before, Replaced(db, vm, id, target, ip), listed)
  {
    assert Eligible(Replaced(db, vm, id, target, ip)) == Eligible(db);
  }

  lemma PlacedDeleted(before: Db, db: Db, listed: set<ServerId>, vm: VmId)
    requires Placed(before, db, listed) && vm in db.vms
    ensures Placed(before, SoftDeleted(db, vm), listed)
  {
    assert Eligible(SoftDeleted(db, vm)) == Eligible(db);
  }

  lemma ReplacedConstraints(db: Db, vm: VmId, id: VmId, target: ServerId, ip: Address)
    requires Constraints(db) && vm in db.vms && id !in db.vms
    ensures Constraints(Replaced(db, vm, id, target, ip)) && Constraints(SoftDeleted(db, vm))
  {
    RepointKeepsUnique(db.deployments, vm, id);
  }

  /** The work a dead server still holds is the work it held from the start, when
      no listed server could be a target. */
  lemma OriginListed(before: Db, db: Db, moved: map<VmId, VmId>, lost: set<VmId>, listed: set<ServerId>, vm: VmId)
    requires Accounted(before, db, moved, lost) && Placed(before, db, listed)
    requires vm in Work(db) && db.vms[vm].server in listed && listed !! Eligible(before)
    ensures vm in ListedWork(before, listed) && Origin(before, db, moved, lost, vm) == vm && vm !in moved && vm !in lost
  {
    if vm !in before.vms { assert false; }
  }

  lemma ProgressMove(before: Db, db: Db, moved: map<VmId, VmId>, lost: set<VmId>, listed: set<ServerId>,
                     vm: VmId, id: VmId, target: ServerId, ip: Address)
    requires Progress(before, db, moved, lost, listed) && vm in Work(db) && db.vms[vm].server in listed
    requires id !in db.vms && target in Eligible(db)
    ensures var o := Origin(before, db, moved, lost, vm);
            Progress(before, Replaced(db, vm, id, target, ip), moved[o := id], lost, listed)
  {
    hide RowsAccounted, PointersAccounted, Ample;
    MoveRows(before, db, moved, lost, vm, id, target, ip);
    MovePointers(before, db, moved, lost, vm, id, target, ip);
    ReplacedConstraints(db, vm, id, target, ip);
    PlacedReplaced(before, db, listed, vm, id, target, ip);
    if listed !! Eligible(before) { OriginListed(before, db, moved, lost, listed, vm); }
  }

  lemma SomeEligible(before: Db, db: Db, listed: set<ServerId>, vm: VmId)
    requires Placed(before, db, listed) && listed !! Eligible(before) && Eligible(before) != {} && vm in db.vms
    ensures Eligible(SoftDeleted(db, vm)) != {}
  {
    var s :| s in Eligible(before);
    assert s in Eligible(SoftDeleted(db, vm));
  }

  /** A replacement only fails if no server is eligible or addresses run short. */
  lemma FailureExplained(before: Db, db: Db, moved: map<VmId, VmId>, listed: set<ServerId>, vm: VmId, r: Replacement)
    requires Progress(before, db, moved, {}, listed) && vm in Work(db) && db.vms[vm].server in listed
    requires !r.Moved? && ReplaceEnds(db, vm, r, SoftDeleted(db, vm))
    requires listed !! Eligible(before)
    ensures Eligible(before) == {} || !Ample(before, listed)
  {
    OriginListed(before, db, moved, {}, listed, vm);
    if Eligible(before) != {} && Ample(before, listed) {
      SomeEligible(before, db, listed, vm);
      AddressFound(before, db, moved, listed, vm, r.target);
      assert false;
    }
  }

  lemma ProgressLose(before: Db, db: Db, moved: map<VmId, VmId>, lost: set<VmId>, listed: set<ServerId>, vm: VmId, r: Replacement)
    requires Progress(before, db, moved, lost, listed) && vm in Work(db) && db.vms[vm].server in listed
    requires !r.Moved? && ReplaceEnds(db, vm, r, SoftDeleted(db, vm))
    ensures var o := Origin(before, db, moved, lost, vm);
            && o !in lost
            && Progress(before, SoftDeleted(db, vm), moved - {o}, lost + {o}, listed)
  {
    hide RowsAccounted, PointersAccounted, Ample, ReplaceEnds;
    LoseRows(before, db, moved, lost, vm);
    LosePointers(before, db, moved, lost, vm);
    PlacedDeleted(before, db, listed, vm);
    if listed !! Eligible(before) {
      OriginListed(before, db, moved, lost, listed, vm);
      if lost == {} { FailureExplained(before, db, moved, listed, vm, r); }
    }
  }

  class Transaction {
    var servers: map<ServerId, Server>
    var vms: map<VmId, Vm>
    var deployments: map<DeploymentId, Option<VmId>>

    function Abs(): Db
      reads this
    {
      Db(servers, vms, deployments)
    }

    constructor (db: Db)
      ensures Abs() == db
    {
      servers, vms, deployments := db.servers, db.vms, db.deployments;
    }

    method ServerUpdateStatus(server: ServerId)
      modifies this`servers
      ensures Abs() == MarkedDead(old(Abs()), server)
    {
      if server in servers {
        servers := servers[server := servers[server].(status := Dead)];
      }
    }

    method ServerFindLeastLoaded() returns (target: Option<ServerId>)
      ensures target.None? ==> Eligible(Abs()) == {}
      ensures target.Some? ==> IsLeastLoaded(Abs(), target.value)
      ensures target.None? <==> forall s :: s in servers ==> !(servers[s].status == Active && servers[s].recent)
      ensures target.Some? ==>
                && target.value in servers && servers[target.value].status == Active && servers[target.value].recent
                && forall s :: s in servers && servers[s].status == Active && servers[s].recent ==>
                     (|set id | id in vms && vms[id].server == target.value && !vms[id].deleted
                                && vms[id].status != Stopped && vms[id].status != Failed|
                      <= |set id | id in vms && vms[id].server == s && !vms[id].deleted
                                   && vms[id].status != Stopped && vms[id].status != Failed|)
    {
      var db := Abs();
      TargetIs(db, 0);
      var candidates := Eligible(db);
      if candidates == {} {
        return None;
      }
      hide WorkOn, Eligible;
      var best :| best in candidates;
      var todo := candidates;
      while todo != {}
        invariant best in candidates && todo <= candidates
        invariant forall s :: s in candidates - todo ==> |WorkOn(db, best)| <= |WorkOn(db, s)|
        decreases todo
      {
        var s :| s in todo;
        if |WorkOn(db, s)| < |WorkOn(db, best)| {
          best := s;
        }
        todo := todo - {s};
      }
      TargetIs(db, best);
      return Some(best);
    }

    method NewId() returns (id: VmId)
      ensures id !in vms
    {
      FreshIdExists(vms.Keys, 0);
      id :| id !in vms;
    }

    /** DeploymentFindByVMID followed by DeploymentUpdateVM */
    method Repoint(from: VmId, to: VmId)
      requires UniquePointers(deployments)
      modifies this`deployments
      ensures deployments == Repointed(old(deployments), from, to)
    {
      if d :| d in deployments && deployments[d] == Some(from) {
        deployments := deployments[d := Some(to)];
      }
    }

    method ReplaceVM(vm: VmId) returns (r: Replacement)
      requires vm in vms && Constraints(Abs())
      modifies this`vms, this`deployments
      ensures ReplaceEnds(old(Abs()), vm, r, Abs())
    {
      var spec := vms[vm].spec;
      vms := vms[vm := vms[vm].(deleted := true)];
      assert Abs() == SoftDeleted(old(Abs()), vm);
      var found := ServerFindLeastLoaded();
      if found.None? {
        return NoServer;
      }
      var target := found.value;
      var allocation := NextIp(LiveIps(Abs(), target), servers[target].range);
      if !allocation.Free? {
        return NoAddress(target);
      }
      var id := NewId();
      vms := vms[id := Vm(target, Pending, spec, allocation.ip, false)];
      Repoint(vm, id);
      return Moved(id, target, allocation.ip);
    }

    /** One replacement, entered in the books. */
    method ReplaceListedVM(vm: VmId, ghost before: Db, ghost moved0: map<VmId, VmId>,
                           ghost lost0: set<VmId>, ghost listed: set<ServerId>)
      returns (ok: bool, ghost r: Replacement, ghost moved: map<VmId, VmId>, ghost lost: set<VmId>)
      requires Progress(before, Abs(), moved0, lost0, listed)
      requires vm in Work(Abs()) && vms[vm].server in listed
      modifies this`vms, this`deployments
      ensures ReplaceEnds(old(Abs()), vm, r, Abs()) && ok == r.Moved?
      ensures Progress(before, Abs(), moved, lost, listed)
      ensures if ok then lost == lost0 else lost0 < lost && |lost| == |lost0| + 1
      ensures Eligible(Abs()) == Eligible(old(Abs()))
      ensures forall s :: s !in Eligible(Abs()) ==> WorkOn(Abs(), s) == WorkOn(old(Abs()), s) - {vm}
    {
      hide Progress;
      ghost var db := Abs();
      ProgressConstraints(before, db, moved0, lost0, listed);
      var outcome := ReplaceVM(vm);
      r := outcome;
      ghost var o := Origin(before, db, moved0, lost0, vm);
      hide RowsAccounted, Constraints;
      if outcome.Moved? {
        ProgressMove(before, db, moved0, lost0, listed, vm, r.id, r.target, r.ip);
        WorkMoved(db, vm, r.id, r.target, r.ip);
        return true, r, moved0[o := r.id], lost0;
      }
      ProgressLose(before, db, moved0, lost0, listed, vm, r);
      WorkLost(db, vm);
      return false, r, moved0 - {o}, lost0 + {o};
    }

    /** Replaces the VMs of one dead server, stopping at the first failure. */
    method ReplaceDeadServerVMs(server: ServerId, ghost before: Db, ghost moved0: map<VmId, VmId>,
                                ghost lost0: set<VmId>, ghost listed: set<ServerId>)
      returns (ok: bool, ghost moved: map<VmId, VmId>, ghost lost: set<VmId>)
      requires Progress(before, Abs(), moved0, lost0, listed) && server in listed && server !in Eligible(Abs())
      modifies this`vms, this`deployments
      ensures Progress(before, Abs(), moved, lost, listed)
      ensures Carried(old(Abs()), WorkOn(old(Abs()), server), Abs(), ok)
      ensures ok ==> lost == lost0 && WorkOn(Abs(), server) == {}
      ensures !ok ==> lost0 < lost && |lost| == |lost0| + 1
      ensures forall s :: s !in Eligible(Abs()) ==> WorkOn(Abs(), s) <= WorkOn(old(Abs()), s)
    {
      LeadsStart(Abs(), WorkOn(Abs(), server));
      hide Progress, Eligible, Carried, ReplaceEnds, Leads;
      moved, lost := moved0, lost0;
      ghost var start := Abs();
      var rows := vms;
      var todo := set id | id in vms && !vms[id].deleted && vms[id].server == server;
      while todo != {}
        invariant todo <= rows.Keys && rows == start.vms
        invariant Progress(before, Abs(), moved, lost, listed)
        invariant lost == lost0 && Eligible(Abs()) == Eligible(start)
        invariant WorkOn(Abs(), server) == WorkOn(start, server) * todo
        invariant Leads(start, WorkOn(start, server), Abs(), WorkOn(Abs(), server))
        invariant forall s :: s !in Eligible(start) ==> WorkOn(Abs(), s) <= WorkOn(start, s)
        decreases todo
      {
        var vm :| vm in todo;
        // skip VMs that are already in a terminal state
        if !rows[vm].status.Stopped? && !rows[vm].status.Failed? {
          assert vm in WorkOn(Abs(), server);
          ghost var db, r := Abs(), NoServer;
          ok, r, moved, lost := ReplaceListedVM(vm, before, moved, lost, listed);
          LeadsOn(start, WorkOn(start, server), db, WorkOn(db, server), vm, r, Abs());
          if !ok {
            return;
          }
        }
        todo := todo - {vm};
      }
      assert WorkOn(Abs(), server) == {};
      LeadsEnd(start, WorkOn(start, server), Abs());
      ok := true;
    }

    /** One turn of the loop over the dead servers. */
    method FailoverServer(d: ServerId, ghost before: Db, ghost moved0: map<VmId, VmId>,
                          ghost lost0: set<VmId>, ghost listed: set<ServerId>)
      returns (ok: bool, ghost moved: map<VmId, VmId>, ghost lost: set<VmId>)
      requires Progress(before, Abs(), moved0, lost0, listed) && d in listed && d in servers
      modifies this
      ensures Progress(before, Abs(), moved, lost, listed) && ServerRun(old(Abs()), d, Abs(), ok)
      ensures ok ==> lost == lost0 && WorkOn(Abs(), d) == {}
      ensures !ok ==> |lost| == |lost0| + 1
      ensures servers == MarkedDead(old(Abs()), d).servers
      ensures forall s :: s !in Eligible(old(Abs())) ==> WorkOn(Abs(), s) <= WorkOn(old(Abs()), s)
    {
      hide Progress, Carried, WorkOn;
      ProgressMark(before, Abs(), moved0, lost0, listed, d);
      ServerUpdateStatus(d);
      ok, moved, lost := ReplaceDeadServerVMs(d, before, moved0, lost0, listed);
    }

    /** The failover transaction. Failures are logged and swallowed, and it commits. */
    method DetectAndFailoverDeadServers(deadServers: seq<ServerId>)
      returns (ghost moved: map<VmId, VmId>, ghost lost: set<VmId>, ghost failed: set<ServerId>)
      requires Constraints(Abs())
      requires forall i :: 0 <= i < |deadServers| ==> deadServers[i] in servers
      requires forall i, j :: 0 <= i < j < |deadServers| ==> deadServers[i] != deadServers[j]
      modifies this
      ensures Accounted(old(Abs()), Abs(), moved, lost) && Constraints(Abs())
      ensures SpecBag(old(vms), Work(old(Abs()))) == SpecBag(vms, Work(Abs())) + SpecBag(old(vms), lost)
      ensures failed <= (set d | d in deadServers) && |lost| == |failed|
      ensures servers == map s | s in old(servers) ::
                           if s in deadServers then old(servers)[s].(status := Dead) else old(servers)[s]
      ensures forall id :: id in vms && id !in old(vms) ==>
                vms[id].server in old(servers) && old(servers)[vms[id].server].status == Active
                && old(servers)[vms[id].server].recent
      ensures forall d :: d in deadServers && d !in failed ==> WorkOn(Abs(), d) == {}
      ensures var listed := set d | d in deadServers;
              listed !! Eligible(old(Abs())) && Ample(old(Abs()), listed) ==>
                (lost == {} <==> Eligible(old(Abs())) != {} || ListedWork(old(Abs()), listed) == {})
      ensures Run(old(Abs()), deadServers, Abs(), |failed|)
      ensures Predicted(old(Abs()), deadServers, lost == {})
    {
      hide WorkOn, SpecBag, Work, ListedWork, Ample, Eligible;
      hide Progress, Predicted, Tally, Placed, Accounted, Constraints, Run, ServerRun, RunLeads, Handled, MarkedDead;
      ghost var before := Abs();
      ghost var listed := set d | d in deadServers;
      moved, lost, failed := map[], {}, {};
      NothingDone(before, listed);
      RunLeadsStart(before, deadServers);
      assert Handled(before, before, [], {}) by { NothingHandled(before); }
      assert deadServers[..0] == [] && deadServers[0..] == deadServers;
      for i := 0 to |deadServers|
        invariant Progress(before, Abs(), moved, lost, listed)
        invariant RunLeads(before, deadServers, Abs(), deadServers[i..], |failed|) && |lost| == |failed|
        invariant servers.Keys == before.servers.Keys && Handled(before, Abs(), deadServers[..i], failed)
      {
        var d := deadServers[i];
        assert d !in deadServers[..i];
        ghost var db := Abs();
        var ok;
        ok, moved, lost := FailoverServer(d, before, moved, lost, listed);
        assert deadServers[i..][0] == d && deadServers[i..][1..] == deadServers[i + 1..];
        RunLeadsOn(before, deadServers, db, deadServers[i..], |failed|, Abs(), ok);
        assert deadServers[..i + 1] == deadServers[..i] + [d];
        HandledOn(before, db, Abs(), deadServers[..i], failed, d, ok);
        if !ok {
          failed := failed + {d};
        }
      }
      assert deadServers[|deadServers|..] == [] && deadServers[..|deadServers|] == deadServers;
      RunLeadsEnd(before, deadServers, Abs(), |failed|);
      AllHandled(before, Abs(), deadServers, failed);
      Settled(before, deadServers, Abs(), moved, lost, listed, failed);
    }
  }

  /** Of the servers, those gone through are dead and the others as they were; and those gone
      through are without work unless they failed. */
  ghost predicate Handled(before: Db, db: Db, dead: seq<ServerId>, failed: set<ServerId>) {
    && db.servers == (map s | s in before.servers ::
                        if s in dead then before.servers[s].(status := Dead) else before.servers[s])
    && (forall d :: d in failed ==> d in dead)
    && forall d :: d in dead ==> d in before.servers && (d !in failed ==> WorkOn(db, d) == {})
  }

  lemma NothingHandled(db: Db)
    ensures Handled(db, db, [], {})
  {
  }

  lemma AllHandled(before: Db, db: Db, dead: seq<ServerId>, failed: set<ServerId>)
    requires Handled(before, db, dead, failed)
    ensures failed <= set d | d in dead
    ensures db.servers == map s | s in before.servers ::
                            if s in dead then before.servers[s].(status := Dead) else before.servers[s]
    ensures forall d :: d in dead && d !in failed ==> WorkOn(db, d) == {}
  {
  }

  lemma HandledOn(before: Db, db: Db, next: Db, dead: seq<ServerId>, failed: set<ServerId>, d: ServerId, ok: bool)
    requires Handled(before, db, dead, failed) && d in db.servers && next.servers == MarkedDead(db, d).servers
    requires ok ==> WorkOn(next, d) == {}
    requires forall s :: s !in Eligible(db) ==> WorkOn(next, s) <= WorkOn(db, s)
    ensures Handled(before, next, dead + [d], if ok then failed else failed + {d})
    ensures next.servers.Keys == db.servers.Keys
    ensures d !in dead ==> |failed + {d}| == |failed| + 1
  {
    hide WorkOn;
    forall e | e in dead + [d]
      ensures e in before.servers && (e != d && e !in failed ==> WorkOn(next, e) == {})
    {
      if e != d { DeadHasNoWork(db, next, e); }
    }
  }

  lemma DeadHasNoWork(db: Db, next: Db, e: ServerId)
    requires e in db.servers && db.servers[e].status.Dead?
    requires forall s :: s !in Eligible(db) ==> WorkOn(next, s) <= WorkOn(db, s)
    ensures WorkOn(db, e) == {} ==> WorkOn(next, e) == {}
  {
    hide WorkOn;
    assert e !in Eligible(db);
  }

  lemma ProgressConstraints(before: Db, db: Db, moved: map<VmId, VmId>, lost: set<VmId>, listed: set<ServerId>)
    requires Progress(before, db, moved, lost, listed)
    ensures Constraints(db) && RowsAccounted(before, db, moved, lost)
  {
  }

  lemma WorkLost(db: Db, vm: VmId)
    requires vm in db.vms
    ensures forall s :: WorkOn(SoftDeleted(db, vm), s) == WorkOn(db, s) - {vm}
    ensures Eligible(SoftDeleted(db, vm)) == Eligible(db)
  {
  }

  lemma NothingDone(db: Db, listed: set<ServerId>)
    requires Constraints(db)
    ensures Progress(db, db, map[], {}, listed)
  {
  }

  lemma ProgressMark(before: Db, db: Db, moved: map<VmId, VmId>, lost: set<VmId>, listed: set<ServerId>, d: ServerId)
    requires Progress(before, db, moved, lost, listed) && d in listed && d in db.servers
    ensures Progress(before, MarkedDead(db, d), moved, lost, listed)
    ensures forall s :: WorkOn(MarkedDead(db, d), s) == WorkOn(db, s)
    ensures d !in Eligible(MarkedDead(db, d))
  {
    hide Ample, Accounted, Tally;
    AccountedMark(before, db, moved, lost, d);
    PlacedMark(before, db, listed, d);
  }

  lemma AccountedMark(before: Db, db: Db, moved: map<VmId, VmId>, lost: set<VmId>, d: ServerId)
    requires Accounted(before, db, moved, lost)
    ensures Accounted(before, MarkedDead(db, d), moved, lost)
  {
    hide MovesOk, Follows;
    assert MovesOk(before, MarkedDead(db, d), moved, lost) by { MovesMark(before, db, moved, lost, d); }
    assert forall was, now :: Follows(db, moved, lost, was, now) ==> Follows(MarkedDead(db, d), moved, lost, was, now) by {
      FollowsMark(db, moved, lost, d);
    }
  }

  lemma MovesMark(before: Db, db: Db, moved: map<VmId, VmId>, lost: set<VmId>, d: ServerId)
    requires MovesOk(before, db, moved, lost)
    ensures MovesOk(before, MarkedDead(db, d), moved, lost)
  {
  }

  lemma FollowsMark(db: Db, moved: map<VmId, VmId>, lost: set<VmId>, d: ServerId)
    ensures forall was, now :: Follows(db, moved, lost, was, now) ==> Follows(MarkedDead(db, d), moved, lost, was, now)
  {
  }

  lemma PlacedMark(before: Db, db: Db, listed: set<ServerId>, d: ServerId)
    requires Placed(before, db, listed) && d in listed && d in db.servers
    ensures Placed(before, MarkedDead(db, d), listed)
  {
  }

  /** What is known when the transaction commits. */
  lemma Settled(before: Db, dead: seq<ServerId>, db: Db, moved: map<VmId, VmId>, lost: set<VmId>,
                listed: set<ServerId>, failed: set<ServerId>)
    requires Progress(before, db, moved, lost, listed) && Run(before, dead, db, |failed|)
    requires failed <= listed && |lost| == |failed|
    requires forall d :: d in listed && d !in failed ==> WorkOn(db, d) == {}
    ensures Accounted(before, db, moved, lost) && Constraints(db)
    ensures SpecBag(before.vms, Work(before)) == SpecBag(db.vms, Work(db)) + SpecBag(before.vms, lost)
    ensures listed !! Eligible(before) && Ample(before, listed) ==>
              (lost == {} <==> Eligible(before) != {} || ListedWork(before, listed) == {})
    ensures Predicted(before, dead, lost == {})
    ensures forall id :: id in db.vms && id !in before.vms ==>
              db.vms[id].server in before.servers && before.servers[db.vms[id].server].status == Active
              && before.servers[db.vms[id].server].recent
  {
    hide Predicted, Run;
    Foretold(before, dead, db, |failed|);
    WorkConserved(before, db, moved, lost);
    if lost == {} { assert failed == {}; }
    if lost == {} && Eligible(before) == {} {
      NothingMoved(before, db, listed);
    }
  }

  /** A failover that moved and lost nothing found no work on the listed servers. */
  lemma NothingMoved(before: Db, db: Db, listed: set<ServerId>)
    requires Accounted(before, db, map[], {})
    requires forall d :: d in listed ==> WorkOn(db, d) == {}
    ensures ListedWork(before, listed) == {}
  {
    if vm :| vm in ListedWork(before, listed) {
      assert db.vms[vm] == before.vms[vm];
      StillThere(db, vm, before.vms[vm].server);
    }
  }

  lemma StillThere(db: Db, vm: VmId, server: ServerId)
    requires vm in db.vms && Working(db.vms[vm]) && db.vms[vm].server == server
    ensures WorkOn(db, server) != {}
  {
    assert vm in WorkOn(db, server);
  }
}
