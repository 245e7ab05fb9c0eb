/** Every run a failover may take: the order of the VMs of a server and the
    choice among equally loaded targets are left open, as the queries leave them. */
module FailoverRuns {
  import opened IpAllocator
  import opened Failover
  import opened FailoverRoom

  datatype Replacement =
    | Moved(id: VmId, target: ServerId, ip: Address)
    | NoServer
    | NoAddress(target: ServerId)

  /** How replaceVM ends, told from the tables before and after. */
  ghost predicate ReplaceEnds(before: Db, vm: VmId, r: Replacement, after: Db)
    requires vm in before.vms
  {
    var deleted := SoftDeleted(before, vm);
    match r
    case Moved(id, target, ip) =>
      && IsLeastLoaded(deleted, target)
      && NextIp(LiveIps(deleted, target), before.servers[target].range) == Free(ip)
      && id !in before.vms
      && after == Replaced(before, vm, id, target, ip)
    case NoServer => Eligible(deleted) == {} && after == deleted
    case NoAddress(target) =>
      && IsLeastLoaded(deleted, target)
      && !NextIp(LiveIps(deleted, target), before.servers[target].range).Free?
      && after == deleted
  }

  /** The servers and loads the choice of a target goes by, on the rows themselves. */
  lemma LoadIs(db: Db, s: ServerId)
    ensures WorkOn(db, s)
         == set id | id in db.vms && db.vms[id].server == s && !db.vms[id].deleted
                     && db.vms[id].status != Stopped && db.vms[id].status != Failed
    ensures Work(db) == set id | id in db.vms && !db.vms[id].deleted
                                 && db.vms[id].status != Stopped && db.vms[id].status != Failed
  {
  }

  lemma TargetIs(db: Db, target: ServerId)
    ensures IsLeastLoaded(db, target) <==>
            && target in db.servers && db.servers[target].status == Active && db.servers[target].recent
            && forall s :: s in db.servers && db.servers[s].status == Active && db.servers[s].recent ==>
                 (|set id | id in db.vms && db.vms[id].server == target && !db.vms[id].deleted
                            && db.vms[id].status != Stopped && db.vms[id].status != Failed|
                  <= |set id | id in db.vms && db.vms[id].server == s && !db.vms[id].deleted
                               && db.vms[id].status != Stopped && db.vms[id].status != Failed|)
    ensures Eligible(db) == {} <==>
            forall s :: s in db.servers ==> !(db.servers[s].status == Active && db.servers[s].recent)
  {
    LoadIs(db, target);
    forall s | s in db.servers
      ensures WorkOn(db, s) == set id | id in db.vms && db.vms[id].server == s && !db.vms[id].deleted
                                        && db.vms[id].status != Stopped && db.vms[id].status != Failed
    {
      LoadIs(db, s);
    }
    assert forall s :: s in Eligible(db) <==> s in db.servers && db.servers[s].status == Active && db.servers[s].recent;
    hide WorkOn, Eligible;
  }

  /** A replacement, told from the rows: the old VM is deleted and otherwise as it was; the new
      one is pending, with the old one's specification, on an active server with a recent
      heartbeat that no such server has less work than, at the least odd offset of its range that
      none of its live VMs has; the pointers at the old VM move to the new one; and nothing else
      changes. */
  lemma ReplacementIs(before: Db, vm: VmId, r: Replacement, after: Db)
    requires vm in before.vms && ReplaceEnds(before, vm, r, after) && r.Moved?
    ensures r.target in before.servers && before.servers[r.target].status == Active && before.servers[r.target].recent
    ensures forall s :: s in before.servers && before.servers[s].status == Active && before.servers[s].recent ==>
              (|set id | id in before.vms && id != vm && before.vms[id].server == r.target && !before.vms[id].deleted
                         && before.vms[id].status != Stopped && before.vms[id].status != Failed|
               <= |set id | id in before.vms && id != vm && before.vms[id].server == s && !before.vms[id].deleted
                            && before.vms[id].status != Stopped && before.vms[id].status != Failed|)
    ensures r.id !in before.vms && after.servers == before.servers
    ensures after.vms == before.vms[vm := before.vms[vm].(deleted := true)]
                                   [r.id := Vm(r.target, Pending, before.vms[vm].spec, r.ip, false)]
    ensures after.deployments.Keys == before.deployments.Keys
    ensures forall d :: d in before.deployments ==>
              after.deployments[d] == if before.deployments[d] == Some(vm) then Some(r.id) else before.deployments[d]
  {
    hide NextIp, LiveIps;
    var deleted := SoftDeleted(before, vm);
    TargetIs(deleted, r.target);
    hide IsLeastLoaded;
    forall s | s in before.servers
      ensures (set id | id in deleted.vms && deleted.vms[id].server == s && !deleted.vms[id].deleted
                        && deleted.vms[id].status != Stopped && deleted.vms[id].status != Failed)
           == set id | id in before.vms && id != vm && before.vms[id].server == s && !before.vms[id].deleted
                       && before.vms[id].status != Stopped && before.vms[id].status != Failed
    {
    }
  }

  lemma LiveIpsAre(db: Db, s: ServerId)
    ensures LiveIps(db, s) == set id | id in db.vms && !db.vms[id].deleted && db.vms[id].server == s :: db.vms[id].ip
  {
  }

  /** The address it gets: the least odd offset, up to the last but one address of the range,
      that no other live VM of the server has. */
  lemma ReplacementAddress(before: Db, vm: VmId, r: Replacement, after: Db)
    requires vm in before.vms && ReplaceEnds(before, vm, r, after) && r.Moved?
    ensures var range := before.servers[r.target].range;
            && 1 <= r.ip - range.base <= Size(range.masklen) - 2 && (r.ip - range.base) % 2 == 1
            && (forall id :: id in before.vms && id != vm && !before.vms[id].deleted && before.vms[id].server == r.target ==>
                  before.vms[id].ip != r.ip)
            && forall a :: Candidate(a, range) && a < r.ip ==>
                 exists id :: id in before.vms && id != vm && !before.vms[id].deleted
                              && before.vms[id].server == r.target && before.vms[id].ip == a
  {
    var deleted := SoftDeleted(before, vm);
    var range := before.servers[r.target].range;
    var taken := LiveIps(deleted, r.target);
    FoundIsLeast(taken, range);
    hide LiveIps;
    assert taken == set id | id in deleted.vms && !deleted.vms[id].deleted && deleted.vms[id].server == r.target :: deleted.vms[id].ip
      by { LiveIpsAre(deleted, r.target); }
    forall id | id in before.vms && id != vm && !before.vms[id].deleted && before.vms[id].server == r.target
      ensures before.vms[id].ip != r.ip
    {
      assert deleted.vms[id] == before.vms[id];
      assert before.vms[id].ip in taken;
    }
    hide NextIp;
    forall a | Candidate(a, range) && a < r.ip
      ensures exists id :: id in before.vms && id != vm && !before.vms[id].deleted
                           && before.vms[id].server == r.target && before.vms[id].ip == a
    {
      assert a in taken;
      var id :| id in deleted.vms && !deleted.vms[id].deleted && deleted.vms[id].server == r.target && deleted.vms[id].ip == a;
      assert id != vm && before.vms[id] == deleted.vms[id];
    }
  }

  /** A failed replacement, told from the rows: the old VM is deleted and nothing else changes; no
      active server has a recent heartbeat, or one that no such server has less work than has no
      odd offset free. */
  lemma FailureIs(before: Db, vm: VmId, r: Replacement, after: Db)
    requires vm in before.vms && ReplaceEnds(before, vm, r, after) && !r.Moved?
    ensures after == before.(vms := before.vms[vm := before.vms[vm].(deleted := true)])
    ensures r.NoServer? ==>
              forall s :: s in before.servers ==> !(before.servers[s].status == Active && before.servers[s].recent)
    ensures r.NoAddress? ==>
              r.target in before.servers && before.servers[r.target].status == Active && before.servers[r.target].recent
    ensures r.NoAddress? && before.servers[r.target].range.masklen >= 2 ==>
              forall a :: Candidate(a, before.servers[r.target].range) ==>
                exists id :: id in before.vms && id != vm && !before.vms[id].deleted
                             && before.vms[id].server == r.target && before.vms[id].ip == a
  {
    hide NextIp, Candidate;
    var deleted := SoftDeleted(before, vm);
    if r.NoAddress? {
      TargetIs(deleted, r.target);
      var range := before.servers[r.target].range;
      if range.masklen >= 2 {
        AllTaken(LiveIps(deleted, r.target), range);
        forall a | Candidate(a, range)
          ensures exists id :: id in before.vms && id != vm && !before.vms[id].deleted
                               && before.vms[id].server == r.target && before.vms[id].ip == a
        {
          assert a in LiveIps(deleted, r.target);
          var id :| id in deleted.vms && !deleted.vms[id].deleted && deleted.vms[id].server == r.target && deleted.vms[id].ip == a;
          assert id != vm && before.vms[id] == deleted.vms[id];
        }
      }
    } else {
      TargetIs(deleted, 0);
    }
  }

  ghost predicate Replacing(db: Db, vm: VmId, r: Replacement, next: Db) {
    vm in db.vms && ReplaceEnds(db, vm, r, next)
  }

  /** replaceDeadServerVMs: replaces the VMs of `todo` one by one up to the first failure. */
  ghost predicate Carried(db: Db, todo: set<VmId>, end: Db, ok: bool)
    decreases todo
  {
    if todo == {} then end == db && ok
    else exists vm, r, next :: vm in todo && Replacing(db, vm, r, next) && Onward(next, todo, vm, r, end, ok)
  }

  ghost predicate Onward(next: Db, todo: set<VmId>, vm: VmId, r: Replacement, end: Db, ok: bool)
    requires vm in todo
    decreases todo, 0
  {
    if r.Moved? then Carried(next, todo - {vm}, end, ok) else end == next && !ok
  }

  /** One server: it is marked dead and its working VMs are carried over. */
  ghost predicate ServerRun(db: Db, d: ServerId, next: Db, ok: bool) {
    Carried(MarkedDead(db, d), WorkOn(db, d), next, ok)
  }

  /** The whole loop; servers whose VMs were not all replaced are counted. */
  ghost predicate Run(db: Db, dead: seq<ServerId>, end: Db, failures: nat)
    decreases |dead|
  {
    if dead == [] then end == db && failures == 0
    else exists next, ok ::
        && ServerRun(db, dead[0], next, ok)
        && (ok || failures > 0)
        && Run(next, dead[1..], end, if ok then failures else failures - 1)
  }

  function SetOf(dead: seq<ServerId>): set<ServerId> {
    set d | d in dead
  }

  // ---------------------------------------------------------------------
  // One replacement
  // ---------------------------------------------------------------------

  lemma MovedReplaces(db: Db, vm: VmId, r: Replacement, next: Db)
    requires vm in db.vms && db.vms[vm].server !in Eligible(db) && ReplaceEnds(db, vm, r, next) && r.Moved?
    ensures Replaces(db, vm, r.id, r.target, r.ip) && next == Replaced(db, vm, r.id, r.target, r.ip)
    ensures IsLeastLoaded(db, r.target)
  {
    hide NextIp;
    LeastLoadedKept(db, vm, r.target);
    LiveIpsDeleted(db, vm, r.target);
  }

  lemma LeastLoadedKept(db: Db, vm: VmId, target: ServerId)
    requires vm in db.vms && db.vms[vm].server !in Eligible(db)
    ensures Eligible(SoftDeleted(db, vm)) == Eligible(db)
    ensures IsLeastLoaded(SoftDeleted(db, vm), target) == IsLeastLoaded(db, target)
  {
    forall s | s in Eligible(db)
      ensures WorkOn(SoftDeleted(db, vm), s) == WorkOn(db, s)
    {
    }
  }

  /** The first statement of a run that has work to do. */
  lemma Opened(db: Db, todo: set<VmId>, end: Db, ok: bool) returns (vm: VmId, r: Replacement, next: Db)
    requires Carried(db, todo, end, ok) && todo != {}
    ensures vm in todo && vm in db.vms && ReplaceEnds(db, vm, r, next)
    ensures if r.Moved? then Carried(next, todo - {vm}, end, ok) else end == next && !ok
  {
    hide ReplaceEnds;
    vm, r, next :| vm in todo && Replacing(db, vm, r, next) && Onward(next, todo, vm, r, end, ok);
  }

  lemma Joined(db: Db, todo: set<VmId>, vm: VmId, r: Replacement, next: Db, end: Db, ok: bool)
    requires vm in todo && vm in db.vms && ReplaceEnds(db, vm, r, next)
    requires if r.Moved? then Carried(next, todo - {vm}, end, ok) else end == next && !ok
    ensures Carried(db, todo, end, ok)
  {
    hide ReplaceEnds;
    assert Replacing(db, vm, r, next) && Onward(next, todo, vm, r, end, ok);
  }

  /** After a move the rest of the server's VMs is still there and nothing else was touched. */
  lemma MoveKeeps(db: Db, d: ServerId, todo: set<VmId>, vm: VmId, r: Replacement, next: Db)
    requires todo <= WorkOn(db, d) && d !in Eligible(db) && vm in todo
    requires ReplaceEnds(db, vm, r, next) && r.Moved?
    ensures Kept(db, next)
    ensures todo - {vm} <= WorkOn(next, d) && WorkOn(next, d) == WorkOn(db, d) - {vm}
    ensures forall s :: s !in Eligible(db) && s != d ==> WorkOn(next, s) == WorkOn(db, s)
  {
    hide ReplaceEnds, Kept, Replaces;
    MovedReplaces(db, vm, r, next);
    KeptMove(db, vm, r.id, r.target, r.ip);
    ReplacesFacts(db, vm, r.id, r.target, r.ip);
    WorkMoved(db, vm, r.id, r.target, r.ip);
  }

  lemma ReplacesFacts(db: Db, vm: VmId, id: VmId, target: ServerId, ip: Address)
    requires Replaces(db, vm, id, target, ip)
    ensures id !in db.vms && target in Eligible(db)
  {
  }

  ghost predicate OthersStay(db: Db, d: ServerId, end: Db) {
    forall s :: s !in Eligible(db) && s != d ==> WorkOn(end, s) == WorkOn(db, s)
  }

  lemma {:induction false} CarriedKeeps(db: Db, d: ServerId, todo: set<VmId>, end: Db, ok: bool)
    requires todo <= WorkOn(db, d) && d !in Eligible(db) && Carried(db, todo, end, ok)
    ensures ok ==> Kept(db, end) && OthersStay(db, d, end) && WorkOn(end, d) == WorkOn(db, d) - todo
    decreases todo
  {
    hide ReplaceEnds, Replacing;
    if todo != {} {
      var vm, r, next := Opened(db, todo, end, ok);
      if r.Moved? {
        MoveKeeps(db, d, todo, vm, r, next);
        CarriedKeeps(next, d, todo - {vm}, end, ok);
      }
    }
  }

  // ---------------------------------------------------------------------
  // What the moves take
  // ---------------------------------------------------------------------

  /** Each move takes one free address. */
  lemma {:induction false} CarriedSlots(db: Db, d: ServerId, todo: set<VmId>, end: Db)
    requires todo <= WorkOn(db, d) && d !in Eligible(db) && Carried(db, todo, end, true)
    requires Eligible(db) <= db.servers.Keys && Eligible(db) <= end.servers.Keys
    ensures |FreeSlots(end, Eligible(db))| + |todo| == |FreeSlots(db, Eligible(db))|
    decreases todo
  {
    hide ReplaceEnds, Replacing, FreeSlots, Replaces;
    if todo != {} {
      var vm, r, next := Opened(db, todo, end, true);
      MoveKeeps(db, d, todo, vm, r, next);
      MovedReplaces(db, vm, r, next);
      SlotMove(db, vm, r.id, r.target, r.ip);
      CarriedSlots(next, d, todo - {vm}, end);
    }
  }

  /** A move takes one unit of the room below a level, if its target is below it. */
  lemma FlatMove(db: Db, vm: VmId, r: Replacement, next: Db, level: int)
    requires vm in db.vms && db.vms[vm].server !in Eligible(db) && ReplaceEnds(db, vm, r, next) && r.Moved?
    ensures IsLevel(next, level) == IsLevel(db, level)
    ensures Room(next, Flat(next, level)) + (if |WorkOn(db, r.target)| < level then 1 else 0) == Room(db, Flat(db, level))
  {
    hide ReplaceEnds, Room, Kept, IsLevel, Brim, WorkOn, NextIp;
    MovedReplaces(db, vm, r, next);
    KeptMove(db, vm, r.id, r.target, r.ip);
    BoundsKept(db, next, level);
    RoomMove(db, vm, r.id, r.target, r.ip, Flat(db, level));
  }

  /** While there is room below a level, the target of a move is below it. */
  lemma LowTarget(db: Db, vm: VmId, r: Replacement, next: Db, level: int)
    requires vm in db.vms && db.vms[vm].server !in Eligible(db) && ReplaceEnds(db, vm, r, next) && r.Moved?
    requires Room(db, Flat(db, level)) > 0
    ensures Room(next, Flat(next, level)) + 1 == Room(db, Flat(db, level))
  {
    hide ReplaceEnds, Room, Replaces, Replaced, IsLevel, WorkOn;
    var low := RoomLeft(db, Flat(db, level));
    MovedReplaces(db, vm, r, next);
    FlatMove(db, vm, r, next, level);
  }

  /** So the work of a server takes no more room than it has VMs. */
  lemma {:induction false} CarriedFlat(db: Db, d: ServerId, todo: set<VmId>, end: Db, level: int)
    requires todo <= WorkOn(db, d) && d !in Eligible(db) && Carried(db, todo, end, true)
    ensures Room(end, Flat(end, level)) + |todo| >= Room(db, Flat(db, level))
    ensures IsLevel(end, level) == IsLevel(db, level)
    decreases todo
  {
    hide ReplaceEnds, Replacing, Room, Flat, IsLevel, Kept;
    if todo != {} {
      var vm, r, next := Opened(db, todo, end, true);
      StillOutside(db, d, todo, vm, r, next);
      FlatMove(db, vm, r, next, level);
      CarriedFlat(next, d, todo - {vm}, end, level);
    }
  }

  /** While all of it fits below the level, each move takes a unit of the room there. */
  lemma {:induction false} CarriedLow(db: Db, d: ServerId, todo: set<VmId>, end: Db, level: int)
    requires todo <= WorkOn(db, d) && d !in Eligible(db) && Carried(db, todo, end, true)
    requires |todo| <= Room(db, Flat(db, level))
    ensures Room(end, Flat(end, level)) + |todo| == Room(db, Flat(db, level))
    decreases todo
  {
    hide ReplaceEnds, Replacing, Room, Flat, Kept;
    if todo != {} {
      var vm, r, next := Opened(db, todo, end, true);
      StillOutside(db, d, todo, vm, r, next);
      LowTarget(db, vm, r, next, level);
      CarriedLow(next, d, todo - {vm}, end, level);
    }
  }

  /** What an induction over the moves of one server goes by. */
  lemma StillOutside(db: Db, d: ServerId, todo: set<VmId>, vm: VmId, r: Replacement, next: Db)
    requires todo <= WorkOn(db, d) && d !in Eligible(db) && vm in todo
    requires ReplaceEnds(db, vm, r, next)
    ensures vm in db.vms && db.vms[vm].server !in Eligible(db)
    ensures r.Moved? ==> todo - {vm} <= WorkOn(next, d) && d !in Eligible(next)
  {
    hide ReplaceEnds;
    if r.Moved? { MoveKeeps(db, d, todo, vm, r, next); }
  }

  /** The target of a move has no more load than the trap's limit, and less than its own. */
  lemma MoveBelowBrim(db: Db, vm: VmId, id: VmId, target: ServerId, ip: Address, level: int)
    requires Replaces(db, vm, id, target, ip) && IsLeastLoaded(db, target)
    requires Tidy(db) && IsTrap(db, level)
    ensures target in Brim(db, level) && |WorkOn(db, target)| < Brim(db, level)[target]
  {
    hide Tidy, Limit, NextIp, WorkOn;
    FindsExactly(db, target);
    var s :| s in Eligible(db) && Limit(db, s) <= level;
    FreeOnCount(db, s);
  }

  /** Where some server is full at the level, each move takes one unit of the room up to one above it. */
  lemma BrimMove(db: Db, vm: VmId, r: Replacement, next: Db, level: int)
    requires vm in db.vms && db.vms[vm].server !in Eligible(db) && ReplaceEnds(db, vm, r, next) && r.Moved?
    requires Tidy(db) && IsTrap(db, level)
    ensures Tidy(next) && IsTrap(next, level) && IsLevel(next, level) == IsLevel(db, level)
    ensures Room(next, Brim(next, level)) + 1 == Room(db, Brim(db, level))
  {
    hide ReplaceEnds, Room, IsTrap, IsLevel, Limit, WorkOn, NextIp, Tidy, TerminalOn, Flat;
    MovedReplaces(db, vm, r, next);
    KeptMove(db, vm, r.id, r.target, r.ip);
    BoundsKept(db, next, level);
    MoveBelowBrim(db, vm, r.id, r.target, r.ip, level);
    RoomMove(db, vm, r.id, r.target, r.ip, Brim(db, level));
  }

  lemma {:induction false} CarriedBrim(db: Db, d: ServerId, todo: set<VmId>, end: Db, level: int)
    requires todo <= WorkOn(db, d) && d !in Eligible(db) && Carried(db, todo, end, true)
    requires Tidy(db) && IsTrap(db, level)
    ensures Tidy(end) && IsTrap(end, level) && IsLevel(end, level) == IsLevel(db, level)
    ensures Room(end, Brim(end, level)) + |todo| == Room(db, Brim(db, level))
    decreases todo
  {
    hide ReplaceEnds, Replacing, Room, Brim, Tidy, IsTrap, IsLevel;
    if todo != {} {
      var vm, r, next := Opened(db, todo, end, true);
      StillOutside(db, d, todo, vm, r, next);
      BrimMove(db, vm, r, next, level);
      CarriedBrim(next, d, todo - {vm}, end, level);
    }
  }

  /** While there is room below a level at which nobody is full, a replacement does not fail. */
  lemma NeverFails(db: Db, vm: VmId, r: Replacement, next: Db, level: int)
    requires vm in db.vms && db.vms[vm].server !in Eligible(db) && ReplaceEnds(db, vm, r, next)
    requires IsLevel(db, level) && Room(db, Flat(db, level)) > 0
    ensures r.Moved?
  {
    hide NextIp, Limit, WorkOn, LiveIps, Room;
    var low := RoomLeft(db, Flat(db, level));
    assert low in Eligible(db);
    if r.NoAddress? {
      LeastLoadedKept(db, vm, r.target);
      FindsExactly(db, r.target);
      LiveIpsDeleted(db, vm, r.target);
    } else if r.NoServer? {
      LeastLoadedKept(db, vm, low);
    }
  }

  lemma {:induction false} CarriedOver(db: Db, d: ServerId, todo: set<VmId>, end: Db, ok: bool, level: int)
    requires todo <= WorkOn(db, d) && d !in Eligible(db) && Carried(db, todo, end, ok)
    requires IsLevel(db, level) && |todo| <= Room(db, Flat(db, level))
    ensures ok
    decreases todo
  {
    hide ReplaceEnds, Replacing, Room, Flat, IsLevel;
    if todo != {} {
      var vm, r, next := Opened(db, todo, end, ok);
      StillOutside(db, d, todo, vm, r, next);
      NeverFails(db, vm, r, next, level);
      FlatMove(db, vm, r, next, level);
      CarriedOver(next, d, todo - {vm}, end, ok, level);
    }
  }

  // ---------------------------------------------------------------------
  // Runs that exist
  // ---------------------------------------------------------------------

  lemma {:induction false} FreshIdExists(ids: set<VmId>, bound: VmId)
    ensures exists id: VmId :: id >= bound && id !in ids
    decreases ids
  {
    if bound in ids {
      FreshIdExists(ids - {bound}, bound + 1);
      var id :| id >= bound + 1 && id !in ids - {bound};
      assert id !in ids;
    }
  }

  /** A least loaded server that finds an address can take the VM. */
  lemma MoveTo(db: Db, vm: VmId, target: ServerId) returns (r: Replacement, next: Db)
    requires vm in db.vms && db.vms[vm].server !in Eligible(db) && IsLeastLoaded(db, target)
    requires |WorkOn(db, target)| < Limit(db, target)
    ensures r.Moved? && ReplaceEnds(db, vm, r, next) && r.target == target
  {
    hide NextIp, Limit, WorkOn;
    FindsExactly(db, target);
    FreshIdExists(db.vms.Keys, 0);
    var id :| id !in db.vms;
    var ip := NextIp(LiveIps(db, target), db.servers[target].range).ip;
    r, next := Moved(id, target, ip), Replaced(db, vm, id, target, ip);
    LeastLoadedKept(db, vm, target);
    LiveIpsDeleted(db, vm, target);
  }

  /** A least loaded server that is full fails the VM. */
  lemma FailAt(db: Db, vm: VmId, target: ServerId) returns (r: Replacement, next: Db)
    requires vm in db.vms && db.vms[vm].server !in Eligible(db) && IsLeastLoaded(db, target)
    requires Tidy(db) && |WorkOn(db, target)| >= Limit(db, target)
    ensures r.NoAddress? && ReplaceEnds(db, vm, r, next)
  {
    hide NextIp, Limit, WorkOn, Tidy;
    FindsExactly(db, target);
    r, next := NoAddress(target), SoftDeleted(db, vm);
    LeastLoadedKept(db, vm, target);
    LiveIpsDeleted(db, vm, target);
  }

  lemma {:induction false} LeastOf(db: Db, servers: set<ServerId>) returns (least: ServerId)
    requires servers != {}
    ensures least in servers && forall s :: s in servers ==> |WorkOn(db, least)| <= |WorkOn(db, s)|
    decreases servers
  {
    hide WorkOn;
    least :| least in servers;
    if servers != {least} {
      var other := LeastOf(db, servers - {least});
      if |WorkOn(db, other)| < |WorkOn(db, least)| { least := other; }
    }
  }

  /** Some outcome is always possible. */
  lemma ReplaceSomehow(db: Db, vm: VmId) returns (r: Replacement, next: Db)
    requires vm in db.vms && db.vms[vm].server !in Eligible(db)
    ensures ReplaceEnds(db, vm, r, next)
  {
    hide NextIp, WorkOn;
    if Eligible(db) == {} {
      r, next := NoServer, SoftDeleted(db, vm);
    } else {
      var target := LeastOf(db, Eligible(db));
      LeastLoadedKept(db, vm, target);
      FreshIdExists(db.vms.Keys, 0);
      var id :| id !in db.vms;
      var found := NextIp(LiveIps(SoftDeleted(db, vm), target), db.servers[target].range);
      if found.Free? {
        r, next := Moved(id, target, found.ip), Replaced(db, vm, id, target, found.ip);
      } else {
        r, next := NoAddress(target), SoftDeleted(db, vm);
      }
    }
  }

  /** While there is room up to the brim, some choice of the target succeeds. */
  lemma GoodChoice(db: Db, vm: VmId, level: int) returns (r: Replacement, next: Db)
    requires vm in db.vms && db.vms[vm].server !in Eligible(db)
    requires IsLevel(db, level) && Room(db, Brim(db, level)) > 0
    ensures r.Moved? && ReplaceEnds(db, vm, r, next)
  {
    hide Limit, WorkOn, Room, ReplaceEnds;
    var low := RoomLeft(db, Brim(db, level));
    var least := LeastOf(db, Eligible(db));
    var target := if |WorkOn(db, low)| == |WorkOn(db, least)| then low else least;
    r, next := MoveTo(db, vm, target);
  }

  /** Without room below the level, some choice of the target fails. */
  lemma BadChoice(db: Db, vm: VmId, level: int) returns (r: Replacement, next: Db)
    requires vm in db.vms && db.vms[vm].server !in Eligible(db)
    requires Tidy(db) && IsTrap(db, level) && Room(db, Flat(db, level)) == 0
    ensures !r.Moved? && ReplaceEnds(db, vm, r, next)
  {
    hide Limit, WorkOn, Room, Tidy;
    if Eligible(db) == {} {
      r, next := NoServer, SoftDeleted(db, vm);
    } else {
      var s :| s in Eligible(db) && Limit(db, s) <= level;
      FreeOnCount(db, s);
      forall e | e in Eligible(db)
        ensures |WorkOn(db, e)| >= level
      {
        RoomWithout(db, Flat(db, level), e);
      }
      r, next := FailAt(db, vm, s);
    }
  }

  /** While there is room below the level, every move takes a unit of it. */
  lemma LowMove(db: Db, vm: VmId, level: int) returns (r: Replacement, next: Db)
    requires vm in db.vms && db.vms[vm].server !in Eligible(db)
    requires IsLevel(db, level) && Room(db, Flat(db, level)) > 0
    ensures r.Moved? && ReplaceEnds(db, vm, r, next)
    ensures Room(next, Flat(next, level)) + 1 == Room(db, Flat(db, level))
  {
    hide Limit, WorkOn, Room, ReplaceEnds;
    var low := RoomLeft(db, Flat(db, level));
    var least := LeastOf(db, Eligible(db));
    r, next := MoveTo(db, vm, least);
    LowTarget(db, vm, r, next, level);
  }

  /** If there is enough room up to the brim, some run replaces all. */
  lemma {:induction false} CanCarry(db: Db, d: ServerId, todo: set<VmId>, level: int) returns (end: Db)
    requires todo <= WorkOn(db, d) && d !in Eligible(db) && Tidy(db) && IsLevel(db, level) && IsTrap(db, level)
    requires |todo| <= Room(db, Brim(db, level))
    ensures Carried(db, todo, end, true)
    decreases todo
  {
    hide ReplaceEnds, Replacing, Room, Brim, Tidy, IsTrap, IsLevel;
    if todo == {} {
      end := db;
    } else {
      var vm :| vm in todo;
      var r, next := GoodChoice(db, vm, level);
      StillOutside(db, d, todo, vm, r, next);
      BrimMove(db, vm, r, next, level);
      end := CanCarry(next, d, todo - {vm}, level);
      Joined(db, todo, vm, r, next, end, true);
    }
  }

  /** If there is more work than room below the level, some run fails. */
  lemma {:induction false} CanFail(db: Db, d: ServerId, todo: set<VmId>, level: int) returns (end: Db)
    requires todo <= WorkOn(db, d) && d !in Eligible(db) && Tidy(db) && IsLevel(db, level) && IsTrap(db, level)
    requires |todo| > Room(db, Flat(db, level))
    ensures Carried(db, todo, end, false)
    decreases todo
  {
    hide ReplaceEnds, Replacing, Room, Flat, Tidy, IsTrap, IsLevel;
    var vm :| vm in todo;
    if Room(db, Flat(db, level)) == 0 {
      var r;
      r, end := BadChoice(db, vm, level);
      Joined(db, todo, vm, r, end, end, false);
    } else {
      var r, next := LowMove(db, vm, level);
      StillOutside(db, d, todo, vm, r, next);
      BrimMove(db, vm, r, next, level);
      end := CanFail(next, d, todo - {vm}, level);
      Joined(db, todo, vm, r, next, end, false);
    }
  }

  lemma {:induction false} CarrySomehow(db: Db, d: ServerId, todo: set<VmId>) returns (end: Db, ok: bool)
    requires todo <= WorkOn(db, d) && d !in Eligible(db)
    ensures Carried(db, todo, end, ok)
    decreases todo
  {
    hide ReplaceEnds, Replacing;
    if todo == {} {
      end, ok := db, true;
    } else {
      var vm :| vm in todo;
      var r, next := ReplaceSomehow(db, vm);
      StillOutside(db, d, todo, vm, r, next);
      if r.Moved? {
        end, ok := CarrySomehow(next, d, todo - {vm});
      } else {
        end, ok := next, false;
      }
      Joined(db, todo, vm, r, next, end, ok);
    }
  }

  // ---------------------------------------------------------------------
  // Runs, from either end
  // ---------------------------------------------------------------------

  lemma FirstServer(db: Db, dead: seq<ServerId>, end: Db, failures: nat) returns (next: Db, ok: bool)
    requires dead != [] && Run(db, dead, end, failures)
    ensures ServerRun(db, dead[0], next, ok) && (ok || failures > 0)
    ensures Run(next, dead[1..], end, if ok then failures else failures - 1)
  {
    hide ServerRun;
    next, ok :|
      && ServerRun(db, dead[0], next, ok)
      && (ok || failures > 0)
      && Run(next, dead[1..], end, if ok then failures else failures - 1);
  }

  lemma Entered(db: Db, dead: seq<ServerId>, next: Db, ok: bool, end: Db, failures: nat)
    requires dead != [] && ServerRun(db, dead[0], next, ok) && Run(next, dead[1..], end, failures)
    ensures Run(db, dead, end, if ok then failures else failures + 1)
  {
    hide ServerRun;
    var f: nat := if ok then failures else failures + 1;
    assert Run(next, dead[1..], end, if ok then f else f - 1);
  }

  /** Carrying over `todo` from here ends a run that began with all of the server's VMs. */
  ghost predicate Leads(start: Db, work: set<VmId>, db: Db, todo: set<VmId>) {
    forall end, ok :: Carried(db, todo, end, ok) ==> Carried(start, work, end, ok)
  }

  lemma LeadsStart(db: Db, work: set<VmId>)
    ensures Leads(db, work, db, work)
  {
  }

  lemma LeadsOn(start: Db, work: set<VmId>, db: Db, todo: set<VmId>, vm: VmId, r: Replacement, next: Db)
    requires Leads(start, work, db, todo) && vm in todo && vm in db.vms && ReplaceEnds(db, vm, r, next)
    ensures if r.Moved? then Leads(start, work, next, todo - {vm}) else Carried(start, work, next, false)
  {
    hide ReplaceEnds, Carried;
    if r.Moved? {
      forall end, ok | Carried(next, todo - {vm}, end, ok)
        ensures Carried(start, work, end, ok)
      {
        Joined(db, todo, vm, r, next, end, ok);
      }
    } else {
      Joined(db, todo, vm, r, next, next, false);
    }
  }

  lemma LeadsEnd(start: Db, work: set<VmId>, db: Db)
    requires Leads(start, work, db, {})
    ensures Carried(start, work, db, true)
  {
    assert Carried(db, {}, db, true);
  }

  /** Going through the rest of the list from here ends a run of the whole list. */
  ghost predicate RunLeads(start: Db, dead: seq<ServerId>, db: Db, rest: seq<ServerId>, failed: nat) {
    forall end, failures: nat :: Run(db, rest, end, failures) ==> Run(start, dead, end, failures + failed)
  }

  lemma RunLeadsStart(db: Db, dead: seq<ServerId>)
    ensures RunLeads(db, dead, db, dead, 0)
  {
  }

  lemma RunLeadsOn(start: Db, dead: seq<ServerId>, db: Db, rest: seq<ServerId>, failed: nat, next: Db, ok: bool)
    requires RunLeads(start, dead, db, rest, failed) && rest != [] && ServerRun(db, rest[0], next, ok)
    ensures RunLeads(start, dead, next, rest[1..], if ok then failed else failed + 1)
  {
    hide Run, ServerRun;
    forall end, failures: nat | Run(next, rest[1..], end, failures)
      ensures Run(start, dead, end, failures + if ok then failed else failed + 1)
    {
      Entered(db, rest, next, ok, end, failures);
    }
  }

  lemma RunLeadsEnd(start: Db, dead: seq<ServerId>, db: Db, failed: nat)
    requires RunLeads(start, dead, db, [], failed)
    ensures Run(start, dead, db, failed)
  {
    assert Run(db, [], db, 0);
  }
}
