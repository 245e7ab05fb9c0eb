/** How a failover ends, told from the tables before it: which outcomes are possible
    and which are certain, over every run. */
module FailoverOutcome {
  import opened IpAllocator
  import opened Failover
  import opened FailoverRoom
  import opened FailoverRuns
  import Plan = AddressPlan

  // ---------------------------------------------------------------------
  // One server of the list
  // ---------------------------------------------------------------------

  /** The work of the servers still to come. */
  function Due(db: Db, dead: seq<ServerId>): set<VmId> {
    ListedWork(db, SetOf(dead))
  }

  /** No listed server can be a target. */
  predicate Apart(db: Db, dead: seq<ServerId>) {
    SetOf(dead) !! Eligible(db)
  }

  lemma DueSplits(db: Db, dead: seq<ServerId>)
    requires dead != [] && Apart(db, dead)
    ensures WorkOn(db, dead[0]) <= Due(db, dead) && dead[0] !in Eligible(db)
  {
    assert dead[0] in SetOf(dead);
  }

  /** After a server without failure its work is done and the rest is as it was. */
  lemma ServerDone(db: Db, dead: seq<ServerId>, next: Db)
    requires dead != [] && Apart(db, dead) && ServerRun(db, dead[0], next, true)
    ensures Kept(db, next) && Apart(next, dead[1..])
    ensures Due(next, dead[1..]) == Due(db, dead) - WorkOn(db, dead[0])
    ensures |Due(next, dead[1..])| + |WorkOn(db, dead[0])| == |Due(db, dead)|
  {
    hide Carried, Kept;
    DueSplits(db, dead);
    var d := dead[0];
    var marked := MarkedDead(db, d);
    KeptMark(db, d);
    EligibleKept(db, marked);
    CarriedKeeps(marked, d, WorkOn(db, d), next, true);
    EligibleKept(marked, next);
    KeptTrans(db, marked, next);
    assert SetOf(dead) == SetOf(dead[1..]) + {d};
    DueLeft(db, next, dead);
    Subtracted(Due(db, dead), WorkOn(db, d));
  }

  lemma DueLeft(db: Db, next: Db, dead: seq<ServerId>)
    requires dead != [] && SetOf(dead) == SetOf(dead[1..]) + {dead[0]}
    requires WorkOn(next, dead[0]) == {}
    requires forall s :: s in SetOf(dead) && s != dead[0] ==> WorkOn(next, s) == WorkOn(db, s)
    ensures Due(next, dead[1..]) == Due(db, dead) - WorkOn(db, dead[0])
  {
    hide SetOf;
    forall vm | vm in Due(next, dead[1..])
      ensures vm in Due(db, dead) - WorkOn(db, dead[0])
    {
      var s := next.vms[vm].server;
      assert vm in WorkOn(next, s);
      assert vm in WorkOn(db, s);
    }
    forall vm | vm in Due(db, dead) - WorkOn(db, dead[0])
      ensures vm in Due(next, dead[1..])
    {
      var s := db.vms[vm].server;
      assert vm in WorkOn(db, s);
      assert vm in WorkOn(next, s);
    }
  }

  lemma EligibleKept(db: Db, next: Db)
    requires Kept(db, next)
    ensures Eligible(next) == Eligible(db)
  {
  }

  lemma KeptTrans(a: Db, b: Db, c: Db)
    requires Kept(a, b) && Kept(b, c)
    ensures Kept(a, c)
  {
    hide Tidy, TerminalOn;
  }

  /** Marking a server that is not eligible changes no load and no bound. */
  lemma MarkBounds(db: Db, d: ServerId, level: int)
    requires d !in Eligible(db)
    ensures var m := MarkedDead(db, d);
            && d !in Eligible(m) && WorkOn(m, d) == WorkOn(db, d)
            && (Tidy(db) ==> Tidy(m))
            && IsLevel(m, level) == IsLevel(db, level) && IsTrap(m, level) == IsTrap(db, level)
            && Room(m, Flat(m, level)) == Room(db, Flat(db, level))
            && Room(m, Brim(m, level)) == Room(db, Brim(db, level))
  {
    hide Tidy, IsLevel, IsTrap, WorkOn, TerminalOn, Room;
    KeptMark(db, d);
    BoundsKept(db, MarkedDead(db, d), level);
    RoomSame(db, MarkedDead(db, d), Flat(db, level));
    RoomSame(db, MarkedDead(db, d), Brim(db, level));
  }

  // ---------------------------------------------------------------------
  // What holds of every run
  // ---------------------------------------------------------------------

  /** The work fits below a level at which no eligible server is full. */
  ghost predicate Fits(db: Db, dead: seq<ServerId>, level: int) {
    IsLevel(db, level) && |Due(db, dead)| <= Room(db, Flat(db, level))
  }

  /** Then no run fails anywhere. */
  lemma {:induction false} LossImpossible(db: Db, dead: seq<ServerId>, end: Db, failures: nat, level: int)
    requires Run(db, dead, end, failures) && Apart(db, dead) && Fits(db, dead, level)
    ensures failures == 0
    decreases |dead|
  {
    hide Room, Due, Flat, IsLevel, Kept, Apart, Carried, WorkOn;
    if dead != [] {
      var next, ok := FirstServer(db, dead, end, failures);
      DueSplits(db, dead);
      MarkBounds(db, dead[0], level);
      SubsetSize(WorkOn(db, dead[0]), Due(db, dead));
      CarriedOver(MarkedDead(db, dead[0]), dead[0], WorkOn(db, dead[0]), next, ok, level);
      ServerDone(db, dead, next);
      CarriedFlat(MarkedDead(db, dead[0]), dead[0], WorkOn(db, dead[0]), next, level);
      LossImpossible(next, dead[1..], end, failures, level);
    }
  }

  /** A run without failure has used a free address for every VM. */
  lemma {:induction false} LosslessNeedsSlots(db: Db, dead: seq<ServerId>, end: Db)
    requires Run(db, dead, end, 0) && Apart(db, dead)
    ensures Eligible(db) <= db.servers.Keys && |Due(db, dead)| <= |FreeSlots(db, Eligible(db))|
    decreases |dead|
  {
    hide Due, Apart, Carried, FreeSlots, WorkOn;
    if dead == [] {
      assert Due(db, dead) == {} by { NothingDue(db); }
    } else {
      var next, ok := FirstServer(db, dead, end, 0);
      DueSplits(db, dead);
      ServerDone(db, dead, next);
      var m := MarkedDead(db, dead[0]);
      KeptMark(db, dead[0]);
      SlotsKept(db, m);
      CarriedSlots(m, dead[0], WorkOn(db, dead[0]), next);
      LosslessNeedsSlots(next, dead[1..], end);
    }
  }

  lemma NothingDue(db: Db)
    ensures Due(db, []) == {}
  {
  }

  lemma SlotsKept(db: Db, next: Db)
    requires Kept(db, next) && forall s :: LiveIps(next, s) == LiveIps(db, s)
    ensures Eligible(db) <= db.servers.Keys && Eligible(db) <= next.servers.Keys
    ensures FreeSlots(next, Eligible(db)) == FreeSlots(db, Eligible(db))
  {
    hide Tidy, TerminalOn, LiveIps, AllCandidates;
    assert Eligible(db) <= next.servers.Keys by { assert forall s :: s in Eligible(next) ==> s in next.servers; }
  }

  /** Where some eligible server is full at a level, a run without failure fits up to one above it. */
  lemma {:induction false} LosslessNeedsRoom(db: Db, dead: seq<ServerId>, end: Db, level: int)
    requires Run(db, dead, end, 0) && Apart(db, dead) && Tidy(db) && IsTrap(db, level)
    ensures |Due(db, dead)| <= Room(db, Brim(db, level))
    decreases |dead|
  {
    hide Room, Due, Brim, IsLevel, IsTrap, Tidy, Kept, Apart, Carried, WorkOn;
    if dead == [] {
      assert Due(db, dead) == {} by { NothingDue(db); }
    } else {
      var next, ok := FirstServer(db, dead, end, 0);
      DueSplits(db, dead);
      MarkBounds(db, dead[0], level);
      CarriedBrim(MarkedDead(db, dead[0]), dead[0], WorkOn(db, dead[0]), next, level);
      ServerDone(db, dead, next);
      LosslessNeedsRoom(next, dead[1..], end, level);
    }
  }

  // ---------------------------------------------------------------------
  // The outcome, exactly
  // ---------------------------------------------------------------------

  lemma {:induction false} RunSomehow(db: Db, dead: seq<ServerId>) returns (end: Db, failures: nat)
    requires Apart(db, dead)
    ensures Run(db, dead, end, failures)
    decreases |dead|
  {
    hide Carried, WorkOn;
    if dead == [] {
      end, failures := db, 0;
    } else {
      DueSplits(db, dead);
      KeptMark(db, dead[0]);
      var next, ok := CarrySomehow(MarkedDead(db, dead[0]), dead[0], WorkOn(db, dead[0]));
      StaysApart(db, dead, next, ok);
      end, failures := RunSomehow(next, dead[1..]);
      Entered(db, dead, next, ok, end, failures);
      if !ok { failures := failures + 1; }
    }
  }

  lemma StaysApart(db: Db, dead: seq<ServerId>, next: Db, ok: bool)
    requires dead != [] && Apart(db, dead) && ServerRun(db, dead[0], next, ok)
    ensures Apart(next, dead[1..])
  {
    hide Carried, WorkOn;
    DueSplits(db, dead);
    KeptMark(db, dead[0]);
    CarriedEligible(MarkedDead(db, dead[0]), WorkOn(db, dead[0]), next, ok);
    assert SetOf(dead[1..]) <= SetOf(dead);
  }

  lemma {:induction false} CarriedEligible(db: Db, todo: set<VmId>, end: Db, ok: bool)
    requires Carried(db, todo, end, ok)
    ensures Eligible(end) == Eligible(db)
    decreases todo
  {
    hide NextIp, LiveIps, IsLeastLoaded;
    if todo != {} {
      var vm, r, next := Opened(db, todo, end, ok);
      assert Eligible(next) == Eligible(db);
      if r.Moved? { CarriedEligible(next, todo - {vm}, end, ok); }
    }
  }

  /** With room up to the brim for all of it, some run loses nothing. */
  lemma {:induction false} CanSucceed(db: Db, dead: seq<ServerId>, level: int) returns (end: Db)
    requires Apart(db, dead) && Tidy(db) && IsLevel(db, level) && IsTrap(db, level)
    requires |Due(db, dead)| <= Room(db, Brim(db, level))
    ensures Run(db, dead, end, 0)
    decreases |dead|
  {
    hide Room, Due, Brim, IsLevel, IsTrap, Tidy, Apart, Carried, WorkOn;
    if dead == [] {
      end := db;
    } else {
      DueSplits(db, dead);
      MarkBounds(db, dead[0], level);
      SubsetSize(WorkOn(db, dead[0]), Due(db, dead));
      var next := CanCarry(MarkedDead(db, dead[0]), dead[0], WorkOn(db, dead[0]), level);
      CarriedBrim(MarkedDead(db, dead[0]), dead[0], WorkOn(db, dead[0]), next, level);
      ServerDone(db, dead, next);
      end := CanSucceed(next, dead[1..], level);
      Entered(db, dead, next, true, end, 0);
    }
  }

  /** With more work than room below the level, some run loses something. */
  lemma {:induction false} CanLose(db: Db, dead: seq<ServerId>, level: int) returns (end: Db, failures: nat)
    requires Apart(db, dead) && Tidy(db) && IsLevel(db, level) && IsTrap(db, level)
    requires |Due(db, dead)| > Room(db, Flat(db, level))
    ensures Run(db, dead, end, failures) && failures > 0
    decreases |dead|
  {
    hide Room, Due, Flat, Brim, IsLevel, IsTrap, Tidy, Apart, Carried, WorkOn;
    if dead == [] {
      NothingDue(db);
      assert false;
    } else {
      DueSplits(db, dead);
      MarkBounds(db, dead[0], level);
      var m, work := MarkedDead(db, dead[0]), WorkOn(db, dead[0]);
      if |work| > Room(db, Flat(db, level)) {
        var next := CanFail(m, dead[0], work, level);
        StaysApart(db, dead, next, false);
        end, failures := RunSomehow(next, dead[1..]);
        Entered(db, dead, next, false, end, failures);
        failures := failures + 1;
      } else {
        var next, ok := CarrySomehow(m, dead[0], work);
        CarriedOver(m, dead[0], work, next, ok, level);
        CarriedBrim(m, dead[0], work, next, level);
        CarriedLow(m, dead[0], work, next, level);
        ServerDone(db, dead, next);
        end, failures := CanLose(next, dead[1..], level);
        Entered(db, dead, next, true, end, failures);
      }
    }
  }

  /** Every tidy state has one level that decides: the work can be kept exactly if
      it fits up to the brim, and is kept by every run exactly if it fits below the level. */
  lemma OutcomeExactly(db: Db, dead: seq<ServerId>, level: int)
    requires Apart(db, dead) && Tidy(db) && IsLevel(db, level) && IsTrap(db, level)
    ensures (exists end :: Run(db, dead, end, 0)) <==> |Due(db, dead)| <= Room(db, Brim(db, level))
    ensures (forall end, failures: nat :: Run(db, dead, end, failures) ==> failures == 0)
            <==> |Due(db, dead)| <= Room(db, Flat(db, level))
    ensures Room(db, Flat(db, level)) <= Room(db, Brim(db, level)) <= Room(db, Flat(db, level)) + |Eligible(db)|
  {
    hide Room, Run, Due, Tidy, Apart, IsTrap;
    if |Due(db, dead)| <= Room(db, Brim(db, level)) {
      var end := CanSucceed(db, dead, level);
    }
    if end :| Run(db, dead, end, 0) {
      LosslessNeedsRoom(db, dead, end, level);
    }
    if |Due(db, dead)| > Room(db, Flat(db, level)) {
      var end, failures := CanLose(db, dead, level);
    }
    forall end, failures: nat | Run(db, dead, end, failures) && |Due(db, dead)| <= Room(db, Flat(db, level))
      ensures failures == 0
    {
      LossImpossible(db, dead, end, failures, level);
    }
    BrimOverFlat(db, level);
  }

  lemma BrimOverFlat(db: Db, level: int)
    requires IsLevel(db, level)
    ensures Room(db, Flat(db, level)) <= Room(db, Brim(db, level)) <= Room(db, Flat(db, level)) + |Eligible(db)|
  {
    hide Room, Limit;
    assert Flat(db, level).Keys == Eligible(db) == Brim(db, level).Keys;
    BrimAboveFlat(db, Flat(db, level), Brim(db, level));
  }

  // ---------------------------------------------------------------------
  // What the tables before the failover say about its outcome
  // ---------------------------------------------------------------------

  /** Nothing is lost if the work fits below some level at which no eligible server
      is full. If nothing is lost, the work fits into the free addresses and up to the
      brim of every level at which some eligible server is full. Where the eligible
      servers have a common level, nothing is lost exactly if the free addresses cover it. */
  ghost predicate Predicted(before: Db, dead: seq<ServerId>, lossless: bool) {
    Apart(before, dead) ==>
      && Eligible(before) <= before.servers.Keys
      && (forall level: int :: Fits(before, dead, level) ==> lossless)
      && (lossless ==> |Due(before, dead)| <= |FreeSlots(before, Eligible(before))|)
      && (forall level: int :: lossless && Tidy(before) && IsTrap(before, level) ==>
            |Due(before, dead)| <= Room(before, Brim(before, level)))
      && forall level: int :: IsCommonLevel(before, level) && Tidy(before) ==>
           (lossless <==> |Due(before, dead)| <= |FreeSlots(before, Eligible(before))|)
  }

  lemma Foretold(before: Db, dead: seq<ServerId>, end: Db, failures: nat)
    requires Run(before, dead, end, failures)
    ensures Predicted(before, dead, failures == 0)
  {
    hide Run, Due, Apart, Tidy, Room, FreeSlots, IsTrap, IsCommonLevel, Fits;
    if Apart(before, dead) {
      if failures == 0 {
        LosslessNeedsSlots(before, dead, end);
      }
      forall level: int | Fits(before, dead, level)
        ensures failures == 0
      {
        LossImpossible(before, dead, end, failures, level);
      }
      forall level: int | failures == 0 && Tidy(before) && IsTrap(before, level)
        ensures |Due(before, dead)| <= Room(before, Brim(before, level))
      {
        LosslessNeedsRoom(before, dead, end, level);
      }
      forall level: int | IsCommonLevel(before, level) && Tidy(before)
        ensures |Due(before, dead)| <= |FreeSlots(before, Eligible(before))| ==> failures == 0
      {
        FreeCount(before, level);
        CommonFits(before, dead, level);
      }
    }
  }

  lemma CommonFits(db: Db, dead: seq<ServerId>, level: int)
    requires IsCommonLevel(db, level)
    ensures |Due(db, dead)| <= Room(db, Flat(db, level)) ==> Fits(db, dead, level)
  {
    hide Limit, Due, Room;
  }

  // ---------------------------------------------------------------------
  // The choice among equally loaded servers
  // ---------------------------------------------------------------------

  /** Two idle servers, with one and with three addresses, and three VMs on a dead one. */
  function TwoIdle(): Db {
    var lost := Vm(3, Running, Spec(1, 1, 0, None, None), 100, false);
    Db(map[1 := Server(Active, true, Range(8, 30)),
           2 := Server(Active, true, Range(16, 29)),
           3 := Server(Active, false, Range(96, 29))],
       map[1 := lost, 2 := lost.(ip := 102), 3 := lost.(ip := 104)],
       map[])
  }

  lemma IdleFacts(db: Db)
    requires db == TwoIdle()
    ensures Eligible(db) == {1, 2} && WorkOn(db, 1) == {} == WorkOn(db, 2)
    ensures LiveOn(db, 1) == {} == LiveOn(db, 2) && Due(db, [3]) == {1, 2, 3}
    ensures db.servers.Keys == {1, 2, 3} && db.servers[1].range == Range(8, 30) && db.servers[2].range == Range(16, 29)
  {
  }

  lemma IdleLimits(db: Db)
    requires db == TwoIdle()
    ensures db.servers.Keys == {1, 2, 3} && Limit(db, 1) == 1 && Limit(db, 2) == 3
  {
    IdleFacts(db);
    hide TwoIdle, WorkOn, LiveOn, Due, Eligible;
    assert Pow2(1) == 2 && Pow2(2) == 4;
  }

  lemma LevelOfTwo(db: Db)
    requires Eligible(db) == {1, 2} && {1, 2} <= db.servers.Keys && Limit(db, 1) == 1 && Limit(db, 2) == 3
    ensures IsLevel(db, 1) && IsTrap(db, 1)
  {
    hide Limit, Eligible;
    assert 1 in Eligible(db);
  }

  lemma CapsOfTwo(db: Db)
    requires Eligible(db) == {1, 2} && {1, 2} <= db.servers.Keys && Limit(db, 1) == 1 && Limit(db, 2) == 3
    ensures Flat(db, 1) == map[1 := 1, 2 := 1] && Brim(db, 1) == map[1 := 1, 2 := 2]
  {
    hide Limit, Eligible;
    var low: map<ServerId, int> := map[1 := 1, 2 := 1];
    var high: map<ServerId, int> := map[1 := 1, 2 := 2];
    assert forall s :: s in Eligible(db) <==> s == 1 || s == 2;
    assert Flat(db, 1).Keys == low.Keys && Brim(db, 1).Keys == high.Keys;
  }

  lemma IdleIsTidy(db: Db)
    requires db == TwoIdle()
    ensures Tidy(db)
  {
    IdleFacts(db);
    hide AllCandidates, Usable;
  }

  lemma RoomOfTwo(db: Db, one: int, two: int)
    requires WorkOn(db, 1) == {} == WorkOn(db, 2) && one >= 0 && two >= 0
    ensures Room(db, map[1 := one, 2 := two]) == one + two
  {
    hide WorkOn;
    var caps: map<ServerId, int> := map[1 := one, 2 := two];
    RoomWithout(db, caps, 1);
    assert caps - {1} == map[2 := two];
    RoomWithout(db, caps - {1}, 2);
    assert caps - {1} - {2} == map[];
  }

  lemma ThreeIsApart(db: Db)
    requires Eligible(db) == {1, 2}
    ensures Apart(db, [3])
  {
    hide Eligible;
  }

  /** Between the two bounds the choice decides: from these tables one run replaces every VM and another loses one. */
  lemma ChoiceDecides()
    ensures var db := TwoIdle();
            && (exists end :: Run(db, [3], end, 0))
            && exists end, failures: nat :: Run(db, [3], end, failures) && failures > 0
  {
    hide Run, Tidy, Apart, IsLevel, IsTrap, Room, Due, Brim, Flat;
    var db := TwoIdle();
    IdleFacts(db);
    IdleLimits(db);
    IdleIsTidy(db);
    hide TwoIdle, Limit, Eligible, WorkOn, LiveOn;
    LevelOfTwo(db);
    CapsOfTwo(db);
    assert Apart(db, [3]) by { ThreeIsApart(db); }
    RoomOfTwo(db, 1, 1);
    RoomOfTwo(db, 1, 2);
    OutcomeExactly(db, [3], 1);
  }

  // ---------------------------------------------------------------------
  // Every reachable address plan is tidy
  // ---------------------------------------------------------------------

  /** The failover's tables show servers and live VMs of an address plan. */
  ghost predicate Shows(db: Db, s: Plan.State) {
    && (forall x :: x in db.servers ==> x in s.servers && s.servers[x] == db.servers[x].range)
    && forall id :: id in db.vms && !db.vms[id].deleted ==>
         id in s.vms && s.vms[id] == Plan.Vm(db.vms[id].server, db.vms[id].ip, false)
  }

  /** So what is said about tidy tables is said about every reachable state. */
  lemma PlanIsTidy(r: Plan.Run, n: nat, db: Db)
    requires Plan.IsRun(r) && n < |r.states| && Shows(db, r.states[n])
    ensures Tidy(db)
  {
    var s := r.states[n];
    hide Plan.IsRun, Candidate, AllCandidates;
    Plan.RunInv(r, n);
    forall id | id in db.vms && !db.vms[id].deleted && db.vms[id].server in Eligible(db)
      ensures db.vms[id].ip in AllCandidates(db.servers[db.vms[id].server].range)
    {
      Plan.LiveVmPlaced(r, n, id);
      Plan.RangeHasMask(s, db.vms[id].server);
      UsableCount(db.servers[db.vms[id].server].range);
    }
  }
}
