/** How much work the eligible servers can take over, read off one state of the tables. */
module FailoverRoom {
  import opened IpAllocator
  import opened Failover

  /** Addresses a range can give to VMs; none when the query fails or is empty. */
  function Usable(r: Range): nat {
    if 2 <= r.masklen <= 31 then Capacity(r.masklen) else 0
  }

  /** All addresses of a range that VMs may have. */
  function AllCandidates(r: Range): set<Address> {
    set j | 0 <= j < Usable(r) :: r.base + 2 * j + 1
  }

  function LiveOn(db: Db, server: ServerId): set<VmId> {
    set id | id in db.vms && !db.vms[id].deleted && db.vms[id].server == server
  }

  /** Live VMs that do not count as load but keep their addresses. */
  function TerminalOn(db: Db, server: ServerId): set<VmId> {
    LiveOn(db, server) - WorkOn(db, server)
  }

  /** How many working VMs a server has addresses for. */
  function Limit(db: Db, s: ServerId): int
    requires s in db.servers
  {
    Usable(db.servers[s].range) - |TerminalOn(db, s)|
  }

  /** No eligible server is full while it has fewer than `level` working VMs. */
  ghost predicate IsLevel(db: Db, level: int) {
    forall s :: s in Eligible(db) ==> level <= Limit(db, s)
  }

  /** Every eligible server is full at exactly `level` working VMs. */
  ghost predicate IsCommonLevel(db: Db, level: int) {
    forall s :: s in Eligible(db) ==> level == Limit(db, s)
  }

  /** Some eligible server is full at `level` working VMs: once it is least loaded, every lookup ends there. */
  ghost predicate IsTrap(db: Db, level: int) {
    Eligible(db) != {} ==> exists s :: s in Eligible(db) && Limit(db, s) <= level
  }

  /** Live VMs of eligible servers have different addresses that the server may give out. */
  ghost predicate Tidy(db: Db) {
    && (forall id :: id in db.vms && !db.vms[id].deleted && db.vms[id].server in Eligible(db) ==>
          db.vms[id].ip in AllCandidates(db.servers[db.vms[id].server].range))
    && (forall s, v, w :: s in Eligible(db) && v in LiveOn(db, s) && w in LiveOn(db, s) && v != w ==>
          db.vms[v].ip != db.vms[w].ip)
  }

  /** Work server s can take before it has `cap` working VMs. */
  function Below(db: Db, s: ServerId, cap: int): nat {
    if |WorkOn(db, s)| < cap then cap - |WorkOn(db, s)| else 0
  }

  /** Work the servers of `caps` can take before each has as many working VMs as it says. */
  ghost function Room(db: Db, caps: map<ServerId, int>): nat
    decreases caps.Keys
  {
    if caps.Keys == {} then 0
    else
      var s :| s in caps;
      Room(db, caps - {s}) + Below(db, s, caps[s])
  }

  /** The same bound for every eligible server. */
  function Flat(db: Db, level: int): map<ServerId, int> {
    map s | s in Eligible(db) :: level
  }

  /** One VM above the level, for the eligible servers that have an address for it. */
  function Brim(db: Db, level: int): map<ServerId, int> {
    map s | s in Eligible(db) :: if Limit(db, s) <= level then Limit(db, s) else level + 1
  }

  /** A free address of a server. */
  datatype Slot = Slot(server: ServerId, ip: Address)

  function FreeOn(db: Db, s: ServerId): set<Address>
    requires s in db.servers
  {
    AllCandidates(db.servers[s].range) - LiveIps(db, s)
  }

  function FreeSlots(db: Db, servers: set<ServerId>): set<Slot>
    requires servers <= db.servers.Keys
  {
    set s, a | s in servers && a in FreeOn(db, s) :: Slot(s, a)
  }

  // ---------------------------------------------------------------------
  // Room
  // ---------------------------------------------------------------------

  lemma {:induction false} RoomWithout(db: Db, caps: map<ServerId, int>, s: ServerId)
    requires s in caps
    ensures Room(db, caps) == Room(db, caps - {s}) + Below(db, s, caps[s])
    decreases caps.Keys
  {
    hide Below;
    var first :| first in caps && Room(db, caps) == Room(db, caps - {first}) + Below(db, first, caps[first]);
    if first != s {
      RoomWithout(db, caps - {first}, s);
      RoomWithout(db, caps - {s}, first);
      assert caps - {first} - {s} == caps - {s} - {first};
    }
  }

  lemma {:induction false} RoomSame(db: Db, next: Db, caps: map<ServerId, int>)
    requires forall s :: s in caps ==> WorkOn(next, s) == WorkOn(db, s)
    ensures Room(next, caps) == Room(db, caps)
    decreases caps.Keys
  {
    if caps.Keys != {} {
      var s :| s in caps;
      RoomWithout(db, caps, s);
      RoomWithout(next, caps, s);
      RoomSame(db, next, caps - {s});
    }
  }

  /** One more VM on a server takes exactly one unit, if the server was below its bound. */
  lemma RoomAfterMove(db: Db, next: Db, caps: map<ServerId, int>, target: ServerId)
    requires target in caps && |WorkOn(next, target)| == |WorkOn(db, target)| + 1
    requires forall s :: s in caps && s != target ==> WorkOn(next, s) == WorkOn(db, s)
    ensures Room(db, caps) == Room(next, caps) + if |WorkOn(db, target)| < caps[target] then 1 else 0
  {
    RoomWithout(db, caps, target);
    RoomWithout(next, caps, target);
    RoomSame(db, next, caps - {target});
  }

  lemma {:induction false} RoomLeft(db: Db, caps: map<ServerId, int>) returns (low: ServerId)
    requires Room(db, caps) > 0
    ensures low in caps && |WorkOn(db, low)| < caps[low]
    decreases caps.Keys
  {
    var s :| s in caps;
    RoomWithout(db, caps, s);
    if |WorkOn(db, s)| < caps[s] {
      low := s;
    } else {
      low := RoomLeft(db, caps - {s});
    }
  }

  /** Between the two bounds lies at most one VM per server. */
  lemma {:induction false} BrimAboveFlat(db: Db, low: map<ServerId, int>, high: map<ServerId, int>)
    requires low.Keys == high.Keys && forall s :: s in low ==> low[s] <= high[s] <= low[s] + 1
    ensures Room(db, low) <= Room(db, high) <= Room(db, low) + |low.Keys|
    decreases low.Keys
  {
    if low.Keys != {} {
      var s :| s in low;
      RoomWithout(db, low, s);
      RoomWithout(db, high, s);
      assert (low - {s}).Keys == low.Keys - {s};
      BrimAboveFlat(db, low - {s}, high - {s});
    }
  }

  // ---------------------------------------------------------------------
  // When an address is found
  // ---------------------------------------------------------------------

  lemma {:induction false} ImageAtMost(vms: map<VmId, Vm>, ids: set<VmId>, ips: set<Address>)
    requires ids <= vms.Keys && ips == set id | id in ids :: vms[id].ip
    ensures |ips| <= |ids|
    decreases ids
  {
    if ids != {} {
      var id :| id in ids;
      var rest := set i | i in ids - {id} :: vms[i].ip;
      ImageAtMost(vms, ids - {id}, rest);
      assert ips == rest + {vms[id].ip};
      UnionSize(rest, {vms[id].ip});
    }
  }

  lemma FindsBelow(db: Db, s: ServerId, r: Range)
    requires |LiveOn(db, s)| < Usable(r)
    ensures NextIp(LiveIps(db, s), r).Free?
  {
    ImageAtMost(db.vms, LiveOn(db, s), LiveIps(db, s));
    NextIpLeast(LiveIps(db, s), r);
    CandidatesAre(r);
    CandidateCount(r.base, Capacity(r.masklen));
    if !NextIp(LiveIps(db, s), r).Free? {
      SubsetSize(FirstCandidates(r.base, Capacity(r.masklen)), LiveIps(db, s));
    }
  }

  lemma UsableCount(r: Range)
    ensures |AllCandidates(r)| == Usable(r)
    ensures r.masklen >= 2 ==> forall a :: Candidate(a, r) <==> a in AllCandidates(r)
  {
    CandidateCount(r.base, Usable(r));
    assert AllCandidates(r) == FirstCandidates(r.base, Usable(r));
    if 2 <= r.masklen <= 31 { CandidatesAre(r); }
  }

  /** An address that is found is a candidate no live VM of the server holds. */
  lemma FoundIsFree(taken: set<Address>, r: Range)
    requires NextIp(taken, r).Free?
    ensures NextIp(taken, r).ip in AllCandidates(r) - taken
  {
    SizeFits(r.masklen);
    UsableCount(r);
    NextIpLeast(taken, r);
  }

  lemma {:induction false} InjectiveSize<K, V>(m: map<K, V>)
    requires forall a, b :: a in m && b in m && a != b ==> m[a] != m[b]
    ensures |m.Values| == |m.Keys|
    decreases m.Keys
  {
    if m.Keys != {} {
      var k :| k in m;
      var rest := m - {k};
      assert rest.Keys == m.Keys - {k};
      forall v | v in m.Values && v != m[k] ensures v in rest.Values {
        var p :| p in m && m[p] == v;
        assert p in rest && rest[p] == v;
      }
      assert rest.Values == m.Values - {m[k]};
      InjectiveSize(rest);
    }
  }

  lemma LiveCount(db: Db, s: ServerId)
    ensures |LiveOn(db, s)| == |WorkOn(db, s)| + |TerminalOn(db, s)|
  {
    assert LiveOn(db, s) == WorkOn(db, s) + TerminalOn(db, s);
  }

  lemma SameCount(db: Db, s: ServerId)
    requires Tidy(db) && s in Eligible(db)
    ensures |LiveIps(db, s)| == |LiveOn(db, s)|
  {
    var m := map id | id in LiveOn(db, s) :: db.vms[id].ip;
    assert m.Keys == LiveOn(db, s);
    assert m.Values == LiveIps(db, s) by {
      forall a | a in LiveIps(db, s) ensures a in m.Values {
        var id :| id in db.vms && !db.vms[id].deleted && db.vms[id].server == s && db.vms[id].ip == a;
        assert id in m && m[id] == a;
      }
      forall a | a in m.Values ensures a in LiveIps(db, s) {
        var id :| id in m && m[id] == a;
      }
    }
    InjectiveSize(m);
  }

  lemma TakenAreCandidates(db: Db, s: ServerId)
    requires Tidy(db) && s in Eligible(db)
    ensures LiveIps(db, s) <= AllCandidates(db.servers[s].range)
  {
    hide AllCandidates;
  }

  /** A tidy server has as many free addresses as its load is below its limit, and no more load than that. */
  lemma FreeOnCount(db: Db, s: ServerId)
    requires Tidy(db) && s in Eligible(db)
    ensures |FreeOn(db, s)| == Limit(db, s) - |WorkOn(db, s)|
  {
    UsableCount(db.servers[s].range);
    LiveCount(db, s);
    SameCount(db, s);
    TakenAreCandidates(db, s);
    Subtracted(AllCandidates(db.servers[s].range), LiveIps(db, s));
  }

  lemma Subtracted<T>(a: set<T>, b: set<T>)
    requires b <= a
    ensures |a - b| == |a| - |b|
  {
    assert a == (a - b) + b;
  }

  /** Below its limit a server has an address to give; a tidy one has none from there on. */
  lemma FindsExactly(db: Db, s: ServerId)
    requires s in Eligible(db)
    ensures |WorkOn(db, s)| < Limit(db, s) ==> NextIp(LiveIps(db, s), db.servers[s].range).Free?
    ensures Tidy(db) && NextIp(LiveIps(db, s), db.servers[s].range).Free? ==> |WorkOn(db, s)| < Limit(db, s)
  {
    hide Tidy, AllCandidates, Usable;
    LiveCount(db, s);
    if |WorkOn(db, s)| < Limit(db, s) {
      FindsBelow(db, s, db.servers[s].range);
    }
    if Tidy(db) && NextIp(LiveIps(db, s), db.servers[s].range).Free? {
      FoundIsFree(LiveIps(db, s), db.servers[s].range);
      FreeOnCount(db, s);
      assert FreeOn(db, s) != {};
    }
  }

  // ---------------------------------------------------------------------
  // Free addresses, counted
  // ---------------------------------------------------------------------

  function SlotsOf(s: ServerId, ips: set<Address>): set<Slot> {
    set a | a in ips :: Slot(s, a)
  }

  lemma PickOne<T>(xs: set<T>) returns (x: T)
    requires xs != {}
    ensures x in xs
  {
    x :| x in xs;
  }

  lemma {:induction false} SlotCount(s: ServerId, ips: set<Address>)
    ensures |SlotsOf(s, ips)| == |ips|
    decreases ips
  {
    if ips == {} {
      assert SlotsOf(s, ips) == {};
    } else {
      var a := PickOne(ips);
      SlotCount(s, ips - {a});
      assert SlotsOf(s, ips) == SlotsOf(s, ips - {a}) + {Slot(s, a)};
    }
  }

  /** At a common level the room below it is the number of free addresses. */
  lemma FreeCount(db: Db, level: int)
    requires Tidy(db) && IsCommonLevel(db, level)
    ensures Eligible(db) <= db.servers.Keys && |FreeSlots(db, Eligible(db))| == Room(db, Flat(db, level))
  {
    hide Tidy, IsCommonLevel, Room;
    assert Flat(db, level).Keys == Eligible(db);
    FreeCountOf(db, Flat(db, level), level);
  }

  lemma {:induction false} FreeCountOf(db: Db, caps: map<ServerId, int>, level: int)
    requires Tidy(db) && IsCommonLevel(db, level)
    requires caps.Keys <= Eligible(db) && forall s :: s in caps ==> caps[s] == level
    ensures caps.Keys <= db.servers.Keys && |FreeSlots(db, caps.Keys)| == Room(db, caps)
    decreases caps.Keys
  {
    hide Tidy, FreeOn, Limit, FreeSlots;
    assert forall s :: s in caps ==> s in Eligible(db) && s in db.servers;
    if caps.Keys == {} {
      NoSlots(db);
    } else {
      var s :| s in caps;
      var rest := caps - {s};
      FreeCountOf(db, rest, level);
      RoomWithout(db, caps, s);
      FreeOnCount(db, s);
      assert rest.Keys == caps.Keys - {s};
      SlotsOfOneMore(db, caps.Keys, s);
    }
  }

  lemma NoSlots(db: Db)
    ensures FreeSlots(db, {}) == {}
  {
  }

  lemma SlotsOfOneMore(db: Db, servers: set<ServerId>, s: ServerId)
    requires servers <= db.servers.Keys && s in servers
    ensures |FreeSlots(db, servers)| == |FreeSlots(db, servers - {s})| + |FreeOn(db, s)|
  {
    hide FreeOn;
    SlotCount(s, FreeOn(db, s));
    assert FreeSlots(db, servers) == FreeSlots(db, servers - {s}) + SlotsOf(s, FreeOn(db, s));
    assert FreeSlots(db, servers - {s}) !! SlotsOf(s, FreeOn(db, s));
  }

  /** The plain case: ranges of one size, and no stopped or failed VM among the live ones of eligible servers. */
  lemma EqualMasksAreCommon(db: Db, masklen: nat)
    requires 2 <= masklen <= 31
    requires forall s :: s in Eligible(db) ==> db.servers[s].range.masklen == masklen
    requires forall id :: id in db.vms && !db.vms[id].deleted && db.vms[id].server in Eligible(db) ==> Working(db.vms[id])
    ensures IsCommonLevel(db, Capacity(masklen))
  {
    forall s | s in Eligible(db)
      ensures TerminalOn(db, s) == {}
    {
    }
  }

  /** A tidy state has exactly one level at which some eligible server is full and none is full before. */
  lemma LevelExists(db: Db) returns (level: nat)
    requires Tidy(db)
    ensures IsLevel(db, level) && IsTrap(db, level)
    ensures Eligible(db) != {} ==> forall t: int :: IsLevel(db, t) && IsTrap(db, t) ==> t == level
  {
    hide Tidy;
    if Eligible(db) == {} {
      level := 0;
    } else {
      var s := LeastLimit(db, Eligible(db));
      FreeOnCount(db, s);
      level := Limit(db, s);
    }
  }

  lemma {:induction false} LeastLimit(db: Db, servers: set<ServerId>) returns (least: ServerId)
    requires servers != {} && servers <= Eligible(db)
    ensures least in servers && least in db.servers
    ensures forall s :: s in servers ==> s in db.servers && Limit(db, least) <= Limit(db, s)
    decreases servers
  {
    hide Limit;
    least :| least in servers;
    assert forall s :: s in servers ==> s in Eligible(db) && s in db.servers;
    if servers != {least} {
      var other := LeastLimit(db, servers - {least});
      if Limit(db, other) < Limit(db, least) { least := other; }
    }
  }

  // ---------------------------------------------------------------------
  // One statement of a failover
  // ---------------------------------------------------------------------

  /** What the failover of a server that is not eligible leaves alone. */
  ghost predicate Kept(db: Db, next: Db) {
    && Eligible(next) == Eligible(db)
    && (forall s :: s in Eligible(db) ==> next.servers[s].range == db.servers[s].range)
    && (forall s :: s in Eligible(db) ==> TerminalOn(next, s) == TerminalOn(db, s))
    && (Tidy(db) ==> Tidy(next))
  }

  /** So the levels and bounds stay what they are. */
  lemma BoundsKept(db: Db, next: Db, level: int)
    requires Kept(db, next)
    ensures Flat(next, level) == Flat(db, level) && Brim(next, level) == Brim(db, level)
    ensures IsLevel(next, level) == IsLevel(db, level) && IsTrap(next, level) == IsTrap(db, level)
  {
    hide Tidy, TerminalOn, Usable;
    forall s | s in Eligible(db)
      ensures Limit(next, s) == Limit(db, s)
    {
    }
  }

  lemma KeptMark(db: Db, d: ServerId)
    requires d !in Eligible(db)
    ensures Kept(db, MarkedDead(db, d))
    ensures forall s :: WorkOn(MarkedDead(db, d), s) == WorkOn(db, s) && LiveIps(MarkedDead(db, d), s) == LiveIps(db, s)
  {
    hide AllCandidates, Usable;
    var next := MarkedDead(db, d);
    assert forall s :: LiveOn(next, s) == LiveOn(db, s);
  }

  lemma LiveAfterMove(db: Db, vm: VmId, id: VmId, target: ServerId, ip: Address)
    requires vm in db.vms && db.vms[vm].server !in Eligible(db) && id !in db.vms && target in Eligible(db)
    ensures var next := Replaced(db, vm, id, target, ip);
            && LiveOn(next, target) == LiveOn(db, target) + {id}
            && forall s :: s in Eligible(db) && s != target ==> LiveOn(next, s) == LiveOn(db, s)
  {
  }

  lemma WorkMoved(db: Db, vm: VmId, id: VmId, target: ServerId, ip: Address)
    requires vm in db.vms && id !in db.vms
    ensures var next := Replaced(db, vm, id, target, ip);
            && Eligible(next) == Eligible(db)
            && WorkOn(next, target) == WorkOn(db, target) - {vm} + {id}
            && forall s :: s != target ==> WorkOn(next, s) == WorkOn(db, s) - {vm}
  {
  }

  lemma LiveIpsDeleted(db: Db, vm: VmId, s: ServerId)
    requires vm in db.vms && db.vms[vm].server != s
    ensures LiveIps(SoftDeleted(db, vm), s) == LiveIps(db, s)
  {
    forall a | a in LiveIps(db, s)
      ensures a in LiveIps(SoftDeleted(db, vm), s)
    {
      var v :| v in db.vms && !db.vms[v].deleted && db.vms[v].server == s && db.vms[v].ip == a;
      assert v in SoftDeleted(db, vm).vms && SoftDeleted(db, vm).vms[v] == db.vms[v];
    }
  }

  /** A replacement for a VM of a server that is not eligible goes to an address of an eligible one. */
  ghost predicate Replaces(db: Db, vm: VmId, id: VmId, target: ServerId, ip: Address) {
    && vm in db.vms && db.vms[vm].server !in Eligible(db)
    && id !in db.vms && target in Eligible(db)
    && NextIp(LiveIps(db, target), db.servers[target].range) == Free(ip)
  }

  lemma TidyMove(db: Db, vm: VmId, id: VmId, target: ServerId, ip: Address)
    requires Replaces(db, vm, id, target, ip) && Tidy(db)
    ensures Tidy(Replaced(db, vm, id, target, ip))
  {
    hide AllCandidates, NextIp;
    FoundIsFree(LiveIps(db, target), db.servers[target].range);
    LiveAfterMove(db, vm, id, target, ip);
    var next := Replaced(db, vm, id, target, ip);
    forall v | v in LiveOn(db, target)
      ensures next.vms[v].ip != ip
    {
      assert db.vms[v].ip in LiveIps(db, target);
    }
  }

  lemma KeptMove(db: Db, vm: VmId, id: VmId, target: ServerId, ip: Address)
    requires Replaces(db, vm, id, target, ip)
    ensures Kept(db, Replaced(db, vm, id, target, ip))
  {
    hide Tidy, NextIp, LiveOn;
    if Tidy(db) { TidyMove(db, vm, id, target, ip); }
    LiveAfterMove(db, vm, id, target, ip);
    WorkMoved(db, vm, id, target, ip);
    var next := Replaced(db, vm, id, target, ip);
    assert id !in LiveOn(db, target) by { NotLive(db, id, target); }
    forall s | s in Eligible(db)
      ensures TerminalOn(next, s) == TerminalOn(db, s)
    {
      assert vm !in WorkOn(db, s);
    }
  }

  lemma NotLive(db: Db, id: VmId, s: ServerId)
    requires id !in db.vms
    ensures id !in LiveOn(db, s)
  {
  }

  /** Each replacement takes one unit of the room below any bounds, if its server was below its own. */
  lemma RoomMove(db: Db, vm: VmId, id: VmId, target: ServerId, ip: Address, caps: map<ServerId, int>)
    requires Replaces(db, vm, id, target, ip) && caps.Keys == Eligible(db)
    ensures Room(db, caps) == Room(Replaced(db, vm, id, target, ip), caps)
                              + if |WorkOn(db, target)| < caps[target] then 1 else 0
  {
    hide NextIp, Room;
    WorkMoved(db, vm, id, target, ip);
    forall s | s in caps
      ensures WorkOn(db, s) - {vm} == WorkOn(db, s)
    {
    }
    RoomAfterMove(db, Replaced(db, vm, id, target, ip), caps, target);
  }

  /** Each replacement takes exactly its own address out of the free ones. */
  lemma SlotMove(db: Db, vm: VmId, id: VmId, target: ServerId, ip: Address)
    requires Replaces(db, vm, id, target, ip)
    ensures var next := Replaced(db, vm, id, target, ip);
            && Eligible(db) <= db.servers.Keys
            && Slot(target, ip) in FreeSlots(db, Eligible(db))
            && FreeSlots(next, Eligible(db)) == FreeSlots(db, Eligible(db)) - {Slot(target, ip)}
  {
    hide NextIp, AllCandidates;
    FoundIsFree(LiveIps(db, target), db.servers[target].range);
    forall s | s in Eligible(db)
      ensures LiveIps(Replaced(db, vm, id, target, ip), s) == LiveIps(db, s) + if s == target then {ip} else {}
    {
      LiveIpsReplaced(db, vm, id, target, ip, s);
    }
  }

  lemma LiveIpsReplaced(db: Db, vm: VmId, id: VmId, target: ServerId, ip: Address, s: ServerId)
    requires vm in db.vms && id !in db.vms && db.vms[vm].server != s
    ensures LiveIps(Replaced(db, vm, id, target, ip), s) == LiveIps(db, s) + if s == target then {ip} else {}
  {
    var next := Replaced(db, vm, id, target, ip);
    if s == target { assert id in next.vms && !next.vms[id].deleted && next.vms[id].server == s && next.vms[id].ip == ip; }
    forall a | a in LiveIps(db, s)
      ensures a in LiveIps(next, s)
    {
      var v :| v in db.vms && !db.vms[v].deleted && db.vms[v].server == s && db.vms[v].ip == a;
      assert v in next.vms && next.vms[v] == db.vms[v];
    }
    forall a | a in LiveIps(next, s)
      ensures a in LiveIps(db, s) + if s == target then {ip} else {}
    {
      var v :| v in next.vms && !next.vms[v].deleted && next.vms[v].server == s && next.vms[v].ip == a;
      if v != id { assert v in db.vms && db.vms[v] == next.vms[v]; }
    }
  }
}
