/** Failover of dead servers: inside one transaction every listed server is marked
    dead and its VMs are deleted, recreated elsewhere and re-pointed. */
module Failover {
  import opened IpAllocator

  type ServerId = nat
  type VmId = nat
  type DeploymentId = nat

  datatype ServerStatus = Active | Draining | Drained | Dead

  /** `recent`: the last heartbeat is less than 30 seconds before the transaction's now(). */
  datatype Server = Server(status: ServerStatus, recent: bool, range: Range)

  datatype VmStatus = Pending | Starting | Running | Stopping | Stopped | Failed

  /** What a replacement inherits. */
  datatype Spec = Spec(vcpus: int, memory: int, image: nat, port: Option<int>, env: Option<string>)

  datatype Vm = Vm(server: ServerId, status: VmStatus, spec: Spec, ip: Address, deleted: bool)

  datatype Db = Db(
    servers: map<ServerId, Server>,
    vms: map<VmId, Vm>,
    deployments: map<DeploymentId, Option<VmId>>)

  // ---------------------------------------------------------------------
  // Queries
  // ---------------------------------------------------------------------

  predicate Working(vm: Vm) {
    !vm.deleted && !vm.status.Stopped? && !vm.status.Failed?
  }

  /** The live, non-terminal VMs: the work failover has to conserve. */
  function Work(db: Db): set<VmId> {
    set id | id in db.vms && Working(db.vms[id])
  }

  function WorkOn(db: Db, server: ServerId): set<VmId> {
    set id | id in db.vms && Working(db.vms[id]) && db.vms[id].server == server
  }

  function Eligible(db: Db): set<ServerId> {
    set s | s in db.servers && db.servers[s].status.Active? && db.servers[s].recent
  }

  predicate IsLeastLoaded(db: Db, target: ServerId) {
    && target in Eligible(db)
    && forall s :: s in Eligible(db) ==> |WorkOn(db, target)| <= |WorkOn(db, s)|
  }

  function LiveIps(db: Db, server: ServerId): set<Address> {
    set id | id in db.vms && !db.vms[id].deleted && db.vms[id].server == server :: db.vms[id].ip
  }

  // ---------------------------------------------------------------------
  // Statements
  // ---------------------------------------------------------------------

  function MarkedDead(db: Db, server: ServerId): Db {
    if server in db.servers
    then db.(servers := db.servers[server := db.servers[server].(status := Dead)])
    else db
  }

  function SoftDeleted(db: Db, vm: VmId): Db
    requires vm in db.vms
  {
    db.(vms := db.vms[vm := db.vms[vm].(deleted := true)])
  }

  function Repointed(deployments: map<DeploymentId, Option<VmId>>, from: VmId, to: VmId): map<DeploymentId, Option<VmId>> {
    map d | d in deployments :: if deployments[d] == Some(from) then Some(to) else deployments[d]
  }

  /** replaceVM when the target and the address are found. */
  function Replaced(db: Db, vm: VmId, id: VmId, target: ServerId, ip: Address): Db
    requires vm in db.vms
  {
    Db(db.servers,
       SoftDeleted(db, vm).vms[id := Vm(target, Pending, db.vms[vm].spec, ip, false)],
       Repointed(db.deployments, vm, id))
  }

  /** deployments.vm_id is unique. */
  predicate UniquePointers(deployments: map<DeploymentId, Option<VmId>>) {
    forall d, e :: d in deployments && e in deployments && d != e && deployments[d].Some? ==>
      deployments[d] != deployments[e]
  }

  // ---------------------------------------------------------------------
  // The account of a failover
  // ---------------------------------------------------------------------

  predicate Injective(moved: map<VmId, VmId>) {
    forall a, b :: a in moved && b in moved && a != b ==> moved[a] != moved[b]
  }

  /** Deployments point at existing VMs. */
  predicate PointersExist(db: Db) {
    forall d :: d in db.deployments && db.deployments[d].Some? ==> db.deployments[d].value in db.vms
  }

  ghost predicate MovesOk(before: Db, after: Db, moved: map<VmId, VmId>, lost: set<VmId>) {
    && moved.Keys !! lost
    && moved.Keys + lost <= Work(before)
    && Injective(moved)
    && forall o :: o in moved ==>
         && moved[o] !in before.vms
         && moved[o] in after.vms && Working(after.vms[moved[o]])
         && after.vms[moved[o]].spec == before.vms[o].spec
  }

  ghost predicate OldRowsOk(before: Db, after: Db, moved: map<VmId, VmId>, lost: set<VmId>) {
    forall id :: id in before.vms ==>
      && id in after.vms
      && after.vms[id] == if id in moved || id in lost then before.vms[id].(deleted := true) else before.vms[id]
  }

  ghost predicate NewRowsOk(before: Db, after: Db, moved: map<VmId, VmId>) {
    forall id :: id in after.vms && id !in before.vms && !after.vms[id].deleted ==> id in moved.Values
  }

  /** `moved` sends each VM that was replaced to its replacement, `lost` are the
      VMs that were deleted and not replaced; every other one is untouched. */
  ghost predicate RowsAccounted(before: Db, after: Db, moved: map<VmId, VmId>, lost: set<VmId>) {
    MovesOk(before, after, moved, lost) && OldRowsOk(before, after, moved, lost) && NewRowsOk(before, after, moved)
  }

  /** A deployment follows its VM to the replacement; if the VM was lost it is
      left pointing at a deleted one. */
  predicate Follows(after: Db, moved: map<VmId, VmId>, lost: set<VmId>, was: Option<VmId>, now: Option<VmId>) {
    if was.None? then now.None?
    else if was.value in moved then now == Some(moved[was.value])
    else if was.value in lost then now.Some? && now.value in after.vms && after.vms[now.value].deleted
    else now == was
  }

  ghost predicate PointersAccounted(before: Db, after: Db, moved: map<VmId, VmId>, lost: set<VmId>) {
    && after.deployments.Keys == before.deployments.Keys
    && forall d :: d in before.deployments ==>
         Follows(after, moved, lost, before.deployments[d], after.deployments[d])
  }

  /** The VM the work of `vm` started from. */
  ghost function Origin(before: Db, after: Db, moved: map<VmId, VmId>, lost: set<VmId>, vm: VmId): (o: VmId)
    requires RowsAccounted(before, after, moved, lost) && vm in Work(after)
    ensures o in Work(before) && o !in lost
    ensures if vm in before.vms then o == vm && o !in moved else o in moved && moved[o] == vm
    ensures before.vms[o].spec == after.vms[vm].spec
  {
    if vm in before.vms then vm
    else
      assert vm in moved.Values;
      var o :| o in moved && moved[o] == vm; o
  }

  lemma MoveNewRows(before: Db, db: Db, moved: map<VmId, VmId>, lost: set<VmId>, vm: VmId, id: VmId, target: ServerId, ip: Address)
    requires RowsAccounted(before, db, moved, lost) && vm in Work(db) && id !in db.vms
    ensures var o := Origin(before, db, moved, lost, vm);
            NewRowsOk(before, Replaced(db, vm, id, target, ip), moved[o := id])
  {
    hide MovesOk, OldRowsOk;
    var o := Origin(before, db, moved, lost, vm);
    var after := Replaced(db, vm, id, target, ip);
    var moved' := moved[o := id];
    forall i | i in after.vms && i !in before.vms && !after.vms[i].deleted ensures i in moved'.Values {
      if i == id {
        assert o in moved' && moved'[o] == id;
      } else {
        assert i in moved.Values;
        var p :| p in moved && moved[p] == i;
        assert p in moved' && moved'[p] == i;
      }
    }
  }

  lemma MoveOldRows(before: Db, db: Db, moved: map<VmId, VmId>, lost: set<VmId>, vm: VmId, id: VmId, target: ServerId, ip: Address)
    requires RowsAccounted(before, db, moved, lost) && vm in Work(db) && id !in db.vms
    ensures var o := Origin(before, db, moved, lost, vm);
            OldRowsOk(before, Replaced(db, vm, id, target, ip), moved[o := id], lost)
  {
    hide MovesOk, NewRowsOk;
    var o := Origin(before, db, moved, lost, vm);
  }

  lemma MoveMoves(before: Db, db: Db, moved: map<VmId, VmId>, lost: set<VmId>, vm: VmId, id: VmId, target: ServerId, ip: Address)
    requires RowsAccounted(before, db, moved, lost) && vm in Work(db) && id !in db.vms
    ensures var o := Origin(before, db, moved, lost, vm);
            MovesOk(before, Replaced(db, vm, id, target, ip), moved[o := id], lost)
  {
    hide NewRowsOk;
    var o := Origin(before, db, moved, lost, vm);
    var after := Replaced(db, vm, id, target, ip);
    assert forall p :: p in moved && p != o ==> moved[p] != id && moved[p] != vm;
  }

  lemma MoveRows(before: Db, db: Db, moved: map<VmId, VmId>, lost: set<VmId>, vm: VmId, id: VmId, target: ServerId, ip: Address)
    requires RowsAccounted(before, db, moved, lost) && vm in Work(db) && id !in db.vms
    ensures var o := Origin(before, db, moved, lost, vm);
            RowsAccounted(before, Replaced(db, vm, id, target, ip), moved[o := id], lost)
  {
    hide MovesOk, OldRowsOk, NewRowsOk;
    MoveMoves(before, db, moved, lost, vm, id, target, ip);
    MoveOldRows(before, db, moved, lost, vm, id, target, ip);
    MoveNewRows(before, db, moved, lost, vm, id, target, ip);
  }

  lemma LoseRows(before: Db, db: Db, moved: map<VmId, VmId>, lost: set<VmId>, vm: VmId)
    requires RowsAccounted(before, db, moved, lost) && vm in Work(db)
    ensures var o := Origin(before, db, moved, lost, vm);
            RowsAccounted(before, SoftDeleted(db, vm), moved - {o}, lost + {o})
  {
    var o := Origin(before, db, moved, lost, vm);
    var after := SoftDeleted(db, vm);
    var moved' := moved - {o};
    forall i | i in after.vms && i !in before.vms && !after.vms[i].deleted ensures i in moved'.Values {
      assert i in moved.Values;
      var p :| p in moved && moved[p] == i;
      assert p in moved' && moved'[p] == i;
    }
  }

  lemma MovePointers(before: Db, db: Db, moved: map<VmId, VmId>, lost: set<VmId>, vm: VmId, id: VmId, target: ServerId, ip: Address)
    requires RowsAccounted(before, db, moved, lost) && PointersAccounted(before, db, moved, lost)
    requires vm in Work(db) && id !in db.vms && PointersExist(before)
    ensures var o := Origin(before, db, moved, lost, vm);
            PointersAccounted(before, Replaced(db, vm, id, target, ip), moved[o := id], lost)
  {
  }

  lemma LosePointers(before: Db, db: Db, moved: map<VmId, VmId>, lost: set<VmId>, vm: VmId)
    requires RowsAccounted(before, db, moved, lost) && PointersAccounted(before, db, moved, lost)
    requires vm in Work(db) && PointersExist(before)
    ensures var o := Origin(before, db, moved, lost, vm);
            PointersAccounted(before, SoftDeleted(db, vm), moved - {o}, lost + {o})
  {
  }

  ghost predicate Accounted(before: Db, after: Db, moved: map<VmId, VmId>, lost: set<VmId>) {
    RowsAccounted(before, after, moved, lost) && PointersAccounted(before, after, moved, lost)
  }

  // ---------------------------------------------------------------------
  // Conservation
  // ---------------------------------------------------------------------

  ghost function SpecBag(vms: map<VmId, Vm>, ids: set<VmId>): multiset<Spec>
    requires ids <= vms.Keys
  {
    if ids == {} then multiset{}
    else
      var id :| id in ids;
      SpecBag(vms, ids - {id}) + multiset{vms[id].spec}
  }

  lemma {:induction false} BagWithout(vms: map<VmId, Vm>, ids: set<VmId>, id: VmId)
    requires ids <= vms.Keys && id in ids
    ensures SpecBag(vms, ids) == SpecBag(vms, ids - {id}) + multiset{vms[id].spec}
    decreases ids
  {
    var first :| first in ids && SpecBag(vms, ids) == SpecBag(vms, ids - {first}) + multiset{vms[first].spec};
    if first != id {
      BagWithout(vms, ids - {first}, id);
      BagWithout(vms, ids - {id}, first);
      assert ids - {first} - {id} == ids - {id} - {first};
    }
  }

  /** Renaming ids one to one without touching the specs keeps the bag. */
  lemma {:induction false} BagRenamed(vms: map<VmId, Vm>, vms': map<VmId, Vm>, moved: map<VmId, VmId>)
    requires moved.Keys <= vms.Keys && moved.Values <= vms'.Keys && Injective(moved)
    requires forall o :: o in moved ==> vms'[moved[o]].spec == vms[o].spec
    ensures SpecBag(vms, moved.Keys) == SpecBag(vms', moved.Values)
    decreases moved.Keys
  {
    if moved.Keys == {} {
      assert moved.Values == {};
    } else {
      var o :| o in moved;
      var rest := moved - {o};
      assert rest.Keys == moved.Keys - {o};
      forall v | v in moved.Values && v != moved[o] ensures v in rest.Values {
        var p :| p in moved && moved[p] == v;
        assert p in rest && rest[p] == v;
      }
      assert rest.Values == moved.Values - {moved[o]};
      BagRenamed(vms, vms', rest);
      BagWithout(vms, moved.Keys, o);
      BagWithout(vms', moved.Values, moved[o]);
    }
  }

  lemma {:induction false} BagUnion(vms: map<VmId, Vm>, a: set<VmId>, b: set<VmId>)
    requires a <= vms.Keys && b <= vms.Keys && a !! b
    ensures SpecBag(vms, a + b) == SpecBag(vms, a) + SpecBag(vms, b)
    decreases a
  {
    if a == {} {
      assert a + b == b;
    } else {
      var id :| id in a;
      assert a + b - {id} == (a - {id}) + b;
      BagWithout(vms, a, id);
      BagWithout(vms, a + b, id);
      BagUnion(vms, a - {id}, b);
    }
  }

  lemma {:induction false} BagSame(vms: map<VmId, Vm>, vms': map<VmId, Vm>, ids: set<VmId>)
    requires ids <= vms.Keys && ids <= vms'.Keys
    requires forall id :: id in ids ==> vms'[id].spec == vms[id].spec
    ensures SpecBag(vms, ids) == SpecBag(vms', ids)
    decreases ids
  {
    if ids != {} {
      var id :| id in ids;
      BagSame(vms, vms', ids - {id});
      BagWithout(vms, ids, id);
      BagWithout(vms', ids, id);
    }
  }

  /** Work is conserved up to what was lost: the same bag of specifications is
      live afterwards, minus those of the lost VMs. */
  lemma WorkConserved(before: Db, after: Db, moved: map<VmId, VmId>, lost: set<VmId>)
    requires Accounted(before, after, moved, lost)
    ensures SpecBag(before.vms, Work(before)) == SpecBag(after.vms, Work(after)) + SpecBag(before.vms, lost)
  {
    var kept := Work(before) - moved.Keys - lost;
    assert Work(before) == (kept + moved.Keys) + lost;
    assert Work(after) == kept + moved.Values;
    BagUnion(before.vms, kept + moved.Keys, lost);
    BagUnion(before.vms, kept, moved.Keys);
    BagUnion(after.vms, kept, moved.Values);
    BagSame(before.vms, after.vms, kept);
    BagRenamed(before.vms, after.vms, moved);
  }

  /** With nothing lost, every deployment that pointed at live work still does,
      at work of the same specification, and no two deployments share it. */
  lemma PointersFollowWork(before: Db, after: Db, moved: map<VmId, VmId>, d: DeploymentId)
    requires Accounted(before, after, moved, {}) && d in before.deployments
    requires before.deployments[d].Some? && before.deployments[d].value in Work(before)
    ensures after.deployments[d].Some? && after.deployments[d].value in Work(after)
    ensures after.vms[after.deployments[d].value].spec == before.vms[before.deployments[d].value].spec
  {
  }

  lemma RepointKeepsUnique(deployments: map<DeploymentId, Option<VmId>>, from: VmId, to: VmId)
    requires UniquePointers(deployments)
    requires forall d :: d in deployments ==> deployments[d] != Some(to)
    ensures UniquePointers(Repointed(deployments, from, to))
  {
  }

  // ---------------------------------------------------------------------
  // Room for the work of the listed servers
  // ---------------------------------------------------------------------

  function ListedWork(db: Db, listed: set<ServerId>): set<VmId> {
    set id | id in db.vms && Working(db.vms[id]) && db.vms[id].server in listed
  }

  predicate HasRoom(db: Db, server: ServerId, n: nat)
    requires server in db.servers
  {
    var m := db.servers[server].range.masklen;
    2 <= m <= 31 && |LiveIps(db, server)| + n <= Capacity(m)
  }

  /** Every server that may receive VMs has free addresses for all the listed work. */
  predicate Ample(db: Db, listed: set<ServerId>) {
    forall s :: s in Eligible(db) ==> HasRoom(db, s, |ListedWork(db, listed)|)
  }

  /** The transaction only marks listed servers dead, and new VMs go to servers
      that were eligible from the start. */
  predicate Placed(before: Db, db: Db, listed: set<ServerId>) {
    && Eligible(db) <= Eligible(before)
    && (forall s :: s in Eligible(before) && s !in listed ==> s in Eligible(db))
    && (forall s :: s in db.servers ==> s in before.servers && db.servers[s].range == before.servers[s].range)
    && (forall id :: id in db.vms && id !in before.vms ==> db.vms[id].server in Eligible(before))
  }

  lemma UnionSize<T>(a: set<T>, b: set<T>)
    ensures |a + b| <= |a| + |b|
  {
    assert a + b == a + (b - a);
    assert |b - a| <= |b| by { assert b == (b - a) + (b * a); }
  }

  lemma {:induction false} ImageSize(vms: map<VmId, Vm>, moved: map<VmId, VmId>, ips: set<Address>)
    requires moved.Values <= vms.Keys
    requires ips == set o | o in moved :: vms[moved[o]].ip
    ensures |ips| <= |moved|
    decreases moved.Keys
  {
    if moved.Keys != {} {
      var o :| o in moved;
      var rest := moved - {o};
      var ips' := set p | p in rest :: vms[rest[p]].ip;
      assert rest.Keys == moved.Keys - {o};
      assert rest.Values <= vms.Keys by {
        forall v | v in rest.Values ensures v in vms {
          var p :| p in rest && rest[p] == v;
          assert moved[p] in moved.Values;
        }
      }
      ImageSize(vms, rest, ips');
      forall a | a in ips ensures a in ips' + {vms[moved[o]].ip} {
        var p :| p in moved && vms[moved[p]].ip == a;
        if p != o { assert p in rest && vms[rest[p]].ip == a; }
      }
      forall a | a in ips' ensures a in ips {
        var p :| p in rest && vms[rest[p]].ip == a;
        assert p in moved;
      }
      assert ips == ips' + {vms[moved[o]].ip};
      UnionSize(ips', {vms[moved[o]].ip});
    }
  }

  lemma TakenAfterMoves(before: Db, db: Db, moved: map<VmId, VmId>, vm: VmId, target: ServerId)
    requires RowsAccounted(before, db, moved, {}) && vm in db.vms
    ensures |LiveIps(SoftDeleted(db, vm), target)| <= |LiveIps(before, target)| + |moved|
  {
    var ips := set o | o in moved :: db.vms[moved[o]].ip;
    assert moved.Values <= db.vms.Keys;
    ImageSize(db.vms, moved, ips);
    var taken := LiveIps(SoftDeleted(db, vm), target);
    forall a | a in taken ensures a in LiveIps(before, target) + ips {
      var id :| id in db.vms && !SoftDeleted(db, vm).vms[id].deleted
                && db.vms[id].server == target && db.vms[id].ip == a;
      if id in before.vms {
        assert !before.vms[id].deleted;
      } else {
        assert id in moved.Values;
        var o :| o in moved && moved[o] == id;
      }
    }
    SubsetSize(taken, LiveIps(before, target) + ips);
    UnionSize(LiveIps(before, target), ips);
  }

  lemma StrictSubsetSize(a: set<VmId>, b: set<VmId>, x: VmId)
    requires a <= b && x in b && x !in a
    ensures |a| < |b|
  {
    assert b == a + (b - a);
    assert x in b - a;
  }

  /** With room for all, the address lookup for a listed VM succeeds. */
  lemma AddressFound(before: Db, db: Db, moved: map<VmId, VmId>, listed: set<ServerId>, vm: VmId, target: ServerId)
    requires RowsAccounted(before, db, moved, {}) && moved.Keys <= ListedWork(before, listed)
    requires vm in ListedWork(before, listed) && vm !in moved
    requires Ample(before, listed) && target in Eligible(before)
    ensures NextIp(LiveIps(SoftDeleted(db, vm), target), before.servers[target].range).Free?
  {
    var range := before.servers[target].range;
    var taken := LiveIps(SoftDeleted(db, vm), target);
    TakenAfterMoves(before, db, moved, vm, target);
    StrictSubsetSize(moved.Keys, ListedWork(before, listed), vm);
    assert HasRoom(before, target, |ListedWork(before, listed)|);
    NextIpLeast(taken, range);
    if !NextIp(taken, range).Free? {
      CandidatesAre(range);
      CandidateCount(range.base, Capacity(range.masklen));
      SubsetSize(FirstCandidates(range.base, Capacity(range.masklen)), taken);
    }
  }
}
