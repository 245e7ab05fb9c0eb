/** Registrations, VM creations, failovers and deletions, interleaved statement by
    statement: the advisory locks keep the address plan free of overlaps. */
module AddressPlan {
  import opened IpAllocator

  type ServerId = nat
  type VmId = nat
  type SessionId = nat

  // ---------------------------------------------------------------------
  // ServerAllocateIPRange
  // ---------------------------------------------------------------------

  /** Which text of the query runs. As written it passes the next range through
      host(...), which drops the mask, so the cast back to cidr makes it a /32;
      as documented the next range is a /20 again. */
  datatype Query = AsDocumented | AsWritten

  /** The row ORDER BY ip_range DESC LIMIT 1 returns. */
  ghost predicate IsTop(top: Option<Range>, ranges: set<Range>) {
    if top.None? then ranges == {}
    else top.value in ranges && forall r :: r in ranges ==> r.base <= top.value.base
  }

  function NextRange(q: Query, top: Option<Range>): Option<Range> {
    if top.None? then Some(Range(FIRST_BASE, SERVER_MASKLEN))
    else
      var next := top.value.base + Size(top.value.masklen);
      if next >= ADDRESSES then None
      else Some(Range(next, if q.AsWritten? then 32 else SERVER_MASKLEN))
  }

  const SERVER_SIZE: int := 4096

  /** The range of the server registered k-th, counting from zero. */
  function NthRange(q: Query, k: nat): Range {
    if q.AsDocumented? then Range(FIRST_BASE + SERVER_SIZE * k, SERVER_MASKLEN)
    else if k == 0 then Range(FIRST_BASE, SERVER_MASKLEN)
    else Range(FIRST_BASE + SERVER_SIZE + (k - 1), 32)
  }

  lemma ServerSizes()
    ensures Size(SERVER_MASKLEN) == SERVER_SIZE && Size(32) == 1
  {
    Pow2Thirty();
  }

  lemma NthFollows(q: Query, k: nat)
    requires k > 0
    ensures NthRange(q, k).base == NthRange(q, k - 1).base + Size(NthRange(q, k - 1).masklen)
  {
    ServerSizes();
  }

  lemma NthApart(q: Query, j: nat, k: nat)
    requires j < k
    ensures NthRange(q, j).base + Size(NthRange(q, j).masklen) <= NthRange(q, k).base
  {
    ServerSizes();
  }

  /** In figures: 10.1.0.0/20 and so on, or single addresses after the first range. */
  lemma NthIs(k: nat)
    ensures NthRange(AsDocumented, k) == Range(0x0A01_0000 + 4096 * k, 20)
    ensures NthRange(AsWritten, k) == if k == 0 then Range(0x0A01_0000, 20) else Range(0x0A01_0FFF + k, 32)
  {
  }

  lemma NthValid(q: Query, k: nat)
    requires NthRange(q, k).base < ADDRESSES
    ensures ValidRange(NthRange(q, k))
  {
    ServerSizes();
    if q.AsDocumented? {
      assert FIRST_BASE + SERVER_SIZE * k == SERVER_SIZE * (FIRST_BASE / SERVER_SIZE + k);
    }
  }

  /** The k-th documented range lies in 10.0.0.0/8 exactly for k < 4080. */
  lemma WithinPrivateTen(k: nat)
    ensures var r := NthRange(AsDocumented, k);
            (forall a :: InRange(a, r) ==> PRIVATE_TEN <= a < PRIVATE_TEN + PRIVATE_TEN_SIZE) <==> k < 4080
  {
    ServerSizes();
    var r := NthRange(AsDocumented, k);
    assert InRange(r.base, r);
  }

  /** Documentation and query agree on the first server only; from the second on
      the query as written leaves no room for a VM. */
  lemma WrittenQueryStarves(k: nat)
    ensures NthRange(AsWritten, k) == NthRange(AsDocumented, k) <==> k == 0
    ensures k > 0 ==> forall taken :: NextIp(taken, NthRange(AsWritten, k)).NoRows?
  {
    ServerSizes();
  }

  // ---------------------------------------------------------------------
  // Tables, transactions and their steps
  // ---------------------------------------------------------------------

  datatype Vm = Vm(server: ServerId, ip: Address, deleted: bool)

  /** An open VM transaction: its uncommitted changes, the server and range it
      chose, and the address VMNextIPAddress gave it. */
  datatype Tx = Tx(
    deletes: set<VmId>, inserts: map<VmId, Vm>,
    chosen: Option<(ServerId, Range)>, ip: Option<Address>)

  const NO_CHANGES: Tx := Tx({}, map[], None, None)

  datatype Registration = Registration(server: ServerId, range: Option<Range>)

  datatype State = State(
    query: Query,
    servers: map<ServerId, Range>, order: seq<ServerId>,
    regs: map<SessionId, Registration>, regLock: Option<SessionId>,
    vms: map<VmId, Vm>,
    txs: map<SessionId, Tx>, vmLock: Option<SessionId>)

  datatype Event =
    | OpenRegistration(sid: SessionId, server: ServerId)
    | LockRegistration(sid: SessionId)
    | AllocateRange(sid: SessionId, top: Option<Range>)
    | CommitRegistration(sid: SessionId)
    | AbortRegistration(sid: SessionId)
    | Open(sid: SessionId)
    | Choose(sid: SessionId, server: ServerId)
    | Lock(sid: SessionId)
    | Delete(sid: SessionId, vm: VmId)
    | Allocate(sid: SessionId)
    | Insert(sid: SessionId, vm: VmId)
    | Commit(sid: SessionId)
    | Abort(sid: SessionId)
    | SoftDelete(vm: VmId)

  /** The vms table as the transaction sees it, and as it will be after its commit. */
  function Apply(vms: map<VmId, Vm>, tx: Tx): map<VmId, Vm> {
    map id | id in vms.Keys + tx.inserts.Keys ::
      var vm := if id in tx.inserts then tx.inserts[id] else vms[id];
      if id in tx.deletes then vm.(deleted := true) else vm
  }

  function LiveIps(vms: map<VmId, Vm>, server: ServerId): set<Address> {
    set id | id in vms && !vms[id].deleted && vms[id].server == server :: vms[id].ip
  }

  predicate Locked(s: State, sid: SessionId) {
    sid in s.txs && s.vmLock == Some(sid)
  }

  ghost predicate Enabled(s: State, e: Event) {
    match e
    case OpenRegistration(sid, _) => sid !in s.regs
    case LockRegistration(sid) => sid in s.regs && s.regLock.None?
    case AllocateRange(sid, top) => sid in s.regs && s.regLock == Some(sid) && IsTop(top, s.servers.Values)
    case CommitRegistration(sid) => sid in s.regs && s.regLock == Some(sid) && s.regs[sid].range.Some?
    case AbortRegistration(sid) => sid in s.regs
    case Open(sid) => sid !in s.txs
    case Choose(sid, server) => sid in s.txs && server in s.servers
    case Lock(sid) => sid in s.txs && s.vmLock.None?
    case Delete(sid, vm) => Locked(s, sid)
    case Allocate(sid) => Locked(s, sid) && s.txs[sid].chosen.Some?
    case Insert(sid, vm) =>
      // uuid.New() makes an id no table holds
      && Locked(s, sid) && s.txs[sid].chosen.Some? && s.txs[sid].ip.Some?
      && vm !in s.vms && vm !in s.txs[sid].inserts && vm !in s.txs[sid].deletes
    case Commit(sid) => sid in s.txs
    case Abort(sid) => sid in s.txs
    case SoftDelete(vm) => vm in s.vms
  }

  function Unlocked(lock: Option<SessionId>, sid: SessionId): Option<SessionId> {
    if lock == Some(sid) then None else lock
  }

  /** A transaction over, in either way: its session and its lock are gone. */
  function Closed(s: State, sid: SessionId): State {
    s.(txs := s.txs - {sid}, vmLock := Unlocked(s.vmLock, sid))
  }

  function ClosedRegistration(s: State, sid: SessionId): State {
    s.(regs := s.regs - {sid}, regLock := Unlocked(s.regLock, sid))
  }

  function SetTx(s: State, sid: SessionId, tx: Tx): State {
    s.(txs := s.txs[sid := tx])
  }

  ghost function Next(s: State, e: Event): State
    requires Enabled(s, e)
  {
    match e
    case OpenRegistration(sid, server) => s.(regs := s.regs[sid := Registration(server, None)])
    case LockRegistration(sid) => s.(regLock := Some(sid))
    case AllocateRange(sid, top) =>
      s.(regs := s.regs[sid := s.regs[sid].(range := NextRange(s.query, top))])
    case CommitRegistration(sid) =>
      var reg := s.regs[sid];
      ClosedRegistration(
        // on conflict the row keeps its range
        if reg.server in s.servers then s
        else s.(servers := s.servers[reg.server := reg.range.value], order := s.order + [reg.server]),
        sid)
    case AbortRegistration(sid) => ClosedRegistration(s, sid)
    case Open(sid) => SetTx(s, sid, NO_CHANGES)
    case Choose(sid, server) =>
      SetTx(s, sid, s.txs[sid].(chosen := Some((server, s.servers[server])), ip := None))
    case Lock(sid) => s.(vmLock := Some(sid))
    case Delete(sid, vm) => SetTx(s, sid, s.txs[sid].(deletes := s.txs[sid].deletes + {vm}))
    case Allocate(sid) =>
      var (server, range) := s.txs[sid].chosen.value;
      var a := NextIp(LiveIps(Apply(s.vms, s.txs[sid]), server), range);
      SetTx(s, sid, s.txs[sid].(ip := if a.Free? then Some(a.ip) else None))
    case Insert(sid, vm) =>
      var tx := s.txs[sid];
      var row := Vm(tx.chosen.value.0, tx.ip.value, false);
      SetTx(s, sid, tx.(inserts := tx.inserts[vm := row], chosen := None, ip := None))
    case Commit(sid) => Closed(s.(vms := Apply(s.vms, s.txs[sid])), sid)
    case Abort(sid) => Closed(s, sid)
    case SoftDelete(vm) => s.(vms := s.vms[vm := s.vms[vm].(deleted := true)])
  }

  // ---------------------------------------------------------------------
  // Server ranges
  // ---------------------------------------------------------------------

  ghost predicate OrderInv(s: State) {
    && (forall i, j :: 0 <= i < j < |s.order| ==> s.order[i] != s.order[j])
    && (forall server :: server in s.servers <==> server in s.order)
    && forall k :: 0 <= k < |s.order| ==>
         s.servers[s.order[k]] == NthRange(s.query, k) && NthRange(s.query, k).base < ADDRESSES
  }

  ghost predicate RegInv(s: State) {
    forall sid :: sid in s.regs && s.regs[sid].range.Some? ==>
      && s.regLock == Some(sid)
      && s.regs[sid].range.value == NthRange(s.query, |s.order|)
      && NthRange(s.query, |s.order|).base < ADDRESSES
  }

  lemma TopIsLast(s: State, top: Option<Range>)
    requires OrderInv(s) && IsTop(top, s.servers.Values)
    ensures NextRange(s.query, top).Some? <==> NthRange(s.query, |s.order|).base < ADDRESSES
    ensures NextRange(s.query, top).Some? ==> NextRange(s.query, top).value == NthRange(s.query, |s.order|)
  {
    var n := |s.order|;
    if n == 0 {
      assert s.servers.Keys == {};
    } else {
      var last := s.order[n - 1];
      assert s.servers[last] in s.servers.Values;
      var server :| server in s.servers && s.servers[server] == top.value;
      var k :| 0 <= k < n && s.order[k] == server;
      if k < n - 1 { NthApart(s.query, k, n - 1); NthSizePositive(s.query, k); }
      NthFollows(s.query, n);
    }
  }

  lemma NthSizePositive(q: Query, k: nat)
    ensures Size(NthRange(q, k).masklen) >= 1
  {
  }

  lemma CommitKeepsOrder(s: State, sid: SessionId)
    requires OrderInv(s) && RegInv(s) && Enabled(s, CommitRegistration(sid))
    ensures OrderInv(Next(s, CommitRegistration(sid))) && RegInv(Next(s, CommitRegistration(sid)))
  {
    hide NthRange;
  }

  lemma ServersStep(s: State, e: Event)
    requires OrderInv(s) && RegInv(s) && Enabled(s, e)
    ensures OrderInv(Next(s, e)) && RegInv(Next(s, e))
  {
    hide NthRange, Apply, LiveIps;
    match e
    case CommitRegistration(sid) => CommitKeepsOrder(s, sid);
    case AllocateRange(sid, top) => TopIsLast(s, top);
    case _ => RestKeepsOrder(s, e);
  }

  lemma RestKeepsOrder(s: State, e: Event)
    requires OrderInv(s) && RegInv(s) && Enabled(s, e) && !e.CommitRegistration? && !e.AllocateRange?
    ensures OrderInv(Next(s, e)) && RegInv(Next(s, e))
  {
    hide NthRange, Apply, LiveIps, OrderInv, NextIp;
    assert Next(s, e).servers == s.servers && Next(s, e).order == s.order;
    KeepOrder(s, Next(s, e));
  }

  lemma KeepOrder(s: State, t: State)
    requires OrderInv(s) && t.servers == s.servers && t.order == s.order && t.query == s.query
    ensures OrderInv(t)
  {
  }

  // ---------------------------------------------------------------------
  // Addresses of live VMs
  // ---------------------------------------------------------------------

  ghost predicate TableOk(servers: map<ServerId, Range>, vms: map<VmId, Vm>) {
    && (forall id :: id in vms && !vms[id].deleted ==>
          vms[id].server in servers && Candidate(vms[id].ip, servers[vms[id].server]))
    && (forall id, other ::
          (id in vms && other in vms && id != other
           && !vms[id].deleted && !vms[other].deleted && vms[id].server == vms[other].server) ==>
          vms[id].ip != vms[other].ip)
  }

  ghost predicate TxInv(s: State) {
    forall sid :: sid in s.txs ==>
      var tx := s.txs[sid];
      && (tx.chosen.Some? ==> tx.chosen.value.0 in s.servers && s.servers[tx.chosen.value.0] == tx.chosen.value.1)
      && (s.vmLock != Some(sid) ==> tx.deletes == {} && tx.inserts == map[] && tx.ip.None?)
  }

  /** The holder of the lock sees a table without overlaps, and the address it
      was given is free there. */
  ghost predicate HolderInv(s: State) {
    && (s.vmLock.Some? ==> s.vmLock.value in s.txs)
    && forall sid :: Locked(s, sid) ==>
      var tx := s.txs[sid];
      && tx.inserts.Keys !! s.vms.Keys
      && TableOk(s.servers, Apply(s.vms, tx))
      && (tx.ip.Some? ==>
            && tx.chosen.Some?
            && Candidate(tx.ip.value, tx.chosen.value.1)
            && tx.ip.value !in LiveIps(Apply(s.vms, tx), tx.chosen.value.0))
  }

  ghost predicate VmsInv(s: State) {
    TableOk(s.servers, s.vms) && TxInv(s) && HolderInv(s)
  }

  /** Marking rows deleted, or adding servers, keeps a table free of overlaps. */
  lemma TableShrinks(servers: map<ServerId, Range>, vms: map<VmId, Vm>, servers': map<ServerId, Range>, vms': map<VmId, Vm>)
    requires TableOk(servers, vms)
    requires forall x :: x in servers ==> x in servers' && servers'[x] == servers[x]
    requires forall id :: id in vms' && !vms'[id].deleted ==> id in vms && vms'[id] == vms[id]
    ensures TableOk(servers', vms')
    ensures forall x :: LiveIps(vms', x) <= LiveIps(vms, x)
  {
    forall x, a | a in LiveIps(vms', x) ensures a in LiveIps(vms, x) {
      var id :| id in vms' && !vms'[id].deleted && vms'[id].server == x && vms'[id].ip == a;
      assert id in vms && vms[id].ip == a;
    }
  }

  lemma ApplyNothing(vms: map<VmId, Vm>, tx: Tx)
    requires tx.deletes == {} && tx.inserts == map[]
    ensures Apply(vms, tx) == vms
  {
  }

  lemma DeleteInv(s: State, sid: SessionId, vm: VmId)
    requires VmsInv(s) && Locked(s, sid)
    ensures VmsInv(Next(s, Delete(sid, vm)))
  {
    var tx := s.txs[sid];
    TableShrinks(s.servers, Apply(s.vms, tx), s.servers, Apply(s.vms, tx.(deletes := tx.deletes + {vm})));
  }

  lemma SoftDeleteInv(s: State, vm: VmId)
    requires VmsInv(s) && vm in s.vms
    ensures VmsInv(Next(s, SoftDelete(vm)))
  {
    var t := Next(s, SoftDelete(vm));
    TableShrinks(s.servers, s.vms, t.servers, t.vms);
    if s.vmLock.Some? {
      var tx := s.txs[s.vmLock.value];
      TableShrinks(s.servers, Apply(s.vms, tx), t.servers, Apply(t.vms, tx));
    }
  }

  lemma LockInv(s: State, sid: SessionId)
    requires VmsInv(s) && Enabled(s, Lock(sid))
    ensures VmsInv(Next(s, Lock(sid)))
  {
    ApplyNothing(s.vms, s.txs[sid]);
  }

  lemma AllocateInv(s: State, sid: SessionId)
    requires OrderInv(s) && VmsInv(s) && Enabled(s, Allocate(sid))
    ensures VmsInv(Next(s, Allocate(sid)))
  {
    hide NthRange;
    var tx := s.txs[sid];
    var (server, range) := tx.chosen.value;
    RangeHasMask(s, server);
    NextIpLeast(LiveIps(Apply(s.vms, tx), server), range);
    hide NextIp;
  }

  lemma RangeHasMask(s: State, server: ServerId)
    requires OrderInv(s) && server in s.servers
    ensures 2 <= s.servers[server].masklen <= 32
  {
    var k :| 0 <= k < |s.order| && s.order[k] == server;
  }

  lemma InsertInv(s: State, sid: SessionId, vm: VmId)
    requires VmsInv(s) && Enabled(s, Insert(sid, vm))
    ensures VmsInv(Next(s, Insert(sid, vm)))
  {
    hide TableOk, Candidate, LiveIps, Apply;
    var tx, t := s.txs[sid], Next(s, Insert(sid, vm));
    var row := Vm(tx.chosen.value.0, tx.ip.value, false);
    ApplyInsert(s.vms, tx, t.txs[sid], vm, row);
    InsertOk(s.servers, Apply(s.vms, tx), vm, row);
  }

  lemma ApplyInsert(vms: map<VmId, Vm>, tx: Tx, tx': Tx, vm: VmId, row: Vm)
    requires vm !in vms && vm !in tx.inserts && vm !in tx.deletes
    requires tx'.inserts == tx.inserts[vm := row] && tx'.deletes == tx.deletes
    ensures vm !in Apply(vms, tx) && Apply(vms, tx') == Apply(vms, tx)[vm := row]
  {
  }

  lemma InsertOk(servers: map<ServerId, Range>, vms: map<VmId, Vm>, vm: VmId, row: Vm)
    requires TableOk(servers, vms) && vm !in vms && !row.deleted
    requires row.server in servers && Candidate(row.ip, servers[row.server]) && row.ip !in LiveIps(vms, row.server)
    ensures TableOk(servers, vms[vm := row])
  {
    hide Candidate;
    forall id | id in vms && !vms[id].deleted && vms[id].server == row.server ensures vms[id].ip != row.ip {
      assert vms[id].ip in LiveIps(vms, row.server);
    }
  }

  lemma CommitInv(s: State, sid: SessionId)
    requires VmsInv(s) && sid in s.txs
    ensures VmsInv(Next(s, Commit(sid)))
  {
    hide Candidate;
    if s.vmLock != Some(sid) { ApplyNothing(s.vms, s.txs[sid]); }
  }

  lemma SessionInv(s: State, e: Event)
    requires VmsInv(s) && Enabled(s, e) && (e.Open? || e.Choose? || e.Abort?)
    ensures VmsInv(Next(s, e))
  {
    hide Candidate, TableOk, Apply, LiveIps;
    if e.Choose? { ApplySame(s.vms, s.txs[e.sid], Next(s, e).txs[e.sid]); }
  }

  lemma ApplySame(vms: map<VmId, Vm>, tx: Tx, tx': Tx)
    requires tx'.inserts == tx.inserts && tx'.deletes == tx.deletes
    ensures Apply(vms, tx') == Apply(vms, tx)
  {
  }

  lemma RegistrationInv(s: State, e: Event)
    requires OrderInv(s) && RegInv(s) && VmsInv(s) && Enabled(s, e)
    requires e.OpenRegistration? || e.LockRegistration? || e.AllocateRange? || e.CommitRegistration? || e.AbortRegistration?
    ensures VmsInv(Next(s, e))
  {
    hide Candidate, NthRange, Apply;
    var t := Next(s, e);
    TableShrinks(s.servers, s.vms, t.servers, t.vms);
    if s.vmLock.Some? {
      var tx := s.txs[s.vmLock.value];
      TableShrinks(s.servers, Apply(s.vms, tx), t.servers, Apply(t.vms, tx));
    }
  }

  /** A row of a VM is changed by the commit of a transaction that deleted or made it, and by its user. */
  lemma VmChangedBy(s: State, e: Event, id: VmId)
    requires Enabled(s, e)
    ensures id in s.vms && (id !in Next(s, e).vms || Next(s, e).vms[id] != s.vms[id]) ==>
              && id in Next(s, e).vms
              && (e == SoftDelete(id) || (e.Commit? && (id in s.txs[e.sid].deletes || id in s.txs[e.sid].inserts)))
    ensures id !in s.vms && id in Next(s, e).vms ==>
              && e.Commit? && id in s.txs[e.sid].inserts
              && Next(s, e).vms[id] == (if id in s.txs[e.sid].deletes then s.txs[e.sid].inserts[id].(deleted := true)
                                        else s.txs[e.sid].inserts[id])
  {
    hide NextRange, NextIp, LiveIps;
  }

  /** A known server keeps its range; a new one gets the one its own registration was given. */
  lemma ServerChangedBy(s: State, e: Event, x: ServerId)
    requires Enabled(s, e)
    ensures x in s.servers ==> x in Next(s, e).servers && Next(s, e).servers[x] == s.servers[x]
    ensures x !in s.servers && x in Next(s, e).servers ==>
              && e.CommitRegistration? && s.regs[e.sid].server == x && s.regLock == Some(e.sid)
              && s.regs[e.sid].range == Some(Next(s, e).servers[x])
  {
    hide NextRange, NextIp, LiveIps, Apply;
  }

  ghost predicate Inv(s: State) {
    OrderInv(s) && RegInv(s) && VmsInv(s)
  }

  lemma NextInv(s: State, e: Event)
    requires Inv(s) && Enabled(s, e)
    ensures Inv(Next(s, e))
  {
    hide OrderInv, RegInv, VmsInv, Next;
    ServersStep(s, e);
    match e
    case Open(_) => SessionInv(s, e);
    case Choose(_, _) => SessionInv(s, e);
    case Abort(_) => SessionInv(s, e);
    case Lock(sid) => LockInv(s, sid);
    case Delete(sid, vm) => DeleteInv(s, sid, vm);
    case Allocate(sid) => AllocateInv(s, sid);
    case Insert(sid, vm) => InsertInv(s, sid, vm);
    case Commit(sid) => CommitInv(s, sid);
    case SoftDelete(vm) => SoftDeleteInv(s, vm);
    case _ => RegistrationInv(s, e);
  }

  // ---------------------------------------------------------------------
  // Runs
  // ---------------------------------------------------------------------

  datatype Run = Run(states: seq<State>, events: seq<Event>)

  function Init(q: Query): State {
    State(q, map[], [], map[], None, map[], map[], None)
  }

  ghost predicate IsRun(r: Run) {
    && |r.states| == |r.events| + 1
    && r.states[0] == Init(r.states[0].query)
    && forall i :: 0 <= i < |r.events| ==>
         Enabled(r.states[i], r.events[i]) && r.states[i + 1] == Next(r.states[i], r.events[i])
  }

  lemma InitInv(q: Query)
    ensures Inv(Init(q))
  {
    hide NthRange, Candidate;
  }

  lemma {:induction false} RunInv(r: Run, k: nat)
    requires IsRun(r) && k < |r.states|
    ensures Inv(r.states[k]) && r.states[k].query == r.states[0].query
  {
    hide Next, Inv, Init;
    if k == 0 {
      InitInv(r.states[0].query);
    } else {
      RunInv(r, k - 1);
      NextInv(r.states[k - 1], r.events[k - 1]);
      QueryFixed(r.states[k - 1], r.events[k - 1]);
    }
  }

  lemma QueryFixed(s: State, e: Event)
    requires Enabled(s, e)
    ensures Next(s, e).query == s.query
  {
  }

  /** The k-th registered server has the k-th range, whatever ran concurrently. */
  lemma RangesInOrder(r: Run, n: nat, k: nat)
    requires IsRun(r) && n < |r.states| && k < |r.states[n].order|
    ensures r.states[n].order[k] in r.states[n].servers
    ensures r.states[n].servers[r.states[n].order[k]] == NthRange(r.states[0].query, k)
    ensures ValidRange(NthRange(r.states[0].query, k))
  {
    RunInv(r, n);
    NthValid(r.states[0].query, k);
  }

  /** Two servers' ranges have no address in common. */
  lemma ServerRangesDisjoint(r: Run, n: nat, x: ServerId, y: ServerId, a: Address)
    requires IsRun(r) && n < |r.states| && x in r.states[n].servers && y in r.states[n].servers && x != y
    ensures !(InRange(a, r.states[n].servers[x]) && InRange(a, r.states[n].servers[y]))
  {
    RunInv(r, n);
    var s := r.states[n];
    var i :| 0 <= i < |s.order| && s.order[i] == x;
    var j :| 0 <= j < |s.order| && s.order[j] == y;
    if i < j { NthApart(s.query, i, j); } else { NthApart(s.query, j, i); }
  }

  lemma LiveVmPlaced(r: Run, n: nat, v: VmId)
    requires IsRun(r) && n < |r.states| && v in r.states[n].vms && !r.states[n].vms[v].deleted
    ensures var s := r.states[n];
            && s.vms[v].server in s.servers
            && Candidate(s.vms[v].ip, s.servers[s.vms[v].server])
            && ValidRange(s.servers[s.vms[v].server])
  {
    RunInv(r, n);
    var s := r.states[n];
    var k :| 0 <= k < |s.order| && s.order[k] == s.vms[v].server;
    NthValid(s.query, k);
  }

  /** In every reachable state the /31 blocks of any two live VMs are disjoint,
      and each lies in the range of the VM's own server. */
  lemma LiveBlocksDisjoint(r: Run, n: nat, v: VmId, w: VmId)
    requires IsRun(r) && n < |r.states| && v != w
    requires v in r.states[n].vms && !r.states[n].vms[v].deleted
    requires w in r.states[n].vms && !r.states[n].vms[w].deleted
    ensures Block(r.states[n].vms[v].ip) !! Block(r.states[n].vms[w].ip)
    ensures var s := r.states[n];
            && s.vms[v].server in s.servers
            && forall a :: a in Block(s.vms[v].ip) ==> InRange(a, s.servers[s.vms[v].server])
  {
    LiveVmPlaced(r, n, v);
    LiveVmPlaced(r, n, w);
    RunInv(r, n);
    var s := r.states[n];
    var x, y := s.vms[v].server, s.vms[w].server;
    hide ValidRange, NthRange;
    GatewayIsOtherHalf(s.vms[v].ip, s.servers[x], s.vms[w].ip, s.servers[y]);
    GatewayIsOtherHalf(s.vms[w].ip, s.servers[y], s.vms[v].ip, s.servers[x]);
    if x != y { ServerRangesDisjoint(r, n, x, y, s.vms[v].ip); }
    BlocksDisjoint(s.vms[v].ip, s.servers[x], s.vms[w].ip, s.servers[y]);
  }

  // ---------------------------------------------------------------------
  // Capacity, counted in VMs
  // ---------------------------------------------------------------------

  function LiveVms(vms: map<VmId, Vm>, server: ServerId): set<VmId> {
    set id | id in vms && !vms[id].deleted && vms[id].server == server
  }

  lemma {:induction false} CountByAddress(vms: map<VmId, Vm>, ids: set<VmId>, ips: set<Address>)
    requires ids <= vms.Keys
    requires forall i, j :: i in ids && j in ids && i != j ==> vms[i].ip != vms[j].ip
    requires ips == set id | id in ids :: vms[id].ip
    ensures |ids| == |ips|
  {
    if ids != {} {
      var id :| id in ids;
      CountByAddress(vms, ids - {id}, ips - {vms[id].ip});
    }
  }

  /** In every reachable state the allocator finds no address for a server
      exactly when the server has as many live VMs as its range has room for. */
  lemma FullExactlyAtCapacity(r: Run, n: nat, server: ServerId)
    requires IsRun(r) && n < |r.states| && server in r.states[n].servers
    requires r.states[n].servers[server].masklen <= 31
    ensures var s := r.states[n];
            var a := NextIp(LiveIps(s.vms, server), s.servers[server]);
            && (a.NoRows? <==> |LiveVms(s.vms, server)| == Capacity(s.servers[server].masklen))
            && (!a.NoRows? ==> a.Free? && a.ip !in LiveIps(s.vms, server))
  {
    hide NthRange, Candidate;
    RunInv(r, n);
    var s := r.states[n];
    RangeHasMask(s, server);
    CountByAddress(s.vms, LiveVms(s.vms, server), LiveIps(s.vms, server));
    ExactCapacity(LiveIps(s.vms, server), s.servers[server]);
    NextIpLeast(LiveIps(s.vms, server), s.servers[server]);
  }
}
