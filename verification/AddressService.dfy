/** VMCreate and registerServer as the code has them (internal/zeitwork/vm.go:242-299 and
    internal/zeitwork/server.go:51-104): methods over the vms and servers tables. Run when no
    other session holds the lock, they take steps of the interleaved model. */
module AddressService {
  import opened IpAllocator
  import opened AddressPlan

  ghost predicate Possible(s: State, es: seq<Event>)
    decreases |es|
  {
    es != [] ==> Enabled(s, es[0]) && Possible(Next(s, es[0]), es[1..])
  }

  ghost function After(s: State, es: seq<Event>): State
    requires Possible(s, es)
    decreases |es|
  {
    if es == [] then s else After(Next(s, es[0]), es[1..])
  }

  lemma Then(s: State, e: Event, es: seq<Event>)
    requires Enabled(s, e) && Possible(Next(s, e), es)
    ensures Possible(s, [e] + es) && After(s, [e] + es) == After(Next(s, e), es)
  {
    hide Next, Enabled;
    assert ([e] + es)[1..] == es;
  }

  lemma Nothing(s: State)
    ensures Possible(s, []) && After(s, []) == s
  {
  }

  lemma NoChange(vms: map<VmId, Vm>, tx: Tx)
    requires tx.deletes == {} && tx.inserts == map[]
    ensures AddressPlan.Apply(vms, tx) == vms
  {
  }

  /** What the query finds, on the rows: the least odd offset of the range, up to the last but one
      address, that no live VM of the server has; or none, if live VMs of it have them all or the
      range is wider than a /2. */
  lemma AllocationIs(vms: map<VmId, Vm>, server: ServerId, range: Range)
    ensures var a := NextIp(LiveIps(vms, server), range);
            if a.Free? then
              && 1 <= a.ip - range.base <= Size(range.masklen) - 2 && (a.ip - range.base) % 2 == 1
              && (forall id :: id in vms && !vms[id].deleted && vms[id].server == server ==> vms[id].ip != a.ip)
              && forall b :: Candidate(b, range) && b < a.ip ==>
                   exists id :: id in vms && !vms[id].deleted && vms[id].server == server && vms[id].ip == b
            else
              range.masklen >= 2 ==> forall b :: Candidate(b, range) ==>
                exists id :: id in vms && !vms[id].deleted && vms[id].server == server && vms[id].ip == b
  {
    hide NextIp, Candidate;
    var taken := LiveIps(vms, server);
    if NextIp(taken, range).Free? {
      FoundIsLeast(taken, range);
      assert forall id :: id in vms && !vms[id].deleted && vms[id].server == server ==> vms[id].ip in taken;
    } else if range.masklen >= 2 {
      AllTaken(taken, range);
    }
  }

  /** The statements of VMCreate that find an address, and those that find none. */
  function Creating(sid: SessionId, server: ServerId, vm: VmId): seq<Event> {
    [Open(sid)] + ([Choose(sid, server)] + ([Lock(sid)] + ([Allocate(sid)] + ([Insert(sid, vm)] + ([Commit(sid)] + [])))))
  }

  function Refusing(sid: SessionId, server: ServerId): seq<Event> {
    [Open(sid)] + ([Choose(sid, server)] + ([Lock(sid)] + ([Allocate(sid)] + ([Abort(sid)] + []))))
  }

  /** The state in which the transaction holds the lock and has asked for an address. */
  ghost function Asked(s: State, sid: SessionId, server: ServerId): State
    requires server in s.servers
  {
    var a := NextIp(LiveIps(s.vms, server), s.servers[server]);
    var tx := Tx({}, map[], Some((server, s.servers[server])), if a.Free? then Some(a.ip) else None);
    s.(txs := s.txs[sid := tx], vmLock := Some(sid))
  }

  lemma Asking(s: State, sid: SessionId, server: ServerId, es: seq<Event>)
    requires sid !in s.txs && s.vmLock.None? && server in s.servers && Possible(Asked(s, sid, server), es)
    ensures var all := [Open(sid)] + ([Choose(sid, server)] + ([Lock(sid)] + ([Allocate(sid)] + es)));
            Possible(s, all) && After(s, all) == After(Asked(s, sid, server), es)
  {
    hide NextIp, LiveIps, AddressPlan.Apply, Possible, After;
    var a := Next(s, Open(sid));
    var b := Next(a, Choose(sid, server));
    var c := Next(b, Lock(sid));
    NoChange(s.vms, c.txs[sid]);
    assert Next(c, Allocate(sid)) == Asked(s, sid, server);
    Then(c, Allocate(sid), es);
    Then(b, Lock(sid), [Allocate(sid)] + es);
    Then(a, Choose(sid, server), [Lock(sid)] + ([Allocate(sid)] + es));
    Then(s, Open(sid), [Choose(sid, server)] + ([Lock(sid)] + ([Allocate(sid)] + es)));
  }

  lemma Creates(s: State, sid: SessionId, server: ServerId, vm: VmId)
    requires sid !in s.txs && s.vmLock.None? && server in s.servers && vm !in s.vms
    requires NextIp(LiveIps(s.vms, server), s.servers[server]).Free?
    ensures var ip := NextIp(LiveIps(s.vms, server), s.servers[server]).ip;
            && Possible(s, Creating(sid, server, vm))
            && After(s, Creating(sid, server, vm)) == s.(vms := s.vms[vm := Vm(server, ip, false)])
  {
    hide NextIp, LiveIps, Possible, After;
    var ip := NextIp(LiveIps(s.vms, server), s.servers[server]).ip;
    var a := Asked(s, sid, server);
    var b := Next(a, Insert(sid, vm));
    assert AddressPlan.Apply(s.vms, b.txs[sid]) == s.vms[vm := Vm(server, ip, false)];
    assert Next(b, Commit(sid)) == s.(vms := s.vms[vm := Vm(server, ip, false)], txs := s.txs[sid := b.txs[sid]] - {sid});
    assert s.txs[sid := b.txs[sid]] - {sid} == s.txs;
    Nothing(Next(b, Commit(sid)));
    Then(b, Commit(sid), []);
    Then(a, Insert(sid, vm), [Commit(sid)] + []);
    Asking(s, sid, server, [Insert(sid, vm)] + ([Commit(sid)] + []));
  }

  lemma Refuses(s: State, sid: SessionId, server: ServerId)
    requires sid !in s.txs && s.vmLock.None? && server in s.servers
    ensures Possible(s, Refusing(sid, server)) && After(s, Refusing(sid, server)) == s
  {
    hide NextIp, LiveIps, Possible, After;
    var a := Asked(s, sid, server);
    assert s.txs[sid := a.txs[sid]] - {sid} == s.txs;
    assert Next(a, Abort(sid)) == s;
    Nothing(s);
    Then(a, Abort(sid), []);
    Asking(s, sid, server, [Abort(sid)] + []);
  }

  ghost function Allocated(s: State, sid: SessionId, me: ServerId, top: Option<Range>): State {
    s.(regs := s.regs[sid := Registration(me, NextRange(s.query, top))], regLock := Some(sid))
  }

  lemma Registering(s: State, sid: SessionId, me: ServerId, top: Option<Range>, es: seq<Event>)
    requires sid !in s.regs && s.regLock.None? && IsTop(top, s.servers.Values)
    requires Possible(Allocated(s, sid, me, top), es)
    ensures var all := [OpenRegistration(sid, me)] + ([LockRegistration(sid)] + ([AllocateRange(sid, top)] + es));
            Possible(s, all) && After(s, all) == After(Allocated(s, sid, me, top), es)
  {
    hide NextRange, IsTop, Possible, After;
    var a := Next(s, OpenRegistration(sid, me));
    var b := Next(a, LockRegistration(sid));
    assert Next(b, AllocateRange(sid, top)) == Allocated(s, sid, me, top);
    Then(b, AllocateRange(sid, top), es);
    Then(a, LockRegistration(sid), [AllocateRange(sid, top)] + es);
    Then(s, OpenRegistration(sid, me), [LockRegistration(sid)] + ([AllocateRange(sid, top)] + es));
  }

  lemma Registers(s: State, sid: SessionId, me: ServerId, top: Option<Range>)
    requires sid !in s.regs && s.regLock.None? && IsTop(top, s.servers.Values) && me !in s.servers
    ensures var end := if NextRange(s.query, top).Some? then CommitRegistration(sid) else AbortRegistration(sid);
            var all := [OpenRegistration(sid, me)] + ([LockRegistration(sid)] + ([AllocateRange(sid, top)] + ([end] + [])));
            && Possible(s, all)
            && After(s, all) == if NextRange(s.query, top).None? then s
                 else s.(servers := s.servers[me := NextRange(s.query, top).value], order := s.order + [me])
  {
    hide NextRange, IsTop, Possible, After;
    var a := Allocated(s, sid, me, top);
    var end := if NextRange(s.query, top).Some? then CommitRegistration(sid) else AbortRegistration(sid);
    assert a.regs - {sid} == s.regs;
    Nothing(Next(a, end));
    Then(a, end, []);
    Registering(s, sid, me, top, [end] + []);
  }

  class Store {
    const query: Query
    var servers: map<ServerId, Range>
    var vms: map<VmId, Vm>
    ghost var order: seq<ServerId>
    ghost var regs: map<SessionId, Registration>
    ghost var regLock: Option<SessionId>
    ghost var txs: map<SessionId, Tx>
    ghost var vmLock: Option<SessionId>

    ghost function Abs(): State
      reads this
    {
      State(query, servers, order, regs, regLock, vms, txs, vmLock)
    }

    /** The server is the one asked for, or the one found to be least loaded. */
    method VMCreate(ghost sid: SessionId, server: ServerId, vm: VmId) returns (created: Option<Vm>, ghost es: seq<Event>)
      requires sid !in txs && vmLock.None? && vm !in vms
      modifies this`vms
      ensures Possible(old(Abs()), es) && After(old(Abs()), es) == Abs()
      ensures created.Some? <==> server in servers && NextIp(LiveIps(old(vms), server), servers[server]).Free?
      ensures created.Some? ==> created.value == Vm(server, NextIp(LiveIps(old(vms), server), servers[server]).ip, false)
      ensures vms == if created.Some? then old(vms)[vm := created.value] else old(vms)
    {
      hide Possible, After;
      if server !in servers {
        Nothing(Abs());
        return None, [];
      }
      var ip := NextIp(LiveIps(vms, server), servers[server]);
      if !ip.Free? {
        Refuses(Abs(), sid, server);
        return None, Refusing(sid, server);
      }
      Creates(Abs(), sid, server, vm);
      es := Creating(sid, server, vm);
      created := Some(Vm(server, ip.ip, false));
      vms := vms[vm := created.value];
    }

    /** `ORDER BY ip_range DESC LIMIT 1` */
    method TopRange() returns (top: Option<Range>)
      ensures IsTop(top, servers.Values)
    {
      top := None;
      var left := servers.Keys;
      while left != {}
        invariant left <= servers.Keys
        invariant top.None? ==> left == servers.Keys
        invariant top.Some? ==> top.value in servers.Values
        invariant top.Some? ==> forall x :: x in servers.Keys - left ==> servers[x].base <= top.value.base
        decreases left
      {
        var x :| x in left;
        if top.None? || servers[x].base > top.value.base {
          top := Some(servers[x]);
        }
        left := left - {x};
      }
    }

    /** A known server keeps its range; a new one gets the next, which is the range of its
        position in the order of registration, unless the address space is used up. */
    method RegisterServer(ghost sid: SessionId, me: ServerId) returns (range: Option<Range>, ghost es: seq<Event>)
      requires sid !in regs && regLock.None? && OrderInv(Abs())
      modifies this`servers, this`order
      ensures Possible(old(Abs()), es) && After(old(Abs()), es) == Abs() && OrderInv(Abs())
      ensures me in old(servers) ==> range == Some(old(servers)[me]) && servers == old(servers)
      ensures me !in old(servers) && range.Some? ==>
                && range.value == NthRange(query, |old(order)|)
                && servers == old(servers)[me := range.value] && order == old(order) + [me]
      ensures range.None? <==> me !in old(servers) && NthRange(query, |old(order)|).base >= ADDRESSES
      ensures range.None? ==> servers == old(servers) && order == old(order)
    {
      hide Possible, After, NthRange, NextRange;
      if me in servers {
        Nothing(Abs());
        return Some(servers[me]), [];
      }
      var top := TopRange();
      TopIsLast(Abs(), top);
      Registers(Abs(), sid, me, top);
      range := NextRange(query, top);
      ghost var end := if range.Some? then CommitRegistration(sid) else AbortRegistration(sid);
      es := [OpenRegistration(sid, me)] + ([LockRegistration(sid)] + ([AllocateRange(sid, top)] + ([end] + [])));
      if range.Some? {
        servers := servers[me := range.value];
        order := order + [me];
      }
    }
  }
}
