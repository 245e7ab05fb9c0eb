/** Verification of custom domains: concurrent runs of reconcileDomain, each a
    read, a find, one soft-delete per conflict and a mark, interleaved with one
    another and with what users do to their domains. */
module DomainVerification {

  datatype Option<+T> = None | Some(value: T)

  type DomainId = nat
  type RunId = nat
  type Time = nat

  /** A row of the domains table. `activatedAt` and `provenAt` are history: when
      the row was last created or resurrected, and the time of the find on which
      its last verification rests. */
  datatype Row = Row(name: string, active: bool, verified: bool, activatedAt: Time, provenAt: Time)

  /** `readAt` and `foundAt` are history as well. */
  datatype Pc =
    | Read
    | Check(name: string, readAt: Time)
    | Find(name: string, readAt: Time)
    | Conflicts(name: string, pending: set<DomainId>, readAt: Time, foundAt: Time)

  datatype Run = Run(domain: DomainId, pc: Pc)

  /** `now` counts steps. */
  datatype State = State(now: Time, rows: map<DomainId, Row>, runs: map<RunId, Run>)

  datatype Event =
    | Create(domain: DomainId, name: string)
    | UserDelete(domain: DomainId)
    | Resurrect(domain: DomainId)
    | Begin(run: RunId, domain: DomainId)
    | ReadRow(run: RunId)
    | DnsMatches(run: RunId)
    | FindConflicts(run: RunId)
    | DeleteConflict(run: RunId, conflict: DomainId)
    | MarkVerified(run: RunId)
    | Abandon(run: RunId)

  /** DomainFindActiveByName */
  function ActiveByName(rows: map<DomainId, Row>, name: string, except: DomainId): set<DomainId> {
    set d | d in rows && d != except && rows[d].name == name && rows[d].active
  }

  predicate At(s: State, run: RunId) {
    run in s.runs
  }

  predicate Enabled(s: State, e: Event) {
    match e
    case Create(d, _) => d !in s.rows
    case UserDelete(d) => d in s.rows && s.rows[d].active
    case Resurrect(d) => d in s.rows && !s.rows[d].active
    case Begin(run, _) => run !in s.runs
    case ReadRow(run) => run in s.runs && s.runs[run].pc.Read?
    case DnsMatches(run) => run in s.runs && s.runs[run].pc.Check?
    case FindConflicts(run) => run in s.runs && s.runs[run].pc.Find?
    case DeleteConflict(run, d) =>
      run in s.runs && s.runs[run].pc.Conflicts? && d in s.runs[run].pc.pending && d in s.rows
    case MarkVerified(run) =>
      run in s.runs && s.runs[run].pc.Conflicts? && s.runs[run].pc.pending == {} && s.runs[run].domain in s.rows
    case Abandon(run) => run in s.runs
  }

  function Apply(s: State, e: Event): State
    requires Enabled(s, e)
  {
    match e
    case Create(d, name) => s.(rows := s.rows[d := Row(name, true, false, s.now, 0)])
    case UserDelete(d) => s.(rows := s.rows[d := s.rows[d].(active := false)])
    case Resurrect(d) =>
      s.(rows := s.rows[d := s.rows[d].(active := true, verified := false, activatedAt := s.now)])
    case Begin(run, d) => s.(runs := s.runs[run := Run(d, Read)])
    case ReadRow(run) =>
      var d := s.runs[run].domain;
      // a deleted row is skipped, and so is, after the checks, a verified one
      if d !in s.rows || !s.rows[d].active || s.rows[d].verified then s.(runs := s.runs - {run})
      else s.(runs := s.runs[run := Run(d, Check(s.rows[d].name, s.now))])
    case DnsMatches(run) =>
      var r := s.runs[run];
      s.(runs := s.runs[run := r.(pc := Find(r.pc.name, r.pc.readAt))])
    case FindConflicts(run) =>
      var r := s.runs[run];
      var pending := ActiveByName(s.rows, r.pc.name, r.domain);
      s.(runs := s.runs[run := r.(pc := Conflicts(r.pc.name, pending, r.pc.readAt, s.now))])
    case DeleteConflict(run, d) =>
      var r := s.runs[run];
      s.(rows := s.rows[d := s.rows[d].(active := false, verified := false)],
         runs := s.runs[run := r.(pc := r.pc.(pending := r.pc.pending - {d}))])
    case MarkVerified(run) =>
      var r := s.runs[run];
      s.(rows := s.rows[r.domain := s.rows[r.domain].(verified := true, provenAt := r.pc.foundAt)],
         runs := s.runs - {run})
    case Abandon(run) => s.(runs := s.runs - {run})
  }

  function Next(s: State, e: Event): State
    requires Enabled(s, e)
  {
    Apply(s, e).(now := s.now + 1)
  }

  // ---------------------------------------------------------------------
  // Invariants of every interleaving
  // ---------------------------------------------------------------------

  predicate Serving(s: State, d: DomainId) {
    d in s.rows && s.rows[d].active && s.rows[d].verified
  }

  predicate Rivals(s: State, d: DomainId, other: DomainId) {
    d in s.rows && other in s.rows && d != other && s.rows[d].name == s.rows[other].name
  }

  ghost predicate TimesInv(s: State) {
    && s.now > 0
    && (forall d :: d in s.rows ==> s.rows[d].activatedAt < s.now && s.rows[d].provenAt < s.now)
    && (forall run :: run in s.runs && !s.runs[run].pc.Read? ==>
          && s.runs[run].domain in s.rows
          && s.rows[s.runs[run].domain].name == s.runs[run].pc.name
          && s.runs[run].pc.readAt < s.now)
    && (forall run :: run in s.runs && s.runs[run].pc.Conflicts? ==>
          s.runs[run].pc.readAt < s.runs[run].pc.foundAt < s.now)
  }

  /** A run still holds as pending every rival that was active at its find and
      has stayed so. */
  ghost predicate PendingInv(s: State) {
    forall run, other ::
      (run in s.runs && s.runs[run].pc.Conflicts? && Rivals(s, s.runs[run].domain, other)
       && s.rows[other].active && s.rows[other].activatedAt < s.runs[run].pc.foundAt) ==>
        other in s.runs[run].pc.pending
  }

  /** Whatever is active beside a serving domain was activated after the find on
      which its verification rests, and it was itself activated before. */
  ghost predicate ProofInv(s: State) {
    && (forall d :: Serving(s, d) ==> s.rows[d].activatedAt < s.rows[d].provenAt)
    && (forall d, other :: Serving(s, d) && Rivals(s, d, other) && s.rows[other].active ==>
          s.rows[other].activatedAt >= s.rows[d].provenAt)
  }

  /** The run about to mark its row verified read the row before it was last activated. */
  predicate Tainted(s: State, run: RunId) {
    && run in s.runs && s.runs[run].pc.Conflicts? && s.runs[run].domain in s.rows
    && s.rows[s.runs[run].domain].active
    && s.rows[s.runs[run].domain].activatedAt >= s.runs[run].pc.readAt
  }

  ghost predicate AtMostOneServing(s: State) {
    forall d, other :: Serving(s, d) && Serving(s, other) && Rivals(s, d, other) ==> false
  }

  /** A find holds exactly the other active rows of the name that was read. */
  lemma FindHolds(s: State, run: RunId, x: DomainId)
    requires Enabled(s, FindConflicts(run))
    ensures var t := Next(s, FindConflicts(run));
            && run in t.runs && t.runs[run].pc.Conflicts? && t.rows == s.rows
            && (x in t.runs[run].pc.pending <==>
                  x in s.rows && x != s.runs[run].domain && s.rows[x].name == s.runs[run].pc.name && s.rows[x].active)
  {
  }

  /** A row in the table is changed by its user, by a run whose find holds it, which takes its
      activity and its verification, or by a run of its own, which verifies it. Names stay. */
  lemma RowChangedBy(s: State, e: Event, d: DomainId)
    requires Enabled(s, e) && d in s.rows
    ensures d in Next(s, e).rows && Next(s, e).rows[d].name == s.rows[d].name
    ensures var was, now := s.rows[d], Next(s, e).rows[d];
            || now == was
            || (e == UserDelete(d) && now == was.(active := false))
            || (e == Resurrect(d) && now == was.(active := true, verified := false, activatedAt := s.now))
            || (e.DeleteConflict? && e.conflict == d && d in s.runs[e.run].pc.pending
                && now == was.(active := false, verified := false))
            || (e.MarkVerified? && s.runs[e.run].domain == d && s.runs[e.run].pc.pending == {}
                && now == was.(verified := true, provenAt := s.runs[e.run].pc.foundAt))
  {
  }

  /** So a domain only comes to serve by the mark of a run of its own. */
  lemma ServesByMark(s: State, e: Event, d: DomainId)
    requires Enabled(s, e) && Serving(Next(s, e), d) && !Serving(s, d)
    ensures e.MarkVerified? && e.run in s.runs && s.runs[e.run].domain == d && s.rows[d].active
  {
    if d in s.rows { RowChangedBy(s, e, d); }
  }

  lemma TimesStep(s: State, e: Event)
    requires TimesInv(s) && Enabled(s, e)
    ensures TimesInv(Next(s, e))
  {
    hide TimesInv;
    if e.Create? || e.UserDelete? || e.Resurrect? || e.DeleteConflict? || e.MarkVerified? {
      WriteTimes(s, e);
    } else {
      ReadTimes(s, e);
    }
  }

  lemma WriteTimes(s: State, e: Event)
    requires TimesInv(s) && Enabled(s, e)
    requires e.Create? || e.UserDelete? || e.Resurrect? || e.DeleteConflict? || e.MarkVerified?
    ensures TimesInv(Next(s, e))
  {
  }

  lemma ReadTimes(s: State, e: Event)
    requires TimesInv(s) && Enabled(s, e)
    requires !e.Create? && !e.UserDelete? && !e.Resurrect? && !e.DeleteConflict? && !e.MarkVerified?
    ensures TimesInv(Next(s, e))
  {
  }

  lemma PendingStep(s: State, e: Event)
    requires TimesInv(s) && PendingInv(s) && Enabled(s, e)
    ensures PendingInv(Next(s, e))
  {
    hide PendingInv, TimesInv;
    if e.Create? || e.UserDelete? || e.Resurrect? {
      UserPending(s, e);
    } else if e.DeleteConflict? || e.MarkVerified? {
      WritePending(s, e);
    } else {
      RunPending(s, e);
    }
  }

  lemma UserPending(s: State, e: Event)
    requires TimesInv(s) && PendingInv(s) && Enabled(s, e) && (e.Create? || e.UserDelete? || e.Resurrect?)
    ensures PendingInv(Next(s, e))
  {
  }

  lemma WritePending(s: State, e: Event)
    requires TimesInv(s) && PendingInv(s) && Enabled(s, e) && (e.DeleteConflict? || e.MarkVerified?)
    ensures PendingInv(Next(s, e))
  {
  }

  lemma RunPending(s: State, e: Event)
    requires TimesInv(s) && PendingInv(s) && Enabled(s, e)
    requires e.Begin? || e.ReadRow? || e.DnsMatches? || e.FindConflicts? || e.Abandon?
    ensures PendingInv(Next(s, e))
  {
  }

  lemma MarkProof(s: State, run: RunId)
    requires TimesInv(s) && PendingInv(s) && ProofInv(s) && Enabled(s, MarkVerified(run)) && !Tainted(s, run)
    ensures ProofInv(Next(s, MarkVerified(run)))
  {
  }

  lemma OtherProof(s: State, e: Event)
    requires TimesInv(s) && ProofInv(s) && Enabled(s, e) && !e.MarkVerified?
    ensures ProofInv(Next(s, e))
  {
    hide ProofInv, TimesInv;
    if e.Create? || e.UserDelete? || e.Resurrect? {
      UserProof(s, e);
    } else if e.DeleteConflict? {
      DeleteProof(s, e.run, e.conflict);
    } else {
      assert Next(s, e).rows == s.rows;
      SameRowsProof(s, Next(s, e));
    }
  }

  lemma UserProof(s: State, e: Event)
    requires TimesInv(s) && ProofInv(s) && Enabled(s, e) && (e.Create? || e.UserDelete? || e.Resurrect?)
    ensures ProofInv(Next(s, e))
  {
  }

  lemma DeleteProof(s: State, run: RunId, d: DomainId)
    requires ProofInv(s) && Enabled(s, DeleteConflict(run, d))
    ensures ProofInv(Next(s, DeleteConflict(run, d)))
  {
  }

  lemma SameRowsProof(s: State, t: State)
    requires ProofInv(s) && t.rows == s.rows
    ensures ProofInv(t)
  {
  }

  lemma ProofStep(s: State, e: Event)
    requires TimesInv(s) && PendingInv(s) && ProofInv(s) && Enabled(s, e)
    requires e.MarkVerified? ==> !Tainted(s, e.run)
    ensures ProofInv(Next(s, e))
  {
    hide ProofInv, TimesInv, PendingInv, Next;
    if e.MarkVerified? { MarkProof(s, e.run); } else { OtherProof(s, e); }
  }

  /** Two rivals cannot both be serving: each would have been activated after
      the other was proven, and before it was proven itself. */
  lemma ProofImpliesOne(s: State)
    requires ProofInv(s)
    ensures AtMostOneServing(s)
  {
  }

  // ---------------------------------------------------------------------
  // Histories
  // ---------------------------------------------------------------------

  datatype History = History(states: seq<State>, events: seq<Event>)

  const START: State := State(1, map[], map[])

  ghost predicate IsHistory(h: History) {
    && |h.states| == |h.events| + 1
    && h.states[0] == START
    && forall i :: 0 <= i < |h.events| ==>
         Enabled(h.states[i], h.events[i]) && h.states[i + 1] == Next(h.states[i], h.events[i])
  }

  lemma {:induction false} HistoryInv(h: History, k: nat)
    requires IsHistory(h) && k < |h.states|
    ensures TimesInv(h.states[k]) && PendingInv(h.states[k])
  {
    if k > 0 {
      HistoryInv(h, k - 1);
      TimesStep(h.states[k - 1], h.events[k - 1]);
      PendingStep(h.states[k - 1], h.events[k - 1]);
    }
  }

  /** Of two active rivals that have both done their find, one still holds the
      other as a pending delete, as long as neither was resurrected under its run. */
  lemma RivalsStillPending(h: History, k: nat, run: RunId, other: RunId)
    requires IsHistory(h) && k < |h.states|
    requires var s := h.states[k];
             && run in s.runs && s.runs[run].pc.Conflicts? && other in s.runs && s.runs[other].pc.Conflicts?
             && Rivals(s, s.runs[run].domain, s.runs[other].domain)
             && s.rows[s.runs[run].domain].active && s.rows[s.runs[other].domain].active
             && !Tainted(s, run) && !Tainted(s, other)
    ensures var s := h.states[k];
            || s.runs[other].domain in s.runs[run].pc.pending
            || s.runs[run].domain in s.runs[other].pc.pending
  {
    HistoryInv(h, k);
  }

  /** No mark so far was made by a run whose row had been resurrected under it. */
  ghost predicate Untainted(h: History, k: nat) {
    forall i :: 0 <= i < k && i < |h.events| && i < |h.states| && h.events[i].MarkVerified? ==>
      !Tainted(h.states[i], h.events[i].run)
  }

  lemma {:induction false} HistoryProof(h: History, k: nat)
    requires IsHistory(h) && k < |h.states| && Untainted(h, k)
    ensures ProofInv(h.states[k])
  {
    if k > 0 {
      HistoryProof(h, k - 1);
      HistoryInv(h, k - 1);
      ProofStep(h.states[k - 1], h.events[k - 1]);
    }
  }

  /** At most one domain per name is active and verified, in every interleaving
      in which no run marks a row that was resurrected under it. */
  lemma OneVerifiedPerName(h: History, k: nat)
    requires IsHistory(h) && k < |h.states| && Untainted(h, k)
    ensures AtMostOneServing(h.states[k])
  {
    HistoryProof(h, k);
    ProofImpliesOne(h.states[k]);
  }

  lemma MarkAlone(s: State, run: RunId)
    requires AtMostOneServing(s) && Enabled(s, MarkVerified(run))
    requires !exists rival :: Serving(s, rival) && Rivals(s, s.runs[run].domain, rival)
    ensures AtMostOneServing(Next(s, MarkVerified(run)))
  {
    var t := Next(s, MarkVerified(run));
    forall d, other | Serving(t, d) && Serving(t, other) && Rivals(t, d, other) ensures false {
      var marked := s.runs[run].domain;
      if d == marked { assert Serving(s, other) && Rivals(s, marked, other); }
      else if other == marked { assert Serving(s, d) && Rivals(s, marked, d); }
      else { assert Serving(s, d) && Serving(s, other) && Rivals(s, d, other); }
    }
  }

  /** The mark that first breaks uniqueness is exactly one of a tainted run
      while a rival is serving. */
  lemma MarkBreaksExactly(h: History, k: nat)
    requires IsHistory(h) && k < |h.events| && Untainted(h, k) && h.events[k].MarkVerified?
    ensures var s, run := h.states[k], h.events[k].run;
            AtMostOneServing(h.states[k + 1]) <==>
              !(Tainted(s, run) && exists rival :: Serving(s, rival) && Rivals(s, s.runs[run].domain, rival))
  {
    var s, run := h.states[k], h.events[k].run;
    var t := h.states[k + 1];
    var d := s.runs[run].domain;
    HistoryInv(h, k);
    OneVerifiedPerName(h, k);
    if !Tainted(s, run) {
      HistoryProof(h, k);
      ProofStep(s, h.events[k]);
      ProofImpliesOne(t);
    } else if rival :| Serving(s, rival) && Rivals(s, d, rival) {
      assert Serving(t, d) && Serving(t, rival) && Rivals(t, d, rival);
    } else {
      MarkAlone(s, run);
    }
  }

  // ---------------------------------------------------------------------
  // Resurrections that keep clear of runs in flight taint none
  // ---------------------------------------------------------------------

  predicate InFlight(s: State, d: DomainId) {
    exists run :: run in s.runs && s.runs[run].domain == d && !s.runs[run].pc.Read?
  }

  /** A run has read its row after that row was last activated. */
  ghost predicate FreshReads(s: State) {
    forall run :: run in s.runs && !s.runs[run].pc.Read? ==>
      s.runs[run].domain in s.rows && s.rows[s.runs[run].domain].activatedAt < s.runs[run].pc.readAt
  }

  lemma FreshStep(s: State, e: Event)
    requires TimesInv(s) && FreshReads(s) && Enabled(s, e)
    requires e.Resurrect? ==> !InFlight(s, e.domain)
    ensures FreshReads(Next(s, e))
  {
  }

  lemma {:induction false} QuietResurrections(h: History, k: nat)
    requires IsHistory(h) && k < |h.states|
    requires forall i :: 0 <= i < k && h.events[i].Resurrect? ==> !InFlight(h.states[i], h.events[i].domain)
    ensures FreshReads(h.states[k]) && Untainted(h, k)
  {
    if k > 0 {
      QuietResurrections(h, k - 1);
      HistoryInv(h, k - 1);
      FreshStep(h.states[k - 1], h.events[k - 1]);
    }
  }

  /** If no row is resurrected while a run of it is in flight, at most one
      active domain per name is ever verified. */
  lemma OneVerifiedWithoutResurrection(h: History, k: nat)
    requires IsHistory(h) && k < |h.states|
    requires forall i :: 0 <= i < k && h.events[i].Resurrect? ==> !InFlight(h.states[i], h.events[i].domain)
    ensures AtMostOneServing(h.states[k])
  {
    QuietResurrections(h, k);
    OneVerifiedPerName(h, k);
  }

  // ---------------------------------------------------------------------
  // A resurrection in flight does break uniqueness
  // ---------------------------------------------------------------------

  /** Where the table is after these events, if each of them is possible. */
  function Replay(s: State, events: seq<Event>): Option<State>
    decreases |events|
  {
    if events == [] then Some(s)
    else
      var before, last := Replay(s, events[..|events| - 1]), events[|events| - 1];
      if before.Some? && Enabled(before.value, last) then Some(Next(before.value, last)) else None
  }

  lemma ReplayOne(s: State, events: seq<Event>, t: State, e: Event)
    requires Replay(s, events) == Some(t) && Enabled(t, e)
    ensures Replay(s, events + [e]) == Some(Next(t, e))
  {
    assert (events + [e])[..|events|] == events;
  }

  lemma {:induction false} ReplayIsHistory(events: seq<Event>, t: State)
    requires Replay(START, events) == Some(t)
    ensures exists h :: IsHistory(h) && h.events == events && h.states[|events|] == t
    decreases |events|
  {
    if events == [] {
      assert IsHistory(History([START], []));
    } else {
      var n := |events| - 1;
      var before := Replay(START, events[..n]).value;
      ReplayIsHistory(events[..n], before);
      var h :| IsHistory(h) && h.events == events[..n] && h.states[n] == before;
      assert events == h.events + [events[n]];
      Extended(h, events[n], t);
    }
  }

  lemma Extended(h: History, e: Event, t: State)
    requires IsHistory(h) && Enabled(h.states[|h.events|], e) && t == Next(h.states[|h.events|], e)
    ensures var longer := History(h.states + [t], h.events + [e]);
            IsHistory(longer) && longer.states[|longer.events|] == t
  {
    hide Enabled, Next;
  }

  lemma Then(es: seq<Event>, s: State, e: Event, t: State) returns (es': seq<Event>)
    requires Replay(START, es) == Some(s) && Enabled(s, e) && t == Next(s, e)
    ensures Replay(START, es') == Some(t)
  {
    ReplayOne(START, es, s, e);
    es' := es + [e];
  }

  const FIRST_ROW: map<DomainId, Row> := map[0 := Row("n", true, false, 1, 0)]

  lemma FirstProjectReads() returns (es: seq<Event>)
    ensures Replay(START, es) == Some(State(4, FIRST_ROW, map[0 := Run(0, Check("n", 3))]))
  {
    assert Replay(START, []) == Some(START);
    hide Replay;
    es := Then([], START, Create(0, "n"), State(2, FIRST_ROW, map[]));
    es := Then(es, State(2, FIRST_ROW, map[]), Begin(0, 0), State(3, FIRST_ROW, map[0 := Run(0, Read)]));
    es := Then(es, State(3, FIRST_ROW, map[0 := Run(0, Read)]), ReadRow(0), State(4, FIRST_ROW, map[0 := Run(0, Check("n", 3))]));
  }

  /** Project 0 verifies the name "n" up to its find; then its user deletes the row. */
  lemma FirstProject() returns (es: seq<Event>)
    ensures Replay(START, es) ==
            Some(State(7, map[0 := Row("n", false, false, 1, 0)], map[0 := Run(0, Conflicts("n", {}, 3, 5))]))
  {
    hide Replay;
    es := FirstProjectReads();
    var rows := FIRST_ROW;
    var find := State(5, rows, map[0 := Run(0, Find("n", 3))]);
    es := Then(es, State(4, rows, map[0 := Run(0, Check("n", 3))]), DnsMatches(0), find);
    assert ActiveByName(rows, "n", 0) == {};
    var found := State(6, rows, map[0 := Run(0, Conflicts("n", {}, 3, 5))]);
    es := Then(es, find, FindConflicts(0), found);
    es := Then(es, found, UserDelete(0), found.(now := 7, rows := map[0 := Row("n", false, false, 1, 0)]));
  }

  /** The two rows, the first one deleted, and the first run still waiting to mark. */
  function BothRows(second: Row): map<DomainId, Row> {
    map[0 := Row("n", false, false, 1, 0), 1 := second]
  }

  const WAITING: Run := Run(0, Conflicts("n", {}, 3, 5))

  lemma SecondProjectReads() returns (es: seq<Event>)
    ensures Replay(START, es) ==
            Some(State(10, BothRows(Row("n", true, false, 7, 0)), map[0 := WAITING, 1 := Run(1, Check("n", 9))]))
  {
    hide Replay;
    es := FirstProject();
    var rows := BothRows(Row("n", true, false, 7, 0));
    es := Then(es, State(7, map[0 := Row("n", false, false, 1, 0)], map[0 := WAITING]), Create(1, "n"),
               State(8, rows, map[0 := WAITING]));
    var s9 := State(9, rows, map[0 := WAITING, 1 := Run(1, Read)]);
    es := Then(es, State(8, rows, map[0 := WAITING]), Begin(1, 1), s9);
    es := Then(es, s9, ReadRow(1), State(10, rows, map[0 := WAITING, 1 := Run(1, Check("n", 9))]));
  }

  /** Project 1 gets the same name verified meanwhile. */
  lemma SecondProject() returns (es: seq<Event>)
    ensures Replay(START, es) == Some(State(13, BothRows(Row("n", true, true, 7, 11)), map[0 := WAITING]))
  {
    hide Replay;
    es := SecondProjectReads();
    var rows := BothRows(Row("n", true, false, 7, 0));
    var s10 := State(10, rows, map[0 := WAITING, 1 := Run(1, Check("n", 9))]);
    var s11 := State(11, rows, map[0 := WAITING, 1 := Run(1, Find("n", 9))]);
    es := Then(es, s10, DnsMatches(1), s11);
    assert ActiveByName(rows, "n", 1) == {};
    var s12 := State(12, rows, map[0 := WAITING, 1 := Run(1, Conflicts("n", {}, 9, 11))]);
    es := Then(es, s11, FindConflicts(1), s12);
    assert s12.runs - {1} == map[0 := WAITING];
    es := Then(es, s12, MarkVerified(1), State(13, BothRows(Row("n", true, true, 7, 11)), map[0 := WAITING]));
  }

  /** Then the first row is brought back and its run, still in flight, marks it:
      two projects serve one name. */
  lemma ResurrectionInFlightBreaksUniqueness()
    ensures exists h, k: nat :: IsHistory(h) && k < |h.states| && !AtMostOneServing(h.states[k])
  {
    hide Replay;
    var es := SecondProject();
    var s13 := State(13, BothRows(Row("n", true, true, 7, 11)), map[0 := WAITING]);
    var s14 := State(14, s13.rows[0 := Row("n", true, false, 13, 0)], map[0 := WAITING]);
    es := Then(es, s13, Resurrect(0), s14);
    var s15 := State(15, s14.rows[0 := Row("n", true, true, 13, 5)], map[]);
    assert s14.runs - {0} == map[];
    es := Then(es, s14, MarkVerified(0), s15);
    ReplayIsHistory(es, s15);
    var h :| IsHistory(h) && h.events == es && h.states[|es|] == s15;
    assert Serving(s15, 0) && Serving(s15, 1) && Rivals(s15, 0, 1);
    assert !AtMostOneServing(h.states[|es|]);
  }
}
