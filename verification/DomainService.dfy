/** reconcileDomain as the code has it: a method over the domains table. Run
    without interference it takes exactly the steps of the interleaved model and
    leaves the reconciled domain as the only active one of its name. */
module DomainService {
  import opened DomainVerification

  /** The table after an undisturbed, successful verification of d. */
  function Won(rows: map<DomainId, Row>, d: DomainId, foundAt: Time): map<DomainId, Row>
    requires d in rows
  {
    map x | x in rows ::
      if x == d then rows[x].(verified := true, provenAt := foundAt)
      else if x in ActiveByName(rows, rows[d].name, d) then rows[x].(active := false, verified := false)
      else rows[x]
  }

  lemma WonIsAlone(rows: map<DomainId, Row>, d: DomainId, foundAt: Time)
    requires d in rows
    ensures ActiveByName(Won(rows, d, foundAt), rows[d].name, d) == {}
  {
  }

  /** On the rows: d is verified, every other active row of its name is neither active nor
      verified any more, and nothing else changes. */
  lemma WonIs(rows: map<DomainId, Row>, d: DomainId, foundAt: Time)
    requires d in rows
    ensures var won := Won(rows, d, foundAt);
            && won.Keys == rows.Keys
            && won[d] == rows[d].(verified := true, provenAt := foundAt)
            && forall x :: x in rows && x != d ==>
                 won[x] == if rows[x].active && rows[x].name == rows[d].name
                           then rows[x].(active := false, verified := false) else rows[x]
  {
  }

  /** The table while conflicts are being deleted and `pending` are left. */
  function PartlyWon(rows: map<DomainId, Row>, d: DomainId, pending: set<DomainId>): map<DomainId, Row>
    requires d in rows
  {
    map x | x in rows ::
      if x in ActiveByName(rows, rows[d].name, d) - pending then rows[x].(active := false, verified := false)
      else rows[x]
  }

  lemma NothingWonYet(rows: map<DomainId, Row>, d: DomainId)
    requires d in rows
    ensures PartlyWon(rows, d, ActiveByName(rows, rows[d].name, d)) == rows
  {
  }

  lemma WonAtLast(rows: map<DomainId, Row>, d: DomainId, foundAt: Time)
    requires d in rows
    ensures var w := PartlyWon(rows, d, {});
            d in w && w[d := w[d].(verified := true, provenAt := foundAt)] == Won(rows, d, foundAt)
  {
  }

  class Store {
    var rows: map<DomainId, Row>
    var now: Time
    ghost var runs: map<RunId, Run>

    ghost function Abs(): State
      reads this
    {
      State(now, rows, runs)
    }

    constructor ()
      ensures Abs() == START
    {
      rows, now, runs := map[], 1, map[];
    }

    method SoftDelete(d: DomainId)
      requires d in rows
      modifies this`rows
      ensures rows == old(rows)[d := old(rows)[d].(active := false, verified := false)]
    {
      rows := rows[d := rows[d].(active := false, verified := false)];
    }

    method ReconcileDomain(ghost run: RunId, d: DomainId, dnsMatches: bool) returns (ghost steps: seq<Event>)
      requires run !in runs
      modifies this
      ensures Replay(old(Abs()), steps) == Some(Abs())
      ensures if d in old(rows) && old(rows)[d].active && !old(rows)[d].verified && dnsMatches
              then exists t :: rows == Won(old(rows), d, t)
              else rows == old(rows)
      ensures d in old(rows) && old(rows)[d].active && !old(rows)[d].verified && dnsMatches ==>
                && rows.Keys == old(rows).Keys
                && rows[d] == old(rows)[d].(verified := true, provenAt := rows[d].provenAt)
                && forall x :: x in old(rows) && x != d ==>
                     rows[x] == if old(rows)[x].active && old(rows)[x].name == old(rows)[d].name
                                then old(rows)[x].(active := false, verified := false) else old(rows)[x]
    {
      ghost var s := Abs();
      assert Replay(s, []) == Some(s);
      hide Replay;
      runs, now := runs[run := Run(d, Read)], now + 1;
      steps := Taken(s, [], s, Begin(run, d), Abs());
      var proceed;
      proceed, steps := ReadDomain(s, steps, run, d);
      if proceed {
        if !dnsMatches {
          ghost var t := Abs();
          runs, now := runs - {run}, now + 1;
          steps := Taken(s, steps, t, Abandon(run), Abs());
          return;
        }
        steps := VerifyChecked(s, steps, run, d);
      }
    }

    method ReadDomain(ghost s: State, ghost steps0: seq<Event>, ghost run: RunId, d: DomainId)
      returns (proceed: bool, ghost steps: seq<Event>)
      requires Replay(s, steps0) == Some(Abs()) && run in runs && runs[run] == Run(d, Read)
      modifies this`runs, this`now
      ensures Replay(s, steps) == Some(Abs())
      ensures proceed <==> d in rows && rows[d].active && !rows[d].verified
      ensures proceed ==> run in runs && runs[run].domain == d && runs[run].pc.Check? && runs[run].pc.name == rows[d].name
    {
      hide Replay;
      ghost var t := Abs();
      if d !in rows || !rows[d].active || rows[d].verified {
        runs, now := runs - {run}, now + 1;
        steps := Taken(s, steps0, t, ReadRow(run), Abs());
        return false, steps;
      }
      runs, now := runs[run := Run(d, Check(rows[d].name, now))], now + 1;
      steps := Taken(s, steps0, t, ReadRow(run), Abs());
      return true, steps;
    }

    /** The loop over the conflicts found. */
    method DeleteConflicts(ghost s: State, ghost steps0: seq<Event>, ghost run: RunId, d: DomainId,
                           found: set<DomainId>, ghost start: map<DomainId, Row>)
      returns (ghost steps: seq<Event>)
      requires Replay(s, steps0) == Some(Abs())
      requires d in start && found == ActiveByName(start, start[d].name, d) && rows == PartlyWon(start, d, found)
      requires run in runs && runs[run].pc.Conflicts? && runs[run].pc.pending == found
      modifies this
      ensures Replay(s, steps) == Some(Abs())
      ensures rows == PartlyWon(start, d, {})
      ensures rows.Keys == start.Keys
              && forall x :: x in start ==>
                   rows[x] == if x in found then start[x].(active := false, verified := false) else start[x]
      ensures runs == old(runs)[run := Run(old(runs)[run].domain, old(runs)[run].pc.(pending := {}))]
    {
      hide Replay;
      steps := steps0;
      var conflicts := found;
      ghost var r := runs[run];
      while conflicts != {}
        invariant conflicts <= found
        invariant rows == PartlyWon(start, d, conflicts)
        invariant runs == old(runs)[run := r.(pc := r.pc.(pending := conflicts))]
        invariant Replay(s, steps) == Some(Abs())
        decreases conflicts
      {
        var conflict :| conflict in conflicts;
        ghost var t := Abs();
        SoftDelete(conflict);
        conflicts := conflicts - {conflict};
        runs, now := runs[run := r.(pc := r.pc.(pending := conflicts))], now + 1;
        steps := Taken(s, steps, t, DeleteConflict(run, conflict), Abs());
      }
    }

    method VerifyChecked(ghost s: State, ghost steps0: seq<Event>, ghost run: RunId, d: DomainId)
      returns (ghost steps: seq<Event>)
      requires Replay(s, steps0) == Some(Abs())
      requires d in rows && run in runs && runs[run].domain == d
      requires runs[run].pc.Check? && runs[run].pc.name == rows[d].name
      modifies this
      ensures Replay(s, steps) == Some(Abs())
      ensures exists t :: rows == Won(old(rows), d, t)
      ensures rows.Keys == old(rows).Keys
              && rows[d] == old(rows)[d].(verified := true, provenAt := rows[d].provenAt)
              && forall x :: x in old(rows) && x != d ==>
                   rows[x] == if old(rows)[x].active && old(rows)[x].name == old(rows)[d].name
                              then old(rows)[x].(active := false, verified := false) else old(rows)[x]
    {
      hide Replay;
      ghost var start := rows;
      ghost var t := Abs();
      ghost var readAt := runs[run].pc.readAt;
      var name := rows[d].name;
      runs, now := runs[run := Run(d, Find(name, readAt))], now + 1;
      steps := Taken(s, steps0, t, DnsMatches(run), Abs());
      t := Abs();
      var foundAt := now;
      var conflicts := ActiveByName(rows, name, d);
      runs, now := runs[run := Run(d, Conflicts(name, conflicts, readAt, foundAt))], now + 1;
      steps := Taken(s, steps, t, FindConflicts(run), Abs());
      NothingWonYet(start, d);
      hide PartlyWon, ActiveByName;
      steps := DeleteConflicts(s, steps, run, d, conflicts, start);
      WonAtLast(start, d, foundAt);
      WonIs(start, d, foundAt);
      t := Abs();
      rows := rows[d := rows[d].(verified := true, provenAt := foundAt)];
      runs, now := runs - {run}, now + 1;
      steps := Taken(s, steps, t, MarkVerified(run), Abs());
    }
  }

  lemma Taken(s: State, steps: seq<Event>, t: State, e: Event, t': State) returns (steps': seq<Event>)
    requires Replay(s, steps) == Some(t)
    requires Enabled(t, e) && t' == Next(t, e)
    ensures Replay(s, steps') == Some(t') && steps' == steps + [e]
  {
    ReplayOne(s, steps, t, e);
    steps' := steps + [e];
  }
}
