/** When a hand-over can and cannot leave a custom domain without its deployment. */
module HandOverSafety {
  import opened HandOver

  // ---------------------------------------------------------------------
  // Runs
  // ---------------------------------------------------------------------

  ghost predicate Possible(s: State, es: seq<Event>)
    decreases |es|
  {
    es != [] ==> Enabled(s, es[0]) && Possible(Apply(s, es[0]), es[1..])
  }

  ghost function After(s: State, es: seq<Event>): State
    requires Possible(s, es)
    decreases |es|
  {
    if es == [] then s else After(Apply(s, es[0]), es[1..])
  }

  lemma {:induction false} RunInvariant(s: State, es: seq<Event>)
    requires Inv(s) && Possible(s, es)
    ensures Inv(After(s, es))
    decreases |es|
  {
    if es != [] {
      StepInv(s, es[0]);
      RunInvariant(Apply(s, es[0]), es[1..]);
    }
  }

  // ---------------------------------------------------------------------
  // Gaps and threats
  // ---------------------------------------------------------------------

  /** A hand-over has stopped the deployment or deleted the VM it now has. */
  ghost predicate Hurt(s: State, p: Id) {
    p in s.retired || (p in s.deployments && s.deployments[p].vm.Some? && s.deployments[p].vm.value in s.cut)
  }

  /** The custom domain x is served and points at deployment p. */
  predicate Points(s: State, x: Id, p: Id) {
    x in s.domains && s.domains[x].custom && s.domains[x].active && s.domains[x].deployment == Some(p)
  }

  ghost predicate GapFree(s: State) {
    forall x, p :: Points(s, x, p) ==> !Hurt(s, p)
  }

  /** Run r is going to stop p: p is on its list, or will be as soon as the list is made. */
  ghost predicate ThreatBy(s: State, r: Run, p: Id) {
    Older(s, p, r.deployment) && (p in r.Todo() || (r.stage == Finding && s.deployments[p].Findable()))
  }

  ghost predicate Threatened(s: State, p: Id) {
    Hurt(s, p) || exists i :: i in s.runs && ThreatBy(s, s.runs[i], p)
  }

  ghost predicate Safe(s: State) {
    forall x, p :: Points(s, x, p) ==> !Threatened(s, p)
  }

  /** The steps that make a domain point somewhere: a hand-over's own, and a user's bringing back
      a deleted domain, which keeps the pointer it had. Orderly means: not at a deployment some
      newer hand-over is about to stop. */
  ghost predicate Orderly(s: State, e: Event)
    requires Enabled(s, e)
  {
    match e
    case Point(run) => forall x :: Points(Apply(s, e), x, s.runs[run].deployment) ==> !Threatened(s, s.runs[run].deployment)
    case Resurrect(x) => forall p :: Points(Apply(s, e), x, p) ==> !Threatened(s, p)
    case _ => true
  }

  ghost predicate OrderlyRun(s: State, es: seq<Event>)
    requires Possible(s, es)
    decreases |es|
  {
    es != [] ==> Orderly(s, es[0]) && OrderlyRun(Apply(s, es[0]), es[1..])
  }

  // ---------------------------------------------------------------------
  // Safety
  // ---------------------------------------------------------------------

  lemma NotHurtByStep(s: State, e: Event, p: Id)
    requires Inv(s) && Enabled(s, e) && Ran(s, p) && !Threatened(s, p)
    ensures !Hurt(Apply(s, e), p)
  {
    if e.DeleteVm? || e.MarkStopped? {
      assert RunInv(s, s.runs[e.run]);
      assert !ThreatBy(s, s.runs[e.run], p);
    }
  }

  /** Only a newer deployment of the same project, by taking over the domains, puts a running
      deployment at risk. */
  lemma NoNewThreat(s: State, e: Event, p: Id)
    requires Inv(s) && Enabled(s, e) && Ran(s, p) && !Threatened(s, p)
    requires e.Point? ==> !Older(s, p, s.runs[e.run].deployment)
    ensures !Threatened(Apply(s, e), p)
  {
    NotHurtByStep(s, e, p);
    var t := Apply(s, e);
    forall i | i in t.runs
      ensures !ThreatBy(t, t.runs[i], p)
    {
      NoNewThreatBy(s, e, p, i);
    }
  }

  lemma NoNewThreatBy(s: State, e: Event, p: Id, i: Id)
    requires Enabled(s, e) && Ran(s, p) && i in Apply(s, e).runs
    requires i in s.runs ==> RunInv(s, s.runs[i]) && !ThreatBy(s, s.runs[i], p)
    requires e.Point? ==> !Older(s, p, s.runs[e.run].deployment)
    ensures !ThreatBy(Apply(s, e), Apply(s, e).runs[i], p)
  {
    if !By(e, i) { OtherRun(s, e, i); }
  }

  /** Where a domain points after a step: where it pointed, or where an orderly step sent it. */
  lemma PointedBefore(s: State, e: Event, x: Id, p: Id)
    requires Inv(s) && Enabled(s, e) && Points(Apply(s, e), x, p)
    ensures Ran(s, p)
    ensures Points(s, x, p) || e == Resurrect(x) || (e.Point? && p == s.runs[e.run].deployment)
    ensures e.Point? ==> !Older(s, p, s.runs[e.run].deployment)
  {
    assert x in s.domains ==> DomainInv(s, s.domains[x]);
    if e.Point? { assert RunInv(s, s.runs[e.run]); }
  }

  lemma SafeStep(s: State, e: Event)
    requires Inv(s) && Safe(s) && Enabled(s, e) && Orderly(s, e)
    ensures Safe(Apply(s, e))
  {
    hide Inv, Threatened, Apply, Enabled;
    var t := Apply(s, e);
    forall x, p | Points(t, x, p)
      ensures !Threatened(t, p)
    {
      PointedBefore(s, e, x, p);
      NoNewThreat(s, e, p);
    }
  }

  /** In an orderly run no hand-over, at any of its statements and however it is interrupted,
      stops the deployment that a custom domain points at or deletes its VM. */
  lemma {:induction false} OrderlyRunIsGapFree(s: State, es: seq<Event>)
    requires Inv(s) && Safe(s) && Possible(s, es) && OrderlyRun(s, es)
    ensures Safe(After(s, es)) && GapFree(After(s, es))
    decreases |es|
  {
    hide Inv, Safe, GapFree, Apply, Enabled, Orderly;
    if es != [] {
      StepInv(s, es[0]);
      SafeStep(s, es[0]);
      OrderlyRunIsGapFree(Apply(s, es[0]), es[1..]);
    } else {
      SafeHasNoGap(s);
    }
  }

  lemma SafeHasNoGap(s: State)
    requires Safe(s)
    ensures GapFree(s)
  {
    hide Hurt, ThreatBy;
  }

  /** After its pointing statement a hand-over has all the served custom domains of its project,
      and no other row has changed. */
  lemma PointTakesAll(s: State, run: Id, x: Id)
    requires Enabled(s, Point(run)) && x in s.domains
    ensures var d := s.runs[run].deployment; var t := Apply(s, Point(run));
            && x in t.domains
            && (s.domains[x].custom && s.domains[x].active && s.domains[x].project == s.deployments[d].project ==>
                  Points(t, x, d))
            && (!(s.domains[x].custom && s.domains[x].active && s.domains[x].project == s.deployments[d].project) ==>
                  t.domains[x] == s.domains[x])
            && t.deployments == s.deployments
  {
  }

  // ---------------------------------------------------------------------
  // The condition is exact
  // ---------------------------------------------------------------------

  /** No step of `es` points a domain anywhere. */
  ghost predicate Quiet(es: seq<Event>) {
    forall k :: 0 <= k < |es| ==> !es[k].Point? && !es[k].Resurrect?
  }

  lemma {:induction false} QuietIsOrderly(s: State, es: seq<Event>)
    requires Possible(s, es) && Quiet(es)
    ensures OrderlyRun(s, es)
    decreases |es|
  {
    hide Apply, Enabled;
    if es != [] {
      QuietIsOrderly(Apply(s, es[0]), es[1..]);
    }
  }

  lemma Two(s: State, e: Event, es: seq<Event>)
    requires Enabled(s, e) && Possible(Apply(s, e), es)
    ensures Possible(s, [e] + es) && After(s, [e] + es) == After(Apply(s, e), es)
  {
    hide Apply, Enabled;
    assert ([e] + es)[1..] == es;
  }

  /** A listed deployment can be stopped: at most two statements away. */
  lemma ListedCanBeStopped(s: State, i: Id, x: Id, p: Id) returns (es: seq<Event>)
    requires i in s.runs && p in s.runs[i].Todo() && p in s.deployments && Points(s, x, p)
    ensures Quiet(es) && Possible(s, es) && !GapFree(After(s, es))
    decreases if s.runs[i].stage.Marking? then 1 else 0
  {
    var g := s.runs[i].stage;
    if g.Marking? && g.q != p {
      var e := Fail(i, g.q);
      var rest := ListedCanBeStopped(Apply(s, e), i, x, p);
      Two(s, e, rest);
      es := [e] + rest;
    } else if g.Stopping? && g.left[p].Some? {
      var e := DeleteVm(i, p);
      var rest := MarkingCanFinish(Apply(s, e), i, x, p);
      Two(s, e, rest);
      es := [e] + rest;
    } else {
      es := MarkingCanFinish(s, i, x, p);
    }
  }

  lemma MarkingCanFinish(s: State, i: Id, x: Id, p: Id) returns (es: seq<Event>)
    requires i in s.runs && p in s.deployments && Points(s, x, p) && ReadyToMark(s.runs[i].stage, p)
    ensures Quiet(es) && Possible(s, es) && !GapFree(After(s, es))
  {
    var e := MarkStopped(i, p);
    es := [e];
    assert es[1..] == [];
    var t := Apply(s, e);
    assert Points(t, x, p) && Hurt(t, p);
  }

  /** A threat is real: from any state in which a domain points at a threatened deployment,
      statements of the hand-over that threatens it lead to a gap. */
  lemma ThreatComesTrue(s: State, x: Id, p: Id) returns (es: seq<Event>)
    requires Inv(s) && Points(s, x, p) && Threatened(s, p)
    ensures Quiet(es) && Possible(s, es) && !GapFree(After(s, es))
  {
    assert RunsInv(s);
    hide Inv, RunsInv, Apply, Enabled, Possible, After, GapFree, Points;
    if Hurt(s, p) {
      es := [];
      HurtIsAGap(s, x, p);
    } else {
      var i :| i in s.runs && ThreatBy(s, s.runs[i], p);
      if p in s.runs[i].Todo() {
        es := ListedCanBeStopped(s, i, x, p);
      } else {
        FoundIsListed(s, i, x, p);
        var rest := ListedCanBeStopped(Apply(s, Find(i)), i, x, p);
        Two(s, Find(i), rest);
        es := [Find(i)] + rest;
      }
    }
  }

  lemma HurtIsAGap(s: State, x: Id, p: Id)
    requires Points(s, x, p) && Hurt(s, p)
    ensures Possible(s, []) && !GapFree(After(s, []))
  {
  }

  lemma FoundIsListed(s: State, i: Id, x: Id, p: Id)
    requires RunsInv(s) && i in s.runs && ThreatBy(s, s.runs[i], p) && p !in s.runs[i].Todo() && Points(s, x, p)
    ensures Enabled(s, Find(i))
    ensures var t := Apply(s, Find(i)); i in t.runs && p in t.runs[i].Todo() && p in t.deployments && Points(t, x, p)
  {
    assert RunInv(s, s.runs[i]);
    assert p in RunningAndOlder(s, s.runs[i].deployment);
  }

  /** Exactly: a state can run into a gap without any domain being pointed elsewhere if and only
      if some domain points at a threatened deployment. */
  lemma SafeExactly(s: State)
    requires Inv(s)
    ensures Safe(s) <==> forall es :: Possible(s, es) && Quiet(es) ==> GapFree(After(s, es))
  {
    hide Inv, Possible, After, GapFree, Threatened, Points, Quiet;
    if Safe(s) {
      forall es | Possible(s, es) && Quiet(es)
        ensures GapFree(After(s, es))
      {
        QuietIsOrderly(s, es);
        OrderlyRunIsGapFree(s, es);
      }
    } else {
      var x, p :| Points(s, x, p) && Threatened(s, p);
      var es := ThreatComesTrue(s, x, p);
    }
  }

  // ---------------------------------------------------------------------
  // One hand-over at a time
  // ---------------------------------------------------------------------

  predicate SameProject(s: State, d: Id, q: Id) {
    d in s.deployments && q in s.deployments && s.deployments[d].project == s.deployments[q].project
  }

  /** At most one run per project. */
  ghost predicate Exclusive(s: State) {
    forall i, j :: i in s.runs && j in s.runs && i != j ==> !SameProject(s, s.runs[i].deployment, s.runs[j].deployment)
  }

  /** No hand-over has touched d or any VM that ever was d's. */
  ghost predicate Untouched(s: State, d: Id) {
    d !in s.retired && forall v :: v in s.cut && v in s.owner ==> s.owner[v] != d
  }

  /** A run that has not yet pointed the domains is about a deployment nobody has touched; and
      what started running during a run belongs to other projects. */
  ghost predicate Alone(s: State, r: Run) {
    && (r.stage == Checking || r.stage == Pointing ==> Untouched(s, r.deployment))
    && (forall q :: q in r.since ==> q in s.deployments && !Older(s, q, r.deployment))
  }

  ghost predicate AloneInv(s: State) {
    Exclusive(s) && forall i :: i in s.runs ==> Alone(s, s.runs[i])
  }

  lemma AloneStep(s: State, e: Event)
    requires Inv(s) && AloneInv(s) && Enabled(s, e) && Exclusive(Apply(s, e))
    ensures AloneInv(Apply(s, e))
  {
    var t := Apply(s, e);
    forall i | i in t.runs
      ensures Alone(t, t.runs[i])
    {
      AloneRun(s, e, i);
    }
  }

  lemma AloneRun(s: State, e: Event, i: Id)
    requires Inv(s) && AloneInv(s) && Enabled(s, e) && i in Apply(s, e).runs
    ensures Alone(Apply(s, e), Apply(s, e).runs[i])
  {
    if By(e, i) {
      AloneOwn(s, e, i);
    } else {
      AloneOther(s, e, i);
    }
  }

  lemma AloneOwn(s: State, e: Event, i: Id)
    requires TouchedInv(s) && Enabled(s, e) && i in Apply(s, e).runs && By(e, i)
    requires i in s.runs ==> Alone(s, s.runs[i])
    ensures Alone(Apply(s, e), Apply(s, e).runs[i])
  {
  }

  /** A statement of another run touches no deployment of this run's project. */
  lemma OthersKeepAway(s: State, e: Event, i: Id)
    requires RunsInv(s) && OwnersInv(s) && Exclusive(s) && Enabled(s, e) && i in s.runs && !By(e, i)
    requires Untouched(s, s.runs[i].deployment) && TouchedInv(s)
    ensures Untouched(Apply(s, e), s.runs[i].deployment)
  {
    var d := s.runs[i].deployment;
    assert RunInv(s, s.runs[i]);
    hide Untouched, TouchedInv, RunsInv, OwnersInv;
    if e.DeleteVm? || e.MarkStopped? {
      assert RunInv(s, s.runs[e.run]) by { OneRunInv(s, e.run); }
      assert Older(s, e.q, s.runs[e.run].deployment);
      StopKeepsAway(s, e, d);
    } else {
      RestKeepsAway(s, e, d);
    }
  }

  lemma OneRunInv(s: State, i: Id)
    requires RunsInv(s) && i in s.runs
    ensures RunInv(s, s.runs[i])
  {
  }

  lemma StopKeepsAway(s: State, e: Event, d: Id)
    requires OwnersInv(s) && Enabled(s, e) && (e.DeleteVm? || e.MarkStopped?) && RunInv(s, s.runs[e.run])
    requires d in s.deployments && Untouched(s, d) && e.q != d
    ensures Untouched(Apply(s, e), d)
  {
  }

  lemma RestKeepsAway(s: State, e: Event, d: Id)
    requires OwnersInv(s) && TouchedInv(s) && Enabled(s, e) && !e.DeleteVm? && !e.MarkStopped?
    requires d in s.deployments && Untouched(s, d)
    ensures Untouched(Apply(s, e), d)
  {
  }

  lemma AloneOther(s: State, e: Event, i: Id)
    requires Inv(s) && AloneInv(s) && Enabled(s, e) && i in Apply(s, e).runs && !By(e, i)
    ensures Alone(Apply(s, e), Apply(s, e).runs[i])
  {
    hide Apply, Enabled, Untouched, TouchedInv, OwnersInv, DomainsInv, AccountsInv;
    OtherRun(s, e, i);
    var r := s.runs[i];
    assert Alone(s, r) && RunInv(s, r);
    if r.stage == Checking || r.stage == Pointing {
      OthersKeepAway(s, e, i);
    }
    OlderStays(s, e);
    if e.MarkRunning? {
      Marks(s, e);
      assert !SameProject(s, s.runs[e.run].deployment, r.deployment);
    }
  }

  lemma Marks(s: State, e: Event)
    requires Enabled(s, e) && e.MarkRunning?
    ensures Known(s, e.run)
  {
  }

  lemma OlderStays(s: State, e: Event)
    requires Enabled(s, e)
    ensures forall q, d :: q in s.deployments && d in s.deployments ==>
              q in Apply(s, e).deployments && (Older(Apply(s, e), q, d) <==> Older(s, q, d))
  {
    hide Apply, Enabled;
    StepGrows(s, e);
  }

  lemma AlonePointIsOrderly(s: State, e: Event)
    requires Inv(s) && AloneInv(s) && Enabled(s, e) && !e.Resurrect?
    ensures Orderly(s, e)
  {
    if e.Point? {
      assert RunInv(s, s.runs[e.run]) && Alone(s, s.runs[e.run]);
    }
  }

  ghost predicate ExclusiveRun(s: State, es: seq<Event>)
    requires Possible(s, es)
    decreases |es|
  {
    Exclusive(s) && (es != [] ==> !es[0].Resurrect? && ExclusiveRun(Apply(s, es[0]), es[1..]))
  }

  lemma NothingPointsYet(s: State)
    requires Init(s)
    ensures Inv(s) && Safe(s) && AloneInv(s)
  {
  }

  /** With one hand-over per project at a time and no domain brought back, every state is free
      of gaps, whatever users, builds and failovers do in between. */
  lemma {:induction false} ExclusiveRunIsGapFree(s: State, es: seq<Event>)
    requires Inv(s) && Safe(s) && AloneInv(s) && Possible(s, es) && ExclusiveRun(s, es)
    ensures GapFree(After(s, es)) && Inv(After(s, es)) && AloneInv(After(s, es))
    decreases |es|
  {
    hide Inv, Safe, GapFree, Apply, Enabled, Orderly, AloneInv, Exclusive;
    if es != [] {
      StepInv(s, es[0]);
      AlonePointIsOrderly(s, es[0]);
      SafeStep(s, es[0]);
      AloneNext(s, es);
      ExclusiveRunIsGapFree(Apply(s, es[0]), es[1..]);
    } else {
      SafeHasNoGap(s);
    }
  }

  /** Every hand-over that has finished without errors has left no older deployment running. */
  ghost predicate CleanFinishes(s: State) {
    forall i, q ::
      (Finished(s, i) && s.runs[i].errors == {} && Older(s, q, s.runs[i].deployment)) ==> !s.deployments[q].Findable()
  }

  /** From empty tables on: every state an orderly run reaches is free of gaps. */
  lemma ReachedOrderly(s: State, es: seq<Event>)
    requires Init(s) && Possible(s, es) && OrderlyRun(s, es)
    ensures Safe(After(s, es)) && GapFree(After(s, es))
  {
    NothingPointsYet(s);
    OrderlyRunIsGapFree(s, es);
  }

  /** From empty tables on: every state reached with one hand-over per project at a time and no
      domain brought back is free of gaps, and a hand-over that finishes there without errors
      leaves no older deployment of its project running. */
  lemma ReachedExclusively(s: State, es: seq<Event>)
    requires Init(s) && Possible(s, es) && ExclusiveRun(s, es)
    ensures GapFree(After(s, es))
    ensures CleanFinishes(After(s, es))
  {
    hide Inv, AloneInv, Safe, GapFree, Apply, Enabled;
    NothingPointsYet(s);
    ExclusiveRunIsGapFree(s, es);
    var t := After(s, es);
    forall i, q | Finished(t, i) && t.runs[i].errors == {} && Older(t, q, t.runs[i].deployment)
      ensures !t.deployments[q].Findable()
    {
      FinishedAlone(t, i, q);
    }
  }

  lemma AloneNext(s: State, es: seq<Event>)
    requires Inv(s) && AloneInv(s) && es != [] && Possible(s, es) && ExclusiveRun(s, es)
    ensures AloneInv(Apply(s, es[0]))
  {
    hide Inv, Apply, Enabled;
    AloneStep(s, es[0]);
  }

  // ---------------------------------------------------------------------
  // Completion
  // ---------------------------------------------------------------------

  /** Run i has worked through its whole list. */
  predicate Finished(s: State, i: Id) {
    i in s.runs && s.runs[i].stage == Stopping(map[])
  }

  /** A hand-over that gets to its end leaves an older deployment of the project running only
      if it gave up on it after an error, or if that one was marked running meanwhile. */
  lemma FinishedHasStopped(s: State, i: Id, q: Id)
    requires Inv(s) && Finished(s, i) && Older(s, q, s.runs[i].deployment)
    ensures s.deployments[q].Findable() ==> q in s.runs[i].errors || q in s.runs[i].since
  {
    assert Accounted(s, s.runs[i]);
  }

  /** With one hand-over at a time and no failed statement, none is left. */
  lemma FinishedAlone(s: State, i: Id, q: Id)
    requires Inv(s) && AloneInv(s) && Finished(s, i) && s.runs[i].errors == {}
    requires Older(s, q, s.runs[i].deployment)
    ensures !s.deployments[q].Findable()
  {
    FinishedHasStopped(s, i, q);
    assert Alone(s, s.runs[i]);
  }

  // ---------------------------------------------------------------------
  // Interruption
  // ---------------------------------------------------------------------

  predicate InFlight(s: State, d: Id) {
    exists i :: i in s.runs && s.runs[i].deployment == d
  }

  /** A custom domain, served or not, whose row names deployment d. */
  predicate Refers(s: State, x: Id, d: Id) {
    x in s.domains && s.domains[x].custom && s.domains[x].deployment == Some(d)
  }

  lemma NoReturn(s: State, e: Event, d: Id)
    requires Enabled(s, e) && Ran(s, d) && !InFlight(s, d)
    ensures Ran(Apply(s, e), d) && !InFlight(Apply(s, e), d)
    ensures forall x :: Refers(Apply(s, e), x, d) ==> Refers(s, x, d)
  {
    var t := Apply(s, e);
    forall i | i in t.runs
      ensures t.runs[i].deployment != d
    {
      if !By(e, i) { OtherRun(s, e, i); }
    }
  }

  /** A hand-over that is interrupted after marking its deployment running is never taken up
      again: the deployment counts as running, so no run gets past the first check, and no
      custom domain that does not already point at it ever will. */
  lemma {:induction false} InterruptedForGood(s: State, es: seq<Event>, d: Id, x: Id)
    requires Possible(s, es) && Ran(s, d) && !InFlight(s, d)
    ensures !InFlight(After(s, es), d)
    ensures Refers(After(s, es), x, d) ==> Refers(s, x, d)
    decreases |es|
  {
    hide Apply, Enabled, InFlight, Refers;
    if es != [] {
      NoReturn(s, es[0], d);
      InterruptedForGood(Apply(s, es[0]), es[1..], d, x);
    }
  }

  // ---------------------------------------------------------------------
  // What goes wrong otherwise
  // ---------------------------------------------------------------------

  /** One project with deployments 1 and 2, on VMs 10 and 20, running or not, and one custom
      domain. */
  function Story(first: bool, second: bool, pointer: Option<Id>, runs: map<Id, Run>): State {
    State(map[1 := Deployment(0, Some(10), first, false, false, false),
              2 := Deployment(0, Some(20), second, false, false, false)],
          map[0 := Domain(0, pointer, true, true)], runs, map[10 := 1, 20 := 2], {}, {})
  }

  function NewDomain(): Event {
    AddDomain(0, Domain(0, None, true, true))
  }

  lemma Prologue(s: State, es: seq<Event>)
    requires Init(s) && Possible(Story(false, false, None, map[]), es)
    ensures var all := [Create(1, 0)] + ([Create(2, 0)] + ([Attach(1, 10)] + ([Attach(2, 20)] + ([NewDomain()] + es))));
            Possible(s, all) && After(s, all) == After(Story(false, false, None, map[]), es)
  {
    hide Possible, After;
    var a := Apply(s, Create(1, 0));
    var b := Apply(a, Create(2, 0));
    var c := Apply(b, Attach(1, 10));
    var d := Apply(c, Attach(2, 20));
    assert Apply(d, NewDomain()) == Story(false, false, None, map[]);
    Two(d, NewDomain(), es);
    Two(c, Attach(2, 20), [NewDomain()] + es);
    Two(b, Attach(1, 10), [Attach(2, 20)] + ([NewDomain()] + es));
    Two(a, Create(2, 0), [Attach(1, 10)] + ([Attach(2, 20)] + ([NewDomain()] + es)));
    Two(s, Create(1, 0), [Create(2, 0)] + ([Attach(1, 10)] + ([Attach(2, 20)] + ([NewDomain()] + es))));
  }

  function Both(g: Stage, h: Stage): map<Id, Run> {
    map[1 := Run(1, g, {}, {}), 2 := Run(2, h, {}, {})]
  }

  lemma BothRead(es: seq<Event>)
    requires Possible(Story(false, false, None, Both(Checking, Checking)), es)
    ensures var all := [Read(1, 1)] + ([Read(2, 2)] + es);
            && Possible(Story(false, false, None, map[]), all)
            && After(Story(false, false, None, map[]), all) == After(Story(false, false, None, Both(Checking, Checking)), es)
  {
    hide Possible, After;
    var s := Story(false, false, None, map[]);
    var a := Apply(s, Read(1, 1));
    assert Apply(a, Read(2, 2)) == Story(false, false, None, Both(Checking, Checking));
    Two(a, Read(2, 2), es);
    Two(s, Read(1, 1), [Read(2, 2)] + es);
  }

  lemma MarkFirst()
    ensures var s := Story(false, false, None, Both(Checking, Checking));
            Enabled(s, MarkRunning(1)) && Apply(s, MarkRunning(1)) == Story(true, false, None, Both(Pointing, Checking))
  {
  }

  lemma MarkSecond()
    ensures var s := Story(true, false, None, Both(Pointing, Checking));
            Enabled(s, MarkRunning(2)) && Apply(s, MarkRunning(2)) == Story(true, true, None, Both(Pointing, Pointing))
  {
  }

  lemma BothMark(es: seq<Event>)
    requires Possible(Story(true, true, None, Both(Pointing, Pointing)), es)
    ensures var s := Story(false, false, None, Both(Checking, Checking));
            var all := [MarkRunning(1)] + ([MarkRunning(2)] + es);
            Possible(s, all) && After(s, all) == After(Story(true, true, None, Both(Pointing, Pointing)), es)
  {
    hide Possible, After, Apply, Enabled;
    var s := Story(false, false, None, Both(Checking, Checking));
    var a := Story(true, false, None, Both(Pointing, Checking));
    MarkFirst();
    MarkSecond();
    Two(a, MarkRunning(2), es);
    Two(s, MarkRunning(1), [MarkRunning(2)] + es);
  }

  lemma NewerPoints()
    ensures var s := Story(true, true, None, Both(Pointing, Pointing));
            Enabled(s, Point(2)) && Apply(s, Point(2)) == Story(true, true, Some(2), Both(Pointing, Finding))
  {
  }

  lemma OlderPoints()
    ensures var s := Story(true, true, Some(2), Both(Pointing, Finding));
            Enabled(s, Point(1)) && Apply(s, Point(1)) == Story(true, true, Some(1), Both(Finding, Finding))
  {
  }

  lemma BothPoint(es: seq<Event>)
    requires Possible(Story(true, true, Some(1), Both(Finding, Finding)), es)
    ensures var s := Story(true, true, None, Both(Pointing, Pointing));
            var all := [Point(2)] + ([Point(1)] + es);
            Possible(s, all) && After(s, all) == After(Story(true, true, Some(1), Both(Finding, Finding)), es)
  {
    hide Possible, After, Apply;
    var s := Story(true, true, None, Both(Pointing, Pointing));
    var a := Story(true, true, Some(2), Both(Pointing, Finding));
    NewerPoints();
    OlderPoints();
    Two(a, Point(1), es);
    Two(s, Point(2), [Point(1)] + es);
  }

  /** The state once the newer hand-over has listed the older deployment. */
  function Listed(): State {
    Story(true, true, Some(1), Both(Finding, Stopping(map[1 := Some(10)])))
  }

  lemma NewerStopsOlder()
    ensures var s := Story(true, true, Some(1), Both(Finding, Finding));
            var es := [Find(2)] + ([DeleteVm(2, 1)] + [MarkStopped(2, 1)]);
            Possible(s, es) && Broken(After(s, es))
  {
    hide Broken;
    var s := Story(true, true, Some(1), Both(Finding, Finding));
    assert RunningAndOlder(s, 2) == map[1 := Some(10)];
    assert Apply(s, Find(2)) == Listed();
    StoppedIsAGap();
    Two(s, Find(2), [DeleteVm(2, 1)] + [MarkStopped(2, 1)]);
  }

  /** The served domain points at a deployment that was stopped and whose VM was deleted. */
  ghost predicate Broken(s: State) {
    Points(s, 0, 1) && 1 in s.retired && 1 in s.deployments && s.deployments[1].stopped
    && s.deployments[1].vm == Some(10) && 10 in s.cut
  }

  lemma StoppedIsAGap()
    ensures var es := [DeleteVm(2, 1)] + [MarkStopped(2, 1)];
            Possible(Listed(), es) && Broken(After(Listed(), es))
  {
    var s := Listed();
    var t := Apply(s, DeleteVm(2, 1));
    assert t.runs[2].stage == Marking(1, map[1 := Some(10)] - {1});
    OnlyStep(t, MarkStopped(2, 1));
    Two(s, DeleteVm(2, 1), [MarkStopped(2, 1)]);
  }

  lemma OnlyStep(s: State, e: Event)
    requires Enabled(s, e)
    ensures Possible(s, [e]) && After(s, [e]) == Apply(s, e)
  {
    hide Enabled, Apply;
    assert [e][1..] == [];
  }

  /** Two hand-overs of one project at once, without any failure. Both deployments have their VM
      and are marked running; the newer points the domain first, the older points it back, and
      the newer then deletes the older's VM and stops it. */
  lemma RaceLeavesAGap(s: State) returns (es: seq<Event>)
    requires Init(s)
    ensures Possible(s, es) && Broken(After(s, es)) && !GapFree(After(s, es))
    ensures forall k :: 0 <= k < |es| ==> !es[k].Resurrect? && !es[k].Settle? && !es[k].Fail?
  {
    hide Apply, Enabled, After, Possible, Broken, GapFree;
    NewerStopsOlder();
    var last := [Find(2)] + ([DeleteVm(2, 1)] + [MarkStopped(2, 1)]);
    BothPoint(last);
    var rest := [Point(2)] + ([Point(1)] + last);
    BothMark(rest);
    var marked := [MarkRunning(1)] + ([MarkRunning(2)] + rest);
    BothRead(marked);
    var more := [Read(1, 1)] + ([Read(2, 2)] + marked);
    Prologue(s, more);
    es := [Create(1, 0)] + ([Create(2, 0)] + ([Attach(1, 10)] + ([Attach(2, 20)] + ([NewDomain()] + more))));
    BrokenIsAGap(After(s, es));
  }

  lemma BrokenIsAGap(s: State)
    requires Broken(s)
    ensures !GapFree(s)
  {
    assert Points(s, 0, 1) && Hurt(s, 1);
  }
}
