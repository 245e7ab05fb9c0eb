/** What the grouping of a build log keeps: order, single placement, and every line that is not
    dropped for a known reason. */
module BuildLogLaws {
  import opened Uniques
  import opened BuildLogSections

  // ---------------------------------------------------------------------
  // Order
  // ---------------------------------------------------------------------

  /** Line l is a header of this section. */
  predicate Names(i: Input, l: nat, key: string) {
    l < |i.logs| && i.K(l).Header? && i.K(l).section == key
  }

  /** Line l belongs to this step of this section. */
  predicate Belongs(i: Input, l: nat, p: Place) {
    l < |i.logs| && i.Home(l) == Some(p.section) && i.StepOf(l) == p.step
  }

  ghost predicate FirstNames(i: Input, l: nat, key: string) {
    Names(i, l, key) && forall r: nat :: r < l ==> !Names(i, r, key)
  }

  ghost predicate FirstBelongs(i: Input, l: nat, p: Place) {
    Belongs(i, l, p) && forall r: nat :: r < l ==> !Belongs(i, r, p)
  }

  /** Sections come in the order of their first headers: of two sections, the earlier one has a
      header before the later one has its first. */
  lemma {:induction false} SectionsFollowHeaders(i: Input, l: nat, a: nat, b: nat) returns (p: nat, q: nat)
    requires l <= |i.logs| && a < b < |Unique(i.HeaderKeys(l))|
    ensures var u := Unique(i.HeaderKeys(l)); p < q < l && Names(i, p, u[a]) && FirstNames(i, q, u[b])
    decreases l
  {
    var u := Unique(i.HeaderKeys(l));
    var was := i.HeaderKeys(l - 1);
    if i.K(l - 1).Header? {
      UniqueSnoc(was, i.K(l - 1).section);
    } else {
      assert i.HeaderKeys(l) == was;
    }
    if b < |Unique(was)| {
      p, q := SectionsFollowHeaders(i, l - 1, a, b);
    } else {
      hide Input.HeaderKeys;
      q := l - 1;
      p := NewSection(i, q, u[a], u[b]);
    }
  }

  /** The header that opens section n, when section m is already open. */
  lemma NewSection(i: Input, q: nat, m: string, n: string) returns (p: nat)
    requires q < |i.logs| && Names(i, q, n)
    requires m in Unique(i.HeaderKeys(q)) && n !in Unique(i.HeaderKeys(q))
    ensures p < q && Names(i, p, m) && FirstNames(i, q, n)
  {
    hide Input.HeaderKeys;
    i.HeaderIffKey(m, q);
    i.HeaderIffKey(n, q);
    p :| p < q && i.K(p).Header? && i.K(p).section == m;
  }

  /** Steps come in the order of their first lines. */
  lemma {:induction false} StepsFollowLines(i: Input, key: string, l: nat, a: nat, b: nat) returns (p: nat, q: nat)
    requires l <= |i.logs| && a < b < |i.Steps(key, l)|
    ensures var u := i.Steps(key, l);
            p < q < l && Belongs(i, p, Place(key, u[a])) && FirstBelongs(i, q, Place(key, u[b]))
    decreases l
  {
    hide Input.SectionOf, Input.Keys;
    var u := i.Steps(key, l);
    var was := i.Members(key, l - 1);
    if i.Home(l - 1) == Some(key) {
      UniqueSnoc(was, i.StepOf(l - 1));
    } else {
      assert i.Members(key, l) == was;
    }
    if b < |Unique(was)| {
      p, q := StepsFollowLines(i, key, l - 1, a, b);
    } else {
      hide Input.Home, Input.Members;
      q := l - 1;
      p := NewStep(i, key, q, u[a], u[b]);
    }
  }

  /** The line that opens step n, when step m is already open. */
  lemma NewStep(i: Input, key: string, q: nat, m: nat, n: nat) returns (p: nat)
    requires q < |i.logs| && Belongs(i, q, Place(key, n))
    requires m in i.Steps(key, q) && n !in i.Steps(key, q)
    ensures p < q && Belongs(i, p, Place(key, m)) && FirstBelongs(i, q, Place(key, n))
  {
    hide Input.SectionOf, Input.Keys, Input.Members;
    i.MemberIffHome(key, m, q);
    i.MemberIffHome(key, n, q);
    p :| p < q && i.Home(p) == Some(key) && i.StepOf(p) == m;
  }

  /** No step number is in two sections. (`Steps` holds no number twice.) */
  lemma StepInOneSection(i: Input, n: nat, key: string, other: string)
    requires n in i.Steps(key, |i.logs|) && n in i.Steps(other, |i.logs|)
    ensures key == other
  {
    i.MemberIffHome(key, n, |i.logs|);
    i.MemberIffHome(other, n, |i.logs|);
  }

  // ---------------------------------------------------------------------
  // Every line
  // ---------------------------------------------------------------------

  /** Each line is shown at its one place, which is part of the result, or nowhere. */
  lemma ShownOnce(i: Input, l: nat, p: Place)
    requires l < |i.logs|
    ensures l in i.Lines(p, |i.logs|) <==> i.Target(l) == Some(p)
    ensures i.Target(l) == Some(p) ==> p.section in i.Keys() && p.step in i.Steps(p.section, |i.logs|)
    ensures i.Target(l) == Some(p) && i.Home(l).Some? ==> Belongs(i, l, p)
    ensures i.Target(l) == Some(p) && i.Home(l).None? ==> i.LastPlace(l) == Some(p)
  {
    LinesExactly(i, p, |i.logs|, l);
    if i.Target(l) == Some(p) {
      i.TargetIsOpen(l);
      i.MembersGrow(p.section, p.step, l + 1, |i.logs|);
    }
  }

  lemma {:induction false} LinesExactly(i: Input, p: Place, k: nat, l: nat)
    requires l < k <= |i.logs|
    ensures l in i.Lines(p, k) <==> i.Target(l) == Some(p)
    decreases k
  {
    hide Input.Target;
    if l < k - 1 { LinesExactly(i, p, k - 1, l); }
  }

  /** The lines that are not shown: the builder line, headers (their command is), DONE lines of
      known steps (their duration is), empty output, and lines without a section that come
      before the last section has a step. */
  lemma DroppedLines(i: Input, l: nat)
    requires l < |i.logs|
    ensures i.Target(l).None? <==>
            || i.K(l).Builder?
            || i.K(l).Header?
            || (i.Home(l).Some? && (i.K(l).Done? || i.g.strip(i.logs[l].message) == ""))
            || (i.Home(l).None? && i.LastPlace(l).None?)
  {
    if i.K(l).Header? { i.HeaderHasHome(l); }
  }

  // ---------------------------------------------------------------------
  // The result
  // ---------------------------------------------------------------------

  function Nonempty(keys: seq<string>, table: map<string, Section>): seq<string>
    requires Tabled(keys, table)
  {
    if keys == [] then []
    else
      Nonempty(keys[..|keys| - 1], table)
      + (if table[keys[|keys| - 1]].stepOrder == [] then [] else [keys[|keys| - 1]])
  }

  /** The result holds one section for each key that has a step, in the order of the keys. */
  lemma {:induction false} ViewsAreTheNonempty(keys: seq<string>, table: map<string, Section>, g: Grammar, isBuilding: bool)
    requires Tabled(keys, table)
    ensures var shown := Nonempty(keys, table); var views := ViewSections(keys, table, g, isBuilding);
            && |views| == |shown|
            && forall k :: 0 <= k < |shown| ==>
                 shown[k] in table && WellFormed(table[shown[k]])
                 && views[k] == ViewSection(shown[k], table[shown[k]], g, isBuilding)
    ensures forall key :: key in Nonempty(keys, table) <==> key in keys && key in table && table[key].stepOrder != []
    decreases |keys|
  {
    hide ViewSection, WellFormed;
    if keys != [] {
      ViewsAreTheNonempty(keys[..|keys| - 1], table, g, isBuilding);
      assert keys == keys[..|keys| - 1] + [keys[|keys| - 1]];
    }
  }

  /** What a section of the result shows: its steps in order with their commands, and under each
      step the lines placed there, in the order of the log; those of numbered steps stripped. */
  lemma ShownSection(i: Input, key: string, k: nat, isBuilding: bool)
    requires key in i.Keys() && k < |i.Steps(key, |i.logs|)|
    ensures var row := i.SectionRow(key, |i.logs|); var n := i.Steps(key, |i.logs|)[k];
            && WellFormed(row) && |ViewSection(key, row, i.g, isBuilding).steps| == |i.Steps(key, |i.logs|)|
            && var step := ViewSection(key, row, i.g, isBuilding).steps[k]; var at := i.Lines(Place(key, n), |i.logs|);
               && step.command == (if i.CommandAt(n, |i.logs|).Some? then Given(i.CommandAt(n, |i.logs|).value) else Numbered(n))
               && step.duration == i.DoneAt(n, |i.logs|)
               && (step.completed <==> i.DoneAt(n, |i.logs|).Some? || !isBuilding)
               && |step.outputLines| == |at|
               && forall m :: 0 <= m < |at| ==>
                    step.outputLines[m] == Log(if i.K(at[m]) == Orphan then i.logs[at[m]].message
                                               else i.g.strip(i.logs[at[m]].message), i.logs[at[m]].level)
  {
    hide Input.Steps, Input.Lines, Input.CommandAt, Input.DoneAt;
  }

  /** The durations known among these steps. */
  function Known(steps: seq<StepView>): seq<int> {
    if steps == [] then []
    else
      Known(steps[..|steps| - 1])
      + (if steps[|steps| - 1].duration.Some? then [steps[|steps| - 1].duration.value] else [])
  }

  function Sum(ds: seq<int>): int {
    if ds == [] then 0 else Sum(ds[..|ds| - 1]) + ds[|ds| - 1]
  }

  /** The duration of a section is the sum of the known durations of its steps, if there are any. */
  lemma SectionDuration(key: string, row: Section, g: Grammar, isBuilding: bool)
    requires WellFormed(row)
    ensures var view := ViewSection(key, row, g, isBuilding); var known := Known(view.steps);
            view.duration == if known == [] then None else Some(Sum(known))
  {
    TotalIsSum(row, |row.stepOrder|, isBuilding);
  }

  lemma {:induction false} TotalIsSum(row: Section, k: nat, isBuilding: bool)
    requires WellFormed(row) && k <= |row.stepOrder|
    ensures var known := Known(ViewSteps(row, k, isBuilding));
            Total(row, k) == if known == [] then None else Some(Sum(known))
  {
    hide Known, Sum, ViewSteps, ViewStep;
    NothingKnown();
    if k == 0 {
      assert ViewSteps(row, 0, isBuilding) == [];
    } else {
      TotalIsSum(row, k - 1, isBuilding);
      var front := ViewSteps(row, k - 1, isBuilding);
      var last := StepsMore(row, k, isBuilding);
      KnownMore(front, last);
      if last.duration.Some? { SumMore(Known(front), last.duration.value); }
    }
  }

  lemma StepsMore(row: Section, k: nat, isBuilding: bool) returns (last: StepView)
    requires WellFormed(row) && 0 < k <= |row.stepOrder|
    ensures ViewSteps(row, k, isBuilding) == ViewSteps(row, k - 1, isBuilding) + [last]
    ensures last.duration == row.steps[row.stepOrder[k - 1]].duration
  {
    last := ViewStep(row.steps[row.stepOrder[k - 1]], row.stepOrder[k - 1], isBuilding);
    hide ViewStep;
  }

  lemma NothingKnown()
    ensures Known([]) == [] && Sum([]) == 0
  {
  }

  lemma KnownMore(steps: seq<StepView>, last: StepView)
    ensures Known(steps + [last]) == if last.duration.Some? then Known(steps) + [last.duration.value] else Known(steps)
  {
    assert (steps + [last])[..|steps|] == steps;
  }

  lemma SumMore(ds: seq<int>, d: int)
    ensures Sum(ds + [d]) == Sum(ds) + d
  {
    assert (ds + [d])[..|ds|] == ds;
  }

  /** A section is completed once the build is over, or every step with a line in it has a DONE line. */
  lemma SectionCompleted(i: Input, key: string, isBuilding: bool)
    requires key in i.Keys()
    ensures WellFormed(i.SectionRow(key, |i.logs|))
    ensures ViewSection(key, i.SectionRow(key, |i.logs|), i.g, isBuilding).completed <==>
            !isBuilding || forall l: nat :: l < |i.logs| && i.Home(l) == Some(key) ==>
              exists m: nat :: DoneOf(i, m, i.StepOf(l))
  {
    hide Input.Home, Input.DoneAt, Input.Lines, Input.Members, Input.CommandAt;
    var row, steps := i.SectionRow(key, |i.logs|), i.Steps(key, |i.logs|);
    forall l: nat | l < |i.logs| && i.Home(l) == Some(key)
      ensures i.HasStep(l) && i.StepOf(l) in steps
    {
      i.HomeIs(key, l);
      i.MemberIffHome(key, i.StepOf(l), |i.logs|);
    }
    forall n | n in steps
      ensures row.steps[n].done <==> exists m: nat :: DoneOf(i, m, n)
      ensures exists l: nat :: l < |i.logs| && i.Home(l) == Some(key) && i.HasStep(l) && i.StepOf(l) == n
    {
      DoneIs(i, key, n);
      i.MemberIffHome(key, n, |i.logs|);
      var l: nat :| l < |i.logs| && i.Home(l) == Some(key) && i.StepOf(l) == n;
      i.HomeIs(key, l);
    }
  }

  lemma DoneIs(i: Input, key: string, n: nat)
    requires n in i.Steps(key, |i.logs|)
    ensures i.SectionRow(key, |i.logs|).steps[n].done <==> exists m: nat :: DoneOf(i, m, n)
  {
    hide Input.DoneAt, Input.Steps, Input.Lines;
    DurationIsLast(i, n, |i.logs|);
  }

  predicate Recognised(i: Input) {
    exists l :: 0 <= l < |i.logs| && i.K(l).Header?
  }

  /** The single fallback section is returned exactly when no line is a header; it then holds
      every line as it came. */
  lemma FallbackExactly(i: Input, isBuilding: bool)
    requires i.logs != []
    ensures var views := ViewSections(i.Keys(), i.Table(|i.logs|), i.g, isBuilding);
            && (Recognised(i) <==> views != [])
            && Result(i, isBuilding) == (if Recognised(i) then views else [Fallback(i.logs, isBuilding)])
            && Fallback(i.logs, isBuilding).steps[0].outputLines == i.logs
            && Fallback(i.logs, isBuilding)
               == SectionView("Build Output", !isBuilding, None, [StepView(Given("Build"), !isBuilding, None, i.logs)])
  {
    hide ViewSections, ViewSection;
    var table := i.Table(|i.logs|);
    ViewsAreTheNonempty(i.Keys(), table, i.g, isBuilding);
    if l :| 0 <= l < |i.logs| && i.K(l).Header? {
      SomeStep(i, l);
      assert i.Home(l).value in Nonempty(i.Keys(), table);
    } else {
      NoKeys(i);
    }
  }

  lemma SomeStep(i: Input, l: nat)
    requires l < |i.logs| && i.K(l).Header?
    ensures i.Home(l).Some? && i.Home(l).value in i.Keys() && i.Steps(i.Home(l).value, |i.logs|) != []
  {
    i.HeaderHasHome(l);
    i.MemberIffHome(i.Home(l).value, i.StepOf(l), |i.logs|);
    UniqueEmpty(i.Members(i.Home(l).value, |i.logs|));
  }

  lemma NoKeys(i: Input)
    requires !Recognised(i)
    ensures i.Keys() == []
  {
    if i.Keys() != [] {
      i.HeaderIffKey(i.Keys()[0], |i.logs|);
    }
  }

  // ---------------------------------------------------------------------
  // Which line says what
  // ---------------------------------------------------------------------

  predicate HeaderOf(i: Input, l: nat, n: nat) {
    l < |i.logs| && i.K(l).Header? && i.K(l).step == n
  }

  predicate DoneOf(i: Input, l: nat, n: nat) {
    l < |i.logs| && i.K(l).Done? && i.K(l).step == n
  }

  /** The last header of a step decides its section. */
  lemma {:induction false} SectionIsLast(i: Input, n: nat, l: nat)
    requires l <= |i.logs|
    ensures i.SectionAt(n, l).None? <==> forall r: nat :: r < l ==> !HeaderOf(i, r, n)
    ensures i.SectionAt(n, l).Some? ==>
              exists r: nat :: r < l && HeaderOf(i, r, n) && i.K(r).section == i.SectionAt(n, l).value
                               && forall m: nat :: r < m < l ==> !HeaderOf(i, m, n)
  {
    if l > 0 {
      SectionIsLast(i, n, l - 1);
      if HeaderOf(i, l - 1, n) {
      } else if i.SectionAt(n, l - 1).Some? {
        var r: nat :| r < l - 1 && HeaderOf(i, r, n) && i.K(r).section == i.SectionAt(n, l - 1).value
                      && forall m: nat :: r < m < l - 1 ==> !HeaderOf(i, m, n);
        assert forall m: nat :: r < m < l ==> !HeaderOf(i, m, n);
      }
    }
  }

  /** The first header of a step gives the command shown. */
  lemma {:induction false} CommandIsFirst(i: Input, n: nat, l: nat)
    requires l <= |i.logs|
    ensures i.CommandAt(n, l).None? <==> forall r: nat :: r < l ==> !HeaderOf(i, r, n)
    ensures i.CommandAt(n, l).Some? ==>
              exists r: nat :: r < l && HeaderOf(i, r, n) && i.K(r).command == i.CommandAt(n, l).value
                               && forall m: nat :: m < r ==> !HeaderOf(i, m, n)
  {
    if l > 0 {
      CommandIsFirst(i, n, l - 1);
      if i.CommandAt(n, l - 1).None? && HeaderOf(i, l - 1, n) {
        assert forall m: nat :: m < l - 1 ==> !HeaderOf(i, m, n);
      }
    }
  }

  /** The last DONE line of a step gives its duration. */
  lemma {:induction false} DurationIsLast(i: Input, n: nat, l: nat)
    requires l <= |i.logs|
    ensures i.DoneAt(n, l).None? <==> forall r: nat :: r < l ==> !DoneOf(i, r, n)
    ensures i.DoneAt(n, l).Some? ==>
              exists r: nat :: r < l && DoneOf(i, r, n) && i.K(r).duration == i.DoneAt(n, l).value
                               && forall m: nat :: r < m < l ==> !DoneOf(i, m, n)
  {
    if l > 0 {
      DurationIsLast(i, n, l - 1);
      if DoneOf(i, l - 1, n) {
      } else if i.DoneAt(n, l - 1).Some? {
        var r: nat :| r < l - 1 && DoneOf(i, r, n) && i.K(r).duration == i.DoneAt(n, l - 1).value
                      && forall m: nat :: r < m < l - 1 ==> !DoneOf(i, m, n);
        assert forall m: nat :: r < m < l ==> !DoneOf(i, m, n);
      }
    }
  }

  /** A line belongs to a section if it carries a step number and the last header of that step
      names the section; a step without a header belongs to "unknown", if a header names that. */
  lemma HomeExactly(i: Input, l: nat, key: string)
    requires l < |i.logs|
    ensures i.Home(l) == Some(key) <==>
            && (i.K(l).Header? || i.K(l).Done? || i.K(l).Output?)
            && (exists r: nat :: Names(i, r, key))
            && ((key == "unknown" && forall r: nat :: !HeaderOf(i, r, i.K(l).step))
                || exists r: nat :: HeaderOf(i, r, i.K(l).step) && Names(i, r, key)
                                    && forall m: nat :: m > r ==> !HeaderOf(i, m, i.K(l).step))
  {
    i.HeaderIffKey(key, |i.logs|);
    if i.HasStep(l) {
      var n := i.StepOf(l);
      SectionIsLast(i, n, |i.logs|);
      hide Input.SectionAt, Input.HeaderKeys;
      if r: nat :| HeaderOf(i, r, n) && Names(i, r, key) && forall m: nat :: m > r ==> !HeaderOf(i, m, n) {
        var s: nat :| s < |i.logs| && HeaderOf(i, s, n) && i.K(s).section == i.SectionAt(n, |i.logs|).value
                      && forall m: nat :: s < m < |i.logs| ==> !HeaderOf(i, m, n);
        assert s == r;
      }
      assert key in i.Keys() <==> exists r: nat :: Names(i, r, key) by { KeyIsNamed(i, key); }
    }
  }

  /** A line that belongs to no section is shown at the step that was opened last, so far, in the
      section whose first header comes last of all. */
  ghost predicate HeadedLast(i: Input, key: string) {
    && (exists r: nat :: Names(i, r, key))
    && forall r: nat, other: string :: FirstNames(i, r, other) && other != key ==>
         exists q: nat :: q > r && FirstNames(i, q, key)
  }

  ghost predicate OpenedLast(i: Input, l: nat, p: Place) {
    exists q: nat :: q < l && FirstBelongs(i, q, p)
                     && forall r: nat, m: nat :: q < r < l ==> !FirstBelongs(i, r, Place(p.section, m))
  }

  lemma LastPlaceIs(i: Input, l: nat, p: Place)
    requires l <= |i.logs|
    ensures i.LastPlace(l) == Some(p) <==> HeadedLast(i, p.section) && OpenedLast(i, l, p)
  {
    hide Input.Keys, Input.Steps, HeadedLast, OpenedLast;
    if HeadedLast(i, p.section) {
      LastKey(i, p.section);
      LastStep(i, l, p);
    } else if i.Keys() != [] {
      LastKey(i, i.Keys()[|i.Keys()| - 1]);
    }
  }

  lemma LastKey(i: Input, key: string)
    ensures HeadedLast(i, key) <==> i.Keys() != [] && i.Keys()[|i.Keys()| - 1] == key
  {
    var keys := i.Keys();
    KeyIsNamed(i, key);
    hide Input.HeaderKeys;
    if keys != [] && keys[|keys| - 1] == key {
      assert key in keys;
      forall r: nat, other: string | FirstNames(i, r, other) && other != key
        ensures exists q: nat :: q > r && FirstNames(i, q, key)
      {
        KeyIsNamed(i, other);
        assert Names(i, r, other);
        var a: nat :| a < |keys| && keys[a] == other;
        var x, q := SectionsFollowHeaders(i, |i.logs|, a, |keys| - 1);
        assert x >= r;
      }
    }
    if key in keys && keys[|keys| - 1] != key {
      var a: nat :| a < |keys| && keys[a] == key;
      var x, q := SectionsFollowHeaders(i, |i.logs|, a, |keys| - 1);
      assert FirstNames(i, q, keys[|keys| - 1]) && Names(i, x, key) && x < q;
    }
  }

  lemma LastStep(i: Input, l: nat, p: Place)
    requires l <= |i.logs|
    ensures var steps := i.Steps(p.section, l);
            OpenedLast(i, l, p) <==> steps != [] && steps[|steps| - 1] == p.step
  {
    var steps := i.Steps(p.section, l);
    hide Input.Home, Input.Steps;
    if steps != [] && steps[|steps| - 1] == p.step {
      var q := StepOpens(i, l, p);
      forall r: nat, m: nat | q < r < l
        ensures !FirstBelongs(i, r, Place(p.section, m))
      {
        NotAfterLast(i, l, p, q, r, m);
      }
    }
    if p.step in steps && steps[|steps| - 1] != p.step {
      var a: nat :| a < |steps| && steps[a] == p.step;
      var x, y := StepsFollowLines(i, p.section, l, a, |steps| - 1);
      assert Belongs(i, x, p) && x < y < l && FirstBelongs(i, y, Place(p.section, steps[|steps| - 1]));
    }
    if q: nat :| q < l && FirstBelongs(i, q, p) {
      StepIsListed(i, l, p, q);
    }
  }

  lemma StepIsListed(i: Input, l: nat, p: Place, q: nat)
    requires q < l <= |i.logs| && Belongs(i, q, p)
    ensures p.step in i.Steps(p.section, l)
  {
    i.MemberIffHome(p.section, p.step, l);
  }

  /** The first line of a step that is open. */
  lemma StepOpens(i: Input, l: nat, p: Place) returns (q: nat)
    requires l <= |i.logs| && p.step in i.Steps(p.section, l)
    ensures q < l && FirstBelongs(i, q, p)
  {
    i.MemberIffHome(p.section, p.step, l);
    q :| q < l && i.Home(q) == Some(p.section) && i.StepOf(q) == p.step;
    q := FirstOf(i, q, p);
  }

  lemma {:induction false} FirstOf(i: Input, l: nat, p: Place) returns (q: nat)
    requires Belongs(i, l, p)
    ensures q <= l && FirstBelongs(i, q, p)
  {
    if r: nat :| r < l && Belongs(i, r, p) {
      q := FirstOf(i, r, p);
    } else {
      q := l;
    }
  }

  lemma NotAfterLast(i: Input, l: nat, p: Place, q: nat, r: nat, m: nat)
    requires l <= |i.logs| && FirstBelongs(i, q, p) && q < r < l
    requires var steps := i.Steps(p.section, l); steps != [] && steps[|steps| - 1] == p.step
    ensures !FirstBelongs(i, r, Place(p.section, m))
  {
    var steps := i.Steps(p.section, l);
    hide Input.Home, Input.Steps;
    if m != p.step && Belongs(i, r, Place(p.section, m)) {
      StepIsListed(i, l, Place(p.section, m), r);
      var a: nat :| a < |steps| && steps[a] == m;
      var x, y := StepsFollowLines(i, p.section, l, a, |steps| - 1);
      assert Belongs(i, x, Place(p.section, m)) && x < y && y <= q;
    }
  }

  lemma KeyIsNamed(i: Input, key: string)
    ensures key in i.Keys() <==> exists r: nat :: Names(i, r, key)
  {
    i.HeaderIffKey(key, |i.logs|);
    if key in i.Keys() {
      var r: nat :| r < |i.logs| && i.K(r).Header? && i.K(r).section == key;
      assert Names(i, r, key);
    }
  }

  // ---------------------------------------------------------------------
  // The stated order guarantee
  // ---------------------------------------------------------------------

  /** The first line at home in the section, or the length of the log. */
  function FirstLine(i: Input, key: string, from: nat): (l: nat)
    requires from <= |i.logs|
    ensures from <= l <= |i.logs| && forall r :: from <= r < l ==> i.Home(r) != Some(key)
    ensures l < |i.logs| ==> i.Home(l) == Some(key)
    decreases |i.logs| - from
  {
    if from == |i.logs| || i.Home(from) == Some(key) then from else FirstLine(i, key, from + 1)
  }

  /** The first header that names the section, or the length of the log. */
  function FirstHeader(i: Input, key: string, from: nat): (l: nat)
    requires from <= |i.logs|
    ensures from <= l <= |i.logs| && forall r :: from <= r < l ==> !Names(i, r, key)
    ensures l < |i.logs| ==> Names(i, l, key)
    decreases |i.logs| - from
  {
    if from == |i.logs| || Names(i, from, key) then from else FirstHeader(i, key, from + 1)
  }

  /** The sections of the result, by their keys. */
  function ShownKeys(i: Input): seq<string> {
    Nonempty(i.Keys(), i.Table(|i.logs|))
  }

  /** "Sections appear in the order their first log line occurs." */
  predicate FirstLineOrder(i: Input) {
    forall a, b :: 0 <= a < b < |ShownKeys(i)| ==>
      FirstLine(i, ShownKeys(i)[a], 0) < FirstLine(i, ShownKeys(i)[b], 0)
  }

  lemma ShownHasSteps(i: Input, key: string)
    ensures key in ShownKeys(i) <==> key in i.Keys() && i.Steps(key, |i.logs|) != []
  {
    TableIsTabled(i);
    hide ViewSections, ViewSection, Nonempty, WellFormed, Input.Keys, Input.StepRow, Input.Steps;
    ViewsAreTheNonempty(i.Keys(), i.Table(|i.logs|), i.g, true);
  }

  lemma KeyHasHeader(i: Input, key: string)
    requires key in i.Keys()
    ensures FirstHeader(i, key, 0) < |i.logs|
  {
    i.HeaderIffKey(key, |i.logs|);
    var l: nat :| l < |i.logs| && i.K(l).Header? && i.K(l).section == key;
    assert Names(i, l, key);
  }

  /** A section is in the result exactly when some line is at home in it; it then has a header. */
  lemma ShownExactly(i: Input, key: string)
    ensures key in ShownKeys(i) <==> FirstLine(i, key, 0) < |i.logs|
    ensures key in ShownKeys(i) ==> key in i.Keys() && FirstHeader(i, key, 0) < |i.logs|
  {
    hide ShownKeys, FirstLine, FirstHeader, Input.Keys, Input.Members;
    ShownHasSteps(i, key);
    UniqueEmpty(i.Members(key, |i.logs|));
    LineMakesMember(i, key);
    if key in i.Keys() { KeyHasHeader(i, key); }
  }

  lemma LineMakesMember(i: Input, key: string)
    ensures i.Members(key, |i.logs|) != [] <==> FirstLine(i, key, 0) < |i.logs|
    ensures FirstLine(i, key, 0) < |i.logs| ==> key in i.Keys()
  {
    hide Input.SectionOf, Input.Keys;
    var l := FirstLine(i, key, 0);
    if l < |i.logs| {
      i.MemberIffHome(key, i.StepOf(l), |i.logs|);
      HomeIsKey(i, l);
    }
    if i.Members(key, |i.logs|) != [] {
      i.MemberIffHome(key, i.Members(key, |i.logs|)[0], |i.logs|);
    }
  }

  lemma HomeIsKey(i: Input, l: nat)
    requires l < |i.logs| && i.Home(l).Some?
    ensures i.Home(l).value in i.Keys()
  {
  }

  lemma {:induction false} NonemptyKeepsOrder(keys: seq<string>, table: map<string, Section>, a: nat, b: nat)
    returns (x: nat, y: nat)
    requires Tabled(keys, table) && a < b < |Nonempty(keys, table)|
    ensures x < y < |keys| && keys[x] == Nonempty(keys, table)[a] && keys[y] == Nonempty(keys, table)[b]
    decreases |keys|
  {
    var front := keys[..|keys| - 1];
    if b < |Nonempty(front, table)| {
      x, y := NonemptyKeepsOrder(front, table, a, b);
    } else {
      y := |keys| - 1;
      NonemptyAreKeys(front, table, Nonempty(front, table)[a]);
      x :| x < |front| && front[x] == Nonempty(front, table)[a];
    }
  }

  lemma {:induction false} NonemptyAreKeys(keys: seq<string>, table: map<string, Section>, key: string)
    requires Tabled(keys, table) && key in Nonempty(keys, table)
    ensures key in keys
    decreases |keys|
  {
    var front := keys[..|keys| - 1];
    assert keys == front + [keys[|keys| - 1]];
    if key in Nonempty(front, table) { NonemptyAreKeys(front, table, key); }
  }

  /** Shown sections stand in the order of their first headers. */
  lemma ShownFollowHeaders(i: Input, a: nat, b: nat)
    requires a < b < |ShownKeys(i)|
    ensures FirstHeader(i, ShownKeys(i)[a], 0) < FirstHeader(i, ShownKeys(i)[b], 0)
  {
    TableIsTabled(i);
    hide Nonempty, FirstHeader, Unique, Input.Table, Input.HeaderKeys;
    var x, y := NonemptyKeepsOrder(i.Keys(), i.Table(|i.logs|), a, b);
    var p, q := SectionsFollowHeaders(i, |i.logs|, x, y);
    assert FirstHeader(i, i.Keys()[x], 0) <= p && FirstHeader(i, i.Keys()[y], 0) == q;
  }

  /** The guarantee fails exactly when two sections of the result have their first headers in one
      order and their first lines in the other. */
  lemma OrderFailsExactly(i: Input)
    ensures !FirstLineOrder(i) <==> exists m, n :: m in ShownKeys(i) && n in ShownKeys(i) && Crossed(i, m, n)
  {
    hide ShownKeys, FirstLine, FirstHeader;
    if a, b :| 0 <= a < b < |ShownKeys(i)| && !(FirstLine(i, ShownKeys(i)[a], 0) < FirstLine(i, ShownKeys(i)[b], 0)) {
      var m, n := ShownKeys(i)[a], ShownKeys(i)[b];
      ShownFollowHeaders(i, a, b);
      LinesDiffer(i, m, n);
      assert m in ShownKeys(i) && n in ShownKeys(i) && Crossed(i, m, n);
    }
    if m, n :| m in ShownKeys(i) && n in ShownKeys(i) && Crossed(i, m, n) {
      var a :| 0 <= a < |ShownKeys(i)| && ShownKeys(i)[a] == m;
      var b :| 0 <= b < |ShownKeys(i)| && ShownKeys(i)[b] == n;
      if b < a { ShownFollowHeaders(i, b, a); }
    }
  }

  /** Section m has its first header before n has, and its first line after. */
  predicate Crossed(i: Input, m: string, n: string) {
    FirstHeader(i, m, 0) < FirstHeader(i, n, 0) && FirstLine(i, n, 0) < FirstLine(i, m, 0)
  }

  lemma LinesDiffer(i: Input, m: string, n: string)
    requires m in ShownKeys(i) && n in ShownKeys(i) && FirstHeader(i, m, 0) != FirstHeader(i, n, 0)
    ensures FirstLine(i, m, 0) != FirstLine(i, n, 0)
  {
    ShownExactly(i, m);
    ShownExactly(i, n);
  }

  /** When that happens, the section headed later has a line before its own first header, or the
      first header of the other is on a line whose step ends up elsewhere. */
  lemma CrossedBecause(i: Input, m: string, n: string)
    requires m in ShownKeys(i) && n in ShownKeys(i) && Crossed(i, m, n)
    ensures FirstLine(i, n, 0) < FirstHeader(i, n, 0) || i.Home(FirstHeader(i, m, 0)) != Some(m)
  {
    ShownExactly(i, n);
  }

  /** So the guarantee holds for every log in which each section of the result begins with its
      first header. */
  predicate Headed(i: Input) {
    forall key :: key in ShownKeys(i) ==> FirstLine(i, key, 0) == FirstHeader(i, key, 0)
  }

  lemma HeadedKeepsOrder(i: Input)
    requires Headed(i)
    ensures FirstLineOrder(i)
  {
    hide ShownKeys;
    forall a: nat, b: nat | a < b < |ShownKeys(i)|
      ensures FirstLine(i, ShownKeys(i)[a], 0) < FirstLine(i, ShownKeys(i)[b], 0)
    {
      ShownFollowHeaders(i, a, b);
      assert ShownKeys(i)[a] in ShownKeys(i) && ShownKeys(i)[b] in ShownKeys(i);
    }
  }

  /** At every line of a step, the headers read so far already put the step where it ends up. */
  predicate Settled(i: Input) {
    forall l :: 0 <= l < |i.logs| && i.HasStep(l) ==>
      i.SectionAt(i.StepOf(l), l + 1).Some? && i.SectionAt(i.StepOf(l), l + 1) == i.SectionAt(i.StepOf(l), |i.logs|)
  }

  lemma SettledHome(i: Input, l: nat)
    requires Settled(i) && l < |i.logs| && i.HasStep(l)
    ensures i.Home(l) == i.SectionAt(i.StepOf(l), l + 1)
  {
    i.SectionFromHeader(i.StepOf(l), |i.logs|);
  }

  lemma SettledSection(i: Input, key: string)
    requires Settled(i) && FirstLine(i, key, 0) < |i.logs| && FirstHeader(i, key, 0) < |i.logs|
    ensures FirstLine(i, key, 0) == FirstHeader(i, key, 0)
  {
    hide Settled, Input.SectionOf, Input.Keys, Input.SectionAt;
    var l, h := FirstLine(i, key, 0), FirstHeader(i, key, 0);
    HeaderSettles(i, h);
    LineSettles(i, l, key);
  }

  lemma HeaderSettles(i: Input, h: nat)
    requires Settled(i) && h < |i.logs| && i.K(h).Header?
    ensures i.Home(h) == Some(i.K(h).section)
  {
    SettledHome(i, h);
  }

  lemma LineSettles(i: Input, l: nat, key: string)
    requires Settled(i) && l < |i.logs| && i.Home(l) == Some(key)
    ensures FirstHeader(i, key, 0) <= l
  {
    SettledHome(i, l);
    hide Settled, Input.SectionOf, Input.Keys, Input.Home;
    i.SectionFromHeader(i.StepOf(l), l + 1);
    i.HeaderIffKey(key, l + 1);
    var p: nat :| p < l + 1 && i.K(p).Header? && i.K(p).section == key;
    assert Names(i, p, key);
  }

  /** As it is for every log that can be grouped while it is being read. */
  lemma SettledIsHeaded(i: Input)
    requires Settled(i)
    ensures Headed(i)
  {
    hide ShownKeys, Settled;
    forall key | key in ShownKeys(i)
      ensures FirstLine(i, key, 0) == FirstHeader(i, key, 0)
    {
      ShownExactly(i, key);
      SettledSection(i, key);
    }
  }

  /** An output line of step 5, then section A with step 6, then a header that puts step 5 in
      section B. */
  function EarlyOutput(): Input {
    var kind := (m: string) =>
      if m == "#5 text" then Output(5) else if m == "#6 [A 1/1] x" then Header(6, "A", "x") else Header(5, "B", "y");
    Input([Log("#5 text", ""), Log("#6 [A 1/1] x", ""), Log("#5 [B 1/1] y", "")],
          Grammar(kind, (m: string) => m, (m: string) => m))
  }

  lemma EarlyKinds(i: Input)
    requires i == EarlyOutput()
    ensures |i.logs| == 3 && i.K(0) == Output(5) && i.K(1) == Header(6, "A", "x") && i.K(2) == Header(5, "B", "y")
  {
  }

  lemma TwoSections(i: Input)
    requires |i.logs| == 3 && i.K(0) == Output(5) && i.K(1) == Header(6, "A", "x") && i.K(2) == Header(5, "B", "y")
    ensures i.Keys() == ["A", "B"]
  {
    hide Input.K, Unique, Input.HeaderKeys;
    NoHeaderFirst(i);
    HeaderFollows(i, 1, [], "A");
    HeaderFollows(i, 2, ["A"], "B");
    TwoAreUnique();
  }

  lemma NoHeaderFirst(i: Input)
    requires |i.logs| >= 1 && !i.K(0).Header?
    ensures i.HeaderKeys(1) == []
  {
    hide Input.K, Unique;
    assert i.HeaderKeys(0) == [];
  }

  lemma HeaderFollows(i: Input, l: nat, keys: seq<string>, key: string)
    requires l < |i.logs| && i.HeaderKeys(l) == keys && i.K(l).Header? && i.K(l).section == key
    ensures i.HeaderKeys(l + 1) == keys + [key]
  {
    hide Input.K, Unique;
  }

  lemma TwoAreUnique()
    ensures Unique([] + ["A"] + ["B"]) == ["A", "B"]
  {
    hide Unique;
    UniqueEmpty<string>([]);
    UniqueSnoc([], "A");
    UniqueSnoc([] + ["A"], "B");
  }

  lemma AllShown(keys: seq<string>, table: map<string, Section>)
    requires keys == ["A", "B"] && Tabled(keys, table)
    requires forall k :: 0 <= k < |keys| ==> table[keys[k]].stepOrder != []
    ensures Nonempty(keys, table) == keys
  {
    hide WellFormed;
    assert keys[..1] == ["A"] && keys[..1][..0] == [];
    assert Nonempty(keys[..1], table) == ["A"];
  }

  lemma EarlyHomes(i: Input)
    requires i == EarlyOutput()
    ensures |i.logs| == 3 && i.Home(0) == Some("B") && i.Home(1) == Some("A") && i.Keys() == ["A", "B"]
  {
    hide EarlyOutput, Input.K, Input.Keys;
    EarlyKinds(i);
    TwoSections(i);
    assert i.SectionAt(5, 3) == Some("B");
    assert i.SectionAt(6, 3) == i.SectionAt(6, 2) == Some("A");
  }

  lemma EarlyShown(i: Input)
    requires i == EarlyOutput()
    ensures ShownKeys(i) == ["A", "B"] && FirstLine(i, "B", 0) == 0 && FirstLine(i, "A", 0) == 1
  {
    hide EarlyOutput, Input.K, Input.Keys, Input.Home, Nonempty, Input.SectionRow;
    EarlyHomes(i);
    TableIsTabled(i);
    assert FirstLine(i, "A", 1) == 1;
    ShownExactly(i, "A");
    ShownExactly(i, "B");
    ShownHasRow(i, "A");
    ShownHasRow(i, "B");
    AllShown(i.Keys(), i.Table(|i.logs|));
  }

  /** The result names the shown sections, in their order. */
  lemma ResultNames(i: Input, isBuilding: bool)
    requires ShownKeys(i) != [] && i.logs != []
    ensures |Result(i, isBuilding)| == |ShownKeys(i)|
    ensures forall k :: 0 <= k < |ShownKeys(i)| ==>
              var key := ShownKeys(i)[k];
              Result(i, isBuilding)[k].name == if key == "_export" then "Export" else i.g.capitalize(key)
  {
    TableIsTabled(i);
    assert forall key :: Name(key, i.g) == if key == "_export" then "Export" else i.g.capitalize(key);
    hide Input.Keys, Input.Table, Nonempty, ViewSections, WellFormed, Name;
    ViewsAreTheNonempty(i.Keys(), i.Table(|i.logs|), i.g, isBuilding);
  }

  lemma EarlyNames(i: Input)
    requires i == EarlyOutput()
    ensures |i.logs| == 3 && i.g.capitalize("A") == "A" && i.g.capitalize("B") == "B"
  {
  }

  /** In general it fails: both sections are in the result, A first, but the first line of the
      log belongs to B. */
  lemma OrderGuaranteeFails(isBuilding: bool)
    ensures var i := EarlyOutput(); var r := Result(i, isBuilding);
            && |r| == 2 && r[0].name == "A" && r[1].name == "B"
            && FirstLine(i, "B", 0) == 0 && FirstLine(i, "A", 0) == 1
            && !FirstLineOrder(i)
  {
    hide *;
    var i := EarlyOutput();
    EarlyShown(i);
    EarlyNames(i);
    ResultNames(i, isBuilding);
    EarlyDisorder(i);
  }

  lemma EarlyDisorder(i: Input)
    requires ShownKeys(i) == ["A", "B"] && FirstLine(i, "B", 0) == 0 && FirstLine(i, "A", 0) == 1
    ensures !FirstLineOrder(i)
  {
    hide ShownKeys, FirstLine;
    assert ShownKeys(i)[0] == "A" && ShownKeys(i)[1] == "B";
  }

  lemma TableIsTabled(i: Input)
    ensures Tabled(i.Keys(), i.Table(|i.logs|))
  {
  }

  lemma ShownHasRow(i: Input, key: string)
    requires key in ShownKeys(i)
    ensures key in i.Table(|i.logs|) && i.Table(|i.logs|)[key].stepOrder != []
  {
    hide ShownKeys, Input.Keys, Input.Steps, Input.StepRow;
    ShownHasSteps(i, key);
  }
}
