/** Grouping docker buildx output into sections and steps
    (apps/web/app/utils/build-log-sections.ts:86-363).

    The regular expressions and the text they cut out are behind the functions of the message:
    `kind`, which says what the first matching expression found, and `strip`. Durations are
    integer hundredths of a second. `capitalize` is the platform's upper-casing of a first letter. */
module BuildLogSections {
  import opened Uniques

  datatype Option<T> = None | Some(value: T)

  datatype Log = Log(message: string, level: string)

  /** A header gives its step, the key of the section it puts the step in (the stage name,
      "internal", or "_export") and the command shown. Orphan lines carry no step number. */
  datatype Kind =
    | Builder
    | Orphan
    | Header(step: nat, section: string, command: string)
    | Done(step: nat, duration: int)
    | Output(step: nat)

  datatype Grammar = Grammar(kind: string -> Kind, strip: string -> string, capitalize: string -> string)

  const UNKNOWN: string := "unknown"

  /** Where a line of text is shown: a section and a step in it. */
  datatype Place = Place(section: string, step: nat)

  datatype Step = Step(command: Option<string>, duration: Option<int>, done: bool, outputLines: seq<Log>)

  datatype Section = Section(stepOrder: seq<nat>, stepSet: set<nat>, steps: map<nat, Step>) {

    /** ensureStep */
    function Opened(n: nat, command: Option<string>): Section {
      if n in stepSet then this
      else Section(stepOrder + [n], stepSet + {n}, steps[n := Step(command, None, false, [])])
    }

    function Finished(n: nat, duration: int): Section
      requires n in steps
    {
      this.(steps := steps[n := steps[n].(done := true, duration := Some(duration))])
    }

    function Shown(n: nat, line: Log): Section
      requires n in steps
    {
      this.(steps := steps[n := steps[n].(outputLines := steps[n].outputLines + [line])])
    }
  }

  // ---------------------------------------------------------------------
  // What the log says
  // ---------------------------------------------------------------------

  datatype Input = Input(logs: seq<Log>, g: Grammar) {

    function K(i: nat): Kind
      requires i < |logs|
    {
      g.kind(logs[i].message)
    }

    predicate HasStep(i: nat)
      requires i < |logs|
    {
      K(i).Header? || K(i).Done? || K(i).Output?
    }

    function StepOf(i: nat): nat
      requires i < |logs| && HasStep(i)
    {
      K(i).step
    }

    /** The section named by the last header of step n among the first i lines. */
    function SectionAt(n: nat, i: nat): Option<string>
      requires i <= |logs|
    {
      if i == 0 then None
      else if K(i - 1).Header? && K(i - 1).step == n then Some(K(i - 1).section)
      else SectionAt(n, i - 1)
    }

    /** The command of the first header of step n among the first i lines. */
    function CommandAt(n: nat, i: nat): Option<string>
      requires i <= |logs|
    {
      if i == 0 then None
      else if CommandAt(n, i - 1).Some? then CommandAt(n, i - 1)
      else if K(i - 1).Header? && K(i - 1).step == n then Some(K(i - 1).command)
      else None
    }

    function SectionOf(n: nat): string {
      if SectionAt(n, |logs|).Some? then SectionAt(n, |logs|).value else UNKNOWN
    }

    function HeaderKeys(i: nat): seq<string>
      requires i <= |logs|
    {
      if i == 0 then []
      else HeaderKeys(i - 1) + (if K(i - 1).Header? then [K(i - 1).section] else [])
    }

    /** The sections, in the order in which a header first names them. */
    function Keys(): seq<string> {
      Unique(HeaderKeys(|logs|))
    }

    /** The section of the step that line i belongs to, if there is such a section. */
    function Home(i: nat): Option<string>
      requires i < |logs|
    {
      if HasStep(i) && SectionOf(StepOf(i)) in Keys() then Some(SectionOf(StepOf(i))) else None
    }

    /** The step numbers of the lines at home in a section, among the first i lines. */
    function Members(key: string, i: nat): seq<nat>
      requires i <= |logs|
    {
      if i == 0 then []
      else Members(key, i - 1) + (if Home(i - 1) == Some(key) then [StepOf(i - 1)] else [])
    }

    /** The steps a section has after i lines, in the order of their first lines. */
    function Steps(key: string, i: nat): seq<nat>
      requires i <= |logs|
    {
      Unique(Members(key, i))
    }

    /** The duration of the last DONE line of step n among the first i lines. */
    function DoneAt(n: nat, i: nat): Option<int>
      requires i <= |logs|
    {
      if i == 0 then None
      else if K(i - 1).Done? && K(i - 1).step == n then Some(K(i - 1).duration)
      else DoneAt(n, i - 1)
    }

    /** The last step of the last section, when line i comes. */
    function LastPlace(i: nat): Option<Place>
      requires i <= |logs|
    {
      if Keys() == [] then None
      else
        var last := Keys()[|Keys()| - 1];
        var steps := Steps(last, i);
        if steps == [] then None else Some(Place(last, steps[|steps| - 1]))
    }

    /** Where the text of line i is shown. */
    function Target(i: nat): Option<Place>
      requires i < |logs|
    {
      if K(i).Builder? then None
      else if Home(i).None? then LastPlace(i)
      else if K(i).Output? && g.strip(logs[i].message) != "" then Some(Place(Home(i).value, StepOf(i)))
      else None
    }

    function Text(i: nat): Log
      requires i < |logs|
    {
      if K(i).Orphan? then logs[i] else logs[i].(message := g.strip(logs[i].message))
    }

    /** The lines shown at a place, among the first i lines. */
    function Lines(p: Place, i: nat): (r: seq<nat>)
      requires i <= |logs|
      ensures forall k :: 0 <= k < |r| ==> r[k] < i && Target(r[k]) == Some(p)
      ensures forall j, k :: 0 <= j < k < |r| ==> r[j] < r[k]
    {
      if i == 0 then []
      else Lines(p, i - 1) + (if Target(i - 1) == Some(p) then [i - 1] else [])
    }

    function Texts(at: seq<nat>): seq<Log>
      requires forall k :: 0 <= k < |at| ==> at[k] < |logs|
    {
      seq(|at|, k requires 0 <= k < |at| => Text(at[k]))
    }

    function StepRow(key: string, n: nat, i: nat): Step
      requires i <= |logs|
    {
      Step(CommandAt(n, |logs|), DoneAt(n, i), DoneAt(n, i).Some?, Texts(Lines(Place(key, n), i)))
    }

    function SectionRow(key: string, i: nat): Section
      requires i <= |logs|
    {
      var steps := Steps(key, i);
      Section(steps, set n | n in steps, map n | n in steps :: StepRow(key, n, i))
    }

    /** All sections after i lines of the second pass. */
    function Table(i: nat): map<string, Section>
      requires i <= |logs|
    {
      map key | key in Keys() :: SectionRow(key, i)
    }

    // ---------------------------------------------------------------------
    // Facts
    // ---------------------------------------------------------------------

    lemma {:induction false} MemberIffHome(key: string, n: nat, i: nat)
      requires i <= |logs|
      ensures n in Members(key, i) <==> exists j :: 0 <= j < i && Home(j) == Some(key) && StepOf(j) == n
    {
      if i > 0 { MemberIffHome(key, n, i - 1); }
    }

    lemma {:induction false} HeaderIffKey(key: string, i: nat)
      requires i <= |logs|
      ensures key in HeaderKeys(i) <==> exists j :: 0 <= j < i && K(j).Header? && K(j).section == key
    {
      if i > 0 { HeaderIffKey(key, i - 1); }
    }

    lemma {:induction false} SectionFromHeader(n: nat, i: nat)
      requires i <= |logs|
      ensures SectionAt(n, i).Some? <==> exists j :: 0 <= j < i && K(j).Header? && K(j).step == n
      ensures SectionAt(n, i).Some? ==> SectionAt(n, i).value in HeaderKeys(i)
    {
      if i > 0 { SectionFromHeader(n, i - 1); }
    }

    /** A header is always at home, in the section its step ends up in. */
    lemma HeaderHasHome(i: nat)
      requires i < |logs| && K(i).Header?
      ensures Home(i).Some?
    {
      SectionFromHeader(K(i).step, |logs|);
    }

    /** Text is only ever shown at a step that is already open. */
    lemma TargetIsOpen(i: nat)
      requires i < |logs| && Target(i).Some?
      ensures Target(i).value.section in Keys()
      ensures Target(i).value.step in Steps(Target(i).value.section, i + 1)
      ensures SectionOf(Target(i).value.step) == Target(i).value.section
    {
      var p := Target(i).value;
      MemberIffHome(p.section, p.step, i);
    }

    lemma MembersGrow(key: string, n: nat, i: nat, j: nat)
      requires i <= j <= |logs| && n in Members(key, i)
      ensures n in Members(key, j)
    {
      MemberIffHome(key, n, i);
      MemberIffHome(key, n, j);
    }

    lemma ClosedHasNoLines(p: Place, i: nat)
      requires i <= |logs| && p.step !in Steps(p.section, i)
      ensures Lines(p, i) == []
    {
      hide Target, Members;
      if Lines(p, i) != [] {
        var j := Lines(p, i)[0];
        TargetIsOpen(j);
        MembersGrow(p.section, p.step, j + 1, i);
      }
    }

    lemma {:induction false} DoneLine(n: nat, i: nat)
      requires i <= |logs|
      ensures DoneAt(n, i).Some? ==> exists j :: 0 <= j < i && K(j).Done? && K(j).step == n
    {
      if i > 0 { DoneLine(n, i - 1); }
    }

    lemma ClosedIsNotDone(key: string, n: nat, i: nat)
      requires i <= |logs| && n !in Steps(key, i) && SectionOf(n) == key && key in Keys()
      ensures DoneAt(n, i).None?
    {
      hide DoneAt, Keys, SectionOf, Members;
      DoneLine(n, i);
      if j :| 0 <= j < i && K(j).Done? && K(j).step == n {
        assert Home(j) == Some(key) && StepOf(j) == n;
        MemberIffHome(key, n, i);
      }
    }

    // ---------------------------------------------------------------------
    // The table, line by line
    // ---------------------------------------------------------------------

    lemma OtherSection(key: string, i: nat)
      requires i < |logs| && Home(i) != Some(key)
      requires Target(i).Some? ==> Target(i).value.section != key
      requires key in Keys()
      ensures SectionRow(key, i + 1) == SectionRow(key, i)
    {
      hide Home, Target, Keys, StepRow, StepOf, Lines, DoneAt;
      assert Members(key, i + 1) == Members(key, i);
      forall n | n in Steps(key, i)
        ensures StepRow(key, n, i + 1) == StepRow(key, n, i)
      {
        Untouched(key, n, i);
      }
    }

    lemma Untouched(key: string, n: nat, i: nat)
      requires i < |logs| && n in Steps(key, i) && key in Keys()
      requires Target(i) != Some(Place(key, n))
      requires K(i).Done? && K(i).step == n ==> Home(i) != Some(key)
      ensures StepRow(key, n, i + 1) == StepRow(key, n, i)
    {
      assert Lines(Place(key, n), i + 1) == Lines(Place(key, n), i);
      MemberIffHome(key, n, i);
    }

    lemma HomeIs(key: string, i: nat)
      requires i < |logs| && Home(i) == Some(key)
      ensures HasStep(i) && SectionOf(StepOf(i)) == key && key in Keys()
      ensures Target(i) == (if K(i).Output? && g.strip(logs[i].message) != ""
                            then Some(Place(key, StepOf(i))) else None)
    {
    }

    lemma HomeOrder(key: string, i: nat)
      requires i < |logs| && Home(i) == Some(key)
      ensures HasStep(i)
      ensures Steps(key, i + 1) == if StepOf(i) in Steps(key, i) then Steps(key, i) else Steps(key, i) + [StepOf(i)]
    {
      UniqueSnoc(Members(key, i), StepOf(i));
    }

    /** A step just opened has nothing to show yet. */
    lemma OpenedEmpty(key: string, i: nat)
      requires i < |logs| && Home(i) == Some(key) && HasStep(i) && StepOf(i) !in Steps(key, i)
      ensures StepRow(key, StepOf(i), i) == Step(CommandAt(StepOf(i), |logs|), None, false, [])
    {
      HomeIs(key, i);
      ClosedHasNoLines(Place(key, StepOf(i)), i);
      ClosedIsNotDone(key, StepOf(i), i);
    }

    /** The section of a line at home, once the step of the line is open. */
    function OpenedRow(key: string, i: nat): Section
      requires i < |logs| && Home(i) == Some(key)
    {
      SectionRow(key, i).Opened(StepOf(i), CommandAt(StepOf(i), |logs|))
    }

    lemma HomeOpens(key: string, i: nat)
      requires i < |logs| && Home(i) == Some(key)
      ensures var was := OpenedRow(key, i); var now := SectionRow(key, i + 1); var n := StepOf(i);
              && was.stepOrder == now.stepOrder && was.stepSet == now.stepSet
              && n in was.steps && was.steps.Keys == now.steps.Keys
              && was.steps[n] == StepRow(key, n, i)
    {
      hide StepRow, Home, SectionOf, Keys, Members;
      HomeOrder(key, i);
      if StepOf(i) !in Steps(key, i) { OpenedEmpty(key, i); }
    }

    lemma HomeKeepsOthers(key: string, i: nat, m: nat)
      requires i < |logs| && Home(i) == Some(key) && m in Steps(key, i + 1) && m != StepOf(i)
      ensures m in OpenedRow(key, i).steps && m in SectionRow(key, i + 1).steps
      ensures OpenedRow(key, i).steps[m] == SectionRow(key, i + 1).steps[m]
    {
      HomeOrder(key, i);
      HomeIs(key, i);
      Untouched(key, m, i);
    }

    lemma OwnStep(key: string, i: nat)
      requires i < |logs| && Home(i) == Some(key) && HasStep(i)
      ensures var was := StepRow(key, StepOf(i), i);
              StepRow(key, StepOf(i), i + 1) ==
                if K(i).Done? then was.(done := true, duration := Some(K(i).duration))
                else if Target(i).Some? then was.(outputLines := was.outputLines + [Text(i)])
                else was
    {
      HomeIs(key, i);
      var p := Place(key, StepOf(i));
      if Target(i).Some? {
        assert Lines(p, i + 1) == Lines(p, i) + [i];
      } else {
        assert Lines(p, i + 1) == Lines(p, i);
      }
    }

    /** What a line at home does to its section. */
    lemma HomeRow(key: string, i: nat)
      requires i < |logs| && Home(i) == Some(key)
      ensures var o := OpenedRow(key, i); var n := StepOf(i);
              && n in o.steps
              && SectionRow(key, i + 1) ==
                   if K(i).Done? then o.Finished(n, K(i).duration)
                   else if Target(i).Some? then o.Shown(n, Text(i))
                   else o
    {
      hide StepRow, Home, Target, OpenedRow, SectionOf, Keys, Members, Text;
      HomeIs(key, i);
      HomeOpens(key, i);
      OwnStep(key, i);
      var o, n, now := OpenedRow(key, i), StepOf(i), SectionRow(key, i + 1);
      assert now.steps[n] == StepRow(key, n, i + 1);
      forall m | m in now.steps && m != n
        ensures m in o.steps && o.steps[m] == now.steps[m]
      {
        HomeKeepsOthers(key, i, m);
      }
      assert now.steps == o.steps[n := now.steps[n]];
    }

    /** What a line shown at the last step does to the last section. */
    lemma LastRow(i: nat)
      requires i < |logs| && Home(i).None? && Target(i).Some?
      ensures var p := Target(i).value;
              && p.section in Keys()
              && p.step in SectionRow(p.section, i).steps
              && SectionRow(p.section, i + 1) == SectionRow(p.section, i).Shown(p.step, Text(i))
    {
      LastIsOpen(i);
      var p := Target(i).value;
      hide StepRow, SectionOf, Text, Target, Home, Keys, Members;
      ShownRow(p, i);
      forall m | m in Steps(p.section, i) && m != p.step
        ensures StepRow(p.section, m, i + 1) == StepRow(p.section, m, i)
      {
        Untouched(p.section, m, i);
      }
      RowsDiffer(p, i);
    }

    lemma RowsDiffer(p: Place, i: nat)
      requires i < |logs| && p.step in Steps(p.section, i) && Steps(p.section, i + 1) == Steps(p.section, i)
      requires forall m :: m in Steps(p.section, i) && m != p.step ==> StepRow(p.section, m, i + 1) == StepRow(p.section, m, i)
      requires var was := StepRow(p.section, p.step, i);
               StepRow(p.section, p.step, i + 1) == was.(outputLines := was.outputLines + [Text(i)])
      ensures p.step in SectionRow(p.section, i).steps
      ensures SectionRow(p.section, i + 1) == SectionRow(p.section, i).Shown(p.step, Text(i))
    {
      hide StepRow, Steps, Text;
      var was, now := SectionRow(p.section, i), SectionRow(p.section, i + 1);
      assert now.steps == was.steps[p.step := now.steps[p.step]];
    }

    lemma LastIsOpen(i: nat)
      requires i < |logs| && Home(i).None? && Target(i).Some?
      ensures var p := Target(i).value;
              p.section in Keys() && p.step in Steps(p.section, i) && Steps(p.section, i + 1) == Steps(p.section, i)
    {
      hide SectionOf;
      assert Members(Target(i).value.section, i + 1) == Members(Target(i).value.section, i);
    }

    lemma ShownRow(p: Place, i: nat)
      requires i < |logs| && Home(i).None? && Target(i) == Some(p) && p.section in Keys() && p.step in Steps(p.section, i)
      ensures var was := StepRow(p.section, p.step, i);
              StepRow(p.section, p.step, i + 1) == was.(outputLines := was.outputLines + [Text(i)])
    {
      assert Lines(p, i + 1) == Lines(p, i) + [i];
      MemberIffHome(p.section, p.step, i);
    }

    /** The table after one more line, in terms of the one section the line concerns. */
    lemma TableStep(key: string, row: Section, i: nat)
      requires i < |logs| && key in Keys() && row == SectionRow(key, i + 1)
      requires forall k :: k in Keys() && k != key ==> Home(i) != Some(k)
      requires Target(i).Some? ==> Target(i).value.section == key
      ensures Table(i + 1) == Table(i)[key := row]
    {
      hide SectionRow, Keys, Home, Target;
      forall k | k in Keys() && k != key
        ensures SectionRow(k, i + 1) == SectionRow(k, i)
      {
        OtherSection(k, i);
      }
    }

    lemma TableSame(i: nat)
      requires i < |logs| && Home(i).None? && Target(i).None?
      ensures Table(i + 1) == Table(i)
    {
      hide SectionRow, Keys, Home, Target;
      forall k | k in Keys()
        ensures SectionRow(k, i + 1) == SectionRow(k, i)
      {
        OtherSection(k, i);
      }
    }
  }

  // ---------------------------------------------------------------------
  // What is returned
  // ---------------------------------------------------------------------

  datatype Command = Given(text: string) | Numbered(step: nat)

  datatype StepView = StepView(command: Command, completed: bool, duration: Option<int>, outputLines: seq<Log>)

  datatype SectionView = SectionView(name: string, completed: bool, duration: Option<int>, steps: seq<StepView>)

  function ViewStep(row: Step, n: nat, isBuilding: bool): StepView {
    StepView(if row.command.Some? then Given(row.command.value) else Numbered(n),
             row.done || !isBuilding, row.duration, row.outputLines)
  }

  predicate WellFormed(row: Section) {
    forall k :: 0 <= k < |row.stepOrder| ==> row.stepOrder[k] in row.steps
  }

  function ViewSteps(row: Section, k: nat, isBuilding: bool): (r: seq<StepView>)
    requires WellFormed(row) && k <= |row.stepOrder|
    ensures |r| == k
    ensures forall j :: 0 <= j < k ==> r[j] == ViewStep(row.steps[row.stepOrder[j]], row.stepOrder[j], isBuilding)
  {
    seq(k, j requires 0 <= j < k => ViewStep(row.steps[row.stepOrder[j]], row.stepOrder[j], isBuilding))
  }

  /** The sum of the durations known among the first k steps, if any is. */
  function Total(row: Section, k: nat): Option<int>
    requires WellFormed(row) && k <= |row.stepOrder|
  {
    if k == 0 then None
    else
      var d := row.steps[row.stepOrder[k - 1]].duration;
      if d.None? then Total(row, k - 1)
      else Some(d.value + (if Total(row, k - 1).Some? then Total(row, k - 1).value else 0))
  }

  function Name(key: string, g: Grammar): string {
    if key == "_export" then "Export" else g.capitalize(key)
  }

  function ViewSection(key: string, row: Section, g: Grammar, isBuilding: bool): SectionView
    requires WellFormed(row)
  {
    SectionView(Name(key, g),
                forall k :: 0 <= k < |row.stepOrder| ==> row.steps[row.stepOrder[k]].done || !isBuilding,
                Total(row, |row.stepOrder|),
                ViewSteps(row, |row.stepOrder|, isBuilding))
  }

  predicate Tabled(keys: seq<string>, table: map<string, Section>) {
    forall k :: 0 <= k < |keys| ==> keys[k] in table && WellFormed(table[keys[k]])
  }

  /** The sections that have a step, in the order of the keys. */
  function ViewSections(keys: seq<string>, table: map<string, Section>, g: Grammar, isBuilding: bool): seq<SectionView>
    requires Tabled(keys, table)
  {
    if keys == [] then []
    else
      var front, last := keys[..|keys| - 1], keys[|keys| - 1];
      ViewSections(front, table, g, isBuilding)
      + (if table[last].stepOrder == [] then [] else [ViewSection(last, table[last], g, isBuilding)])
  }

  function Fallback(logs: seq<Log>, isBuilding: bool): SectionView {
    SectionView("Build Output", !isBuilding, None, [StepView(Given("Build"), !isBuilding, None, logs)])
  }

  function Result(i: Input, isBuilding: bool): seq<SectionView> {
    var views := ViewSections(i.Keys(), i.Table(|i.logs|), i.g, isBuilding);
    if i.logs == [] then []
    else if views == [] then [Fallback(i.logs, isBuilding)]
    else views
  }

  // ---------------------------------------------------------------------
  // The two passes
  // ---------------------------------------------------------------------

  method FirstPass(i: Input) returns (stepToSection: map<nat, string>, stepCommands: map<nat, string>, sectionOrder: seq<string>)
    ensures Learned(i, |i.logs|, stepToSection, stepCommands)
    ensures sectionOrder == i.Keys()
  {
    stepToSection, stepCommands, sectionOrder := map[], map[], [];
    var sectionSet: set<string> := {};
    for l := 0 to |i.logs|
      invariant Learned(i, l, stepToSection, stepCommands)
      invariant sectionOrder == Unique(i.HeaderKeys(l))
      invariant forall key :: key in sectionSet <==> key in sectionOrder
    {
      hide Unique, Learned;
      match i.g.kind(i.logs[l].message)
      case Header(n, section, command) =>
        LearnedHeader(i, l, stepToSection, stepCommands, n, section, command);
        stepToSection := stepToSection[n := section];
        if n !in stepCommands {
          stepCommands := stepCommands[n := command];
        }
        UniqueSnoc(i.HeaderKeys(l), section);
        if section !in sectionSet {
          sectionSet := sectionSet + {section};
          sectionOrder := sectionOrder + [section];
        }
      case _ =>
        assert i.HeaderKeys(l + 1) == i.HeaderKeys(l);
        LearnedNothing(i, l, stepToSection, stepCommands);
    }
  }

  lemma LearnedHeader(i: Input, l: nat, stepToSection: map<nat, string>, stepCommands: map<nat, string>,
                      n: nat, section: string, command: string)
    requires l < |i.logs| && i.K(l) == Header(n, section, command) && Learned(i, l, stepToSection, stepCommands)
    ensures Learned(i, l + 1, stepToSection[n := section],
                    if n in stepCommands then stepCommands else stepCommands[n := command])
  {
  }

  lemma LearnedNothing(i: Input, l: nat, stepToSection: map<nat, string>, stepCommands: map<nat, string>)
    requires l < |i.logs| && !i.K(l).Header? && Learned(i, l, stepToSection, stepCommands)
    ensures Learned(i, l + 1, stepToSection, stepCommands)
  {
  }

  /** The maps of the first pass after l lines. */
  ghost predicate Learned(i: Input, l: nat, stepToSection: map<nat, string>, stepCommands: map<nat, string>)
    requires l <= |i.logs|
  {
    && (forall n: nat :: i.SectionAt(n, l) == if n in stepToSection then Some(stepToSection[n]) else None)
    && (forall n: nat :: i.CommandAt(n, l) == if n in stepCommands then Some(stepCommands[n]) else None)
  }

  /** One line of the second pass. */
  method PlaceLine(i: Input, l: nat, stepToSection: map<nat, string>, stepCommands: map<nat, string>,
                   sectionOrder: seq<string>, sections: map<string, Section>) returns (r: map<string, Section>)
    requires l < |i.logs| && Learned(i, |i.logs|, stepToSection, stepCommands)
    requires sectionOrder == i.Keys() && sections == i.Table(l)
    ensures r == i.Table(l + 1)
  {
    hide Input.Keys, Input.Members, Input.StepRow, Section.Opened, Section.Finished, Section.Shown;
    var log := i.logs[l];
    var kind := i.g.kind(log.message);
    if kind.Builder? {
      i.TableSame(l);
      return sections;
    }
    if kind.Orphan? {
      r := AttachToLast(i, l, sectionOrder, sections, log);
      return;
    }
    var stepNum := kind.step;
    var key := if stepNum in stepToSection then stepToSection[stepNum] else UNKNOWN;
    assert key == i.SectionOf(stepNum);
    if key !in sections {
      r := AttachToLast(i, l, sectionOrder, sections, log.(message := i.g.strip(log.message)));
      return;
    }
    i.HomeRow(key, l);
    var section := sections[key].Opened(stepNum, if stepNum in stepCommands then Some(stepCommands[stepNum]) else None);
    assert section == i.OpenedRow(key, l);
    if kind.Done? {
      section := section.Finished(stepNum, kind.duration);
    } else if kind.Output? {
      var stripped := i.g.strip(log.message);
      if stripped != "" {
        section := section.Shown(stepNum, Log(stripped, log.level));
      }
    }
    i.TableStep(key, section, l);
    return sections[key := section];
  }

  method AttachToLast(i: Input, l: nat, sectionOrder: seq<string>, sections: map<string, Section>, log: Log)
    returns (r: map<string, Section>)
    requires l < |i.logs| && !i.K(l).Builder? && i.Home(l).None? && log == i.Text(l)
    requires sectionOrder == i.Keys() && sections == i.Table(l)
    ensures r == i.Table(l + 1)
  {
    hide Input.Keys, Input.Members, Input.SectionOf, Input.StepRow, Input.Text;
    if |sectionOrder| > 0 {
      var lastKey := sectionOrder[|sectionOrder| - 1];
      var last := sections[lastKey];
      if |last.stepOrder| > 0 {
        var lastStep := last.stepOrder[|last.stepOrder| - 1];
        i.LastRow(l);
        i.TableStep(lastKey, last.Shown(lastStep, log), l);
        return sections[lastKey := last.Shown(lastStep, log)];
      }
    }
    i.TableSame(l);
    return sections;
  }

  lemma EmptyTable(i: Input)
    ensures i.Table(0) == map key | key in i.Keys() :: Section([], {}, map[])
  {
    assert forall key :: i.SectionRow(key, 0) == Section([], {}, map[]);
  }

  method SecondPass(i: Input, stepToSection: map<nat, string>, stepCommands: map<nat, string>, sectionOrder: seq<string>)
    returns (sections: map<string, Section>)
    requires Learned(i, |i.logs|, stepToSection, stepCommands) && sectionOrder == i.Keys()
    ensures sections == i.Table(|i.logs|)
  {
    sections := map key | key in sectionOrder :: Section([], {}, map[]);
    EmptyTable(i);
    hide Learned, Input.Table, Input.Keys, Input.SectionRow;
    for l := 0 to |i.logs|
      invariant sections == i.Table(l)
    {
      sections := PlaceLine(i, l, stepToSection, stepCommands, sectionOrder, sections);
    }
  }

  method RenderSection(key: string, row: Section, g: Grammar, isBuilding: bool) returns (r: SectionView)
    requires WellFormed(row)
    ensures r == ViewSection(key, row, g, isBuilding)
  {
    var steps: seq<StepView> := [];
    var totalDuration, hasDuration, allDone := 0, false, true;
    for k := 0 to |row.stepOrder|
      invariant steps == ViewSteps(row, k, isBuilding)
      invariant Total(row, k) == if hasDuration then Some(totalDuration) else None
      invariant !hasDuration ==> totalDuration == 0
      invariant allDone == forall j :: 0 <= j < k ==> row.steps[row.stepOrder[j]].done || !isBuilding
    {
      var stepNum := row.stepOrder[k];
      var step := row.steps[stepNum];
      var stepDone := step.done || !isBuilding;
      steps := steps + [StepView(if step.command.Some? then Given(step.command.value) else Numbered(stepNum),
                                 stepDone, step.duration, step.outputLines)];
      if step.duration.Some? {
        totalDuration := totalDuration + step.duration.value;
        hasDuration := true;
      }
      if !stepDone {
        allDone := false;
      }
    }
    return SectionView(Name(key, g), allDone, if hasDuration then Some(totalDuration) else None, steps);
  }

  method RenderSections(keys: seq<string>, sections: map<string, Section>, g: Grammar, isBuilding: bool)
    returns (result: seq<SectionView>)
    requires Tabled(keys, sections)
    ensures result == ViewSections(keys, sections, g, isBuilding)
  {
    hide WellFormed, ViewSection;
    result := [];
    for k := 0 to |keys|
      invariant Tabled(keys[..k], sections)
      invariant result == ViewSections(keys[..k], sections, g, isBuilding)
    {
      var section := sections[keys[k]];
      assert keys[..k + 1][..k] == keys[..k] && keys[..k + 1][k] == keys[k];
      if |section.stepOrder| != 0 {
        var view := RenderSection(keys[k], section, g, isBuilding);
        result := result + [view];
      }
    }
    assert keys[..|keys|] == keys;
  }

  method ParseBuildLogSections(logs: seq<Log>, g: Grammar, isBuilding: bool) returns (result: seq<SectionView>)
    ensures result == Result(Input(logs, g), isBuilding)
  {
    hide ViewSections, Learned;
    if logs == [] {
      return [];
    }
    var i := Input(logs, g);
    var stepToSection, stepCommands, sectionOrder := FirstPass(i);
    var sections := SecondPass(i, stepToSection, stepCommands, sectionOrder);
    result := RenderSections(sectionOrder, sections, g, isBuilding);
    if |result| == 0 {
      return [Fallback(logs, isBuilding)];
    }
  }
}
