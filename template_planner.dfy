/**
 * TemplatePlanner: an ordered registry of planners built up by Matching /
 * ShallowMatch / DeepMatch followed by Do, or by Add<T>, and CreatePlan,
 * which runs the planner's own configuration, then every registered planner
 * in registration order, then the copy of the files no planner handled.
 *
 * TemplatePlan, FileSet, FilesTemplatePlanner and the step classes are not
 * part of this model. A plan is modelled by the record of what was done to
 * it: the steps added and the phases run, in order. The work each phase does
 * on disk is left out; a planner is identified by its file set and action.
 */
module TemplatePlanning {
  import opened Wrappers

  /** The file patterns the planners match; GemReference.File, GitIgnoreStep.File and Input.File are not part of this model. */
  datatype Pattern = GemReferenceFile | GitIgnoreFile | InputFile | Literal(text: string)

  /** ProjectPlanner.NugetFile. */
  const NugetFile := Literal("nuget.txt")

  /** FileSet.Shallow(pattern) or FileSet.Deep(pattern). */
  datatype FileSet = Shallow(pattern: Pattern) | Deep(pattern: Pattern)

  /** The Action<TextFile, TemplatePlan> a Do assignment binds. */
  datatype Action =
    | GemReferenceConfigure   // GemReference.ConfigurePlan
    | GitIgnoreConfigure      // GitIgnoreStep.ConfigurePlan
    | ReadInputs              // SolutionPlanner: Input.ReadFromFile, then Substitutions.ReadInputs
    | AddNugetDeclarations    // ProjectPlanner: the nuget.txt lines
    | CustomAction(name: string)

  /** An ITemplatePlanner: a FilesTemplatePlanner, whose file set is null when Do came before any Matching, or an Add<T> planner. */
  datatype Planner = FilesPlanner(matching: Option<FileSet>, action: Action) | Typed(typeName: string)

  /** The two concrete planners, which differ in configurePlan. */
  datatype PlannerKind = SolutionPlanning | ProjectPlanning

  /** An ITemplateStep added to a plan. */
  datatype Step = ReadSolution(solutionFile: string) | CreateSolution(solutionName: string) | OtherStep(description: string)

  /** A phase of CreatePlan run against a plan for a template directory. */
  datatype Phase =
    | Configured(kind: PlannerKind, directory: string)       // configurePlan
    | Determined(planner: Planner, directory: string)        // ITemplatePlanner.DetermineSteps
    | CopiedUnhandled(directory: string)                      // TemplatePlan.CopyUnhandledFiles

  datatype PlanEvent = Added(step: Step) | Ran(phase: Phase)

  /** The planners the base constructor registers: the gem planner, then the gitignore planner. */
  function DefaultPlanners(): seq<Planner> {
    [FilesPlanner(Some(Shallow(GemReferenceFile)), GemReferenceConfigure),
     FilesPlanner(Some(Shallow(GitIgnoreFile)), GitIgnoreConfigure)]
  }

  /** One DetermineSteps phase per planner, in the order given. */
  function DeterminePhases(planners: seq<Planner>, directory: string): (r: seq<PlanEvent>)
    ensures |r| == |planners|
    decreases |planners|
  {
    if planners == [] then []
    else DeterminePhases(planners[..|planners| - 1], directory) + [Ran(Determined(planners[|planners| - 1], directory))]
  }

  /** What CreatePlan does to a plan: configuration, every planner in order, the copy of unhandled files. */
  function CreatePlanEvents(kind: PlannerKind, planners: seq<Planner>, directory: string): seq<PlanEvent> {
    [Ran(Configured(kind, directory))] + DeterminePhases(planners, directory) + [Ran(CopiedUnhandled(directory))]
  }

  /** The i-th DetermineSteps phase runs the i-th registered planner. */
  lemma {:induction false} DeterminePhasesInOrder(planners: seq<Planner>, directory: string)
    ensures forall i :: 0 <= i < |planners| ==> DeterminePhases(planners, directory)[i] == Ran(Determined(planners[i], directory))
    decreases |planners|
  {
    if planners != [] {
      var init := planners[..|planners| - 1];
      DeterminePhasesInOrder(init, directory);
      forall i | 0 <= i < |planners| ensures DeterminePhases(planners, directory)[i] == Ran(Determined(planners[i], directory)) {
        if i < |init| { assert planners[i] == init[i]; }
      }
    }
  }

  /** Configuration comes first, unhandled files are copied last, and in between each planner runs once, in registration order. */
  lemma CreatePlanOrder(kind: PlannerKind, planners: seq<Planner>, directory: string)
    ensures var events := CreatePlanEvents(kind, planners, directory);
            |events| == |planners| + 2
            && events[0] == Ran(Configured(kind, directory))
            && events[|events| - 1] == Ran(CopiedUnhandled(directory))
            && (forall i :: 0 <= i < |planners| ==> events[i + 1] == Ran(Determined(planners[i], directory)))
  {
    DeterminePhasesInOrder(planners, directory);
    var events := CreatePlanEvents(kind, planners, directory);
    forall i | 0 <= i < |planners| ensures events[i + 1] == Ran(Determined(planners[i], directory)) {
      assert events[i + 1] == DeterminePhases(planners, directory)[i];
    }
  }

  /** A plan: the root it was created for and what has been done to it so far. */
  class TemplatePlan {
    const root: string
    /** TemplatePlan.SourceDirectory, which TemplatePlan derives from the root by code not part of this model. */
    const sourceDirectory: string
    var events: seq<PlanEvent>

    constructor (root: string, sourceDirectory: string)
      ensures this.root == root && this.sourceDirectory == sourceDirectory && events == []
    {
      this.root := root;
      this.sourceDirectory := sourceDirectory;
      events := [];
    }

    /** Add(step): the step is recorded after everything before it. */
    method Add(step: Step)
      modifies this
      ensures events == old(events) + [Added(step)]
    {
      events := events + [Added(step)];
    }

    /** A phase of a planner is run against this plan. */
    method Run(phase: Phase)
      modifies this
      ensures events == old(events) + [Ran(phase)]
    {
      events := events + [Ran(phase)];
    }
  }

  class TemplatePlanner {
    const kind: PlannerKind
    var planners: seq<Planner>
    /** `_matching`: the file set the next Do binds; None (null) until Matching is first called. */
    var matching: Option<FileSet>

    /** new SolutionPlanner(): the base registrations, then the inputs file. */
    constructor ForSolutions()
      ensures kind == SolutionPlanning
      ensures planners == DefaultPlanners() + [FilesPlanner(Some(Shallow(InputFile)), ReadInputs)]
      ensures matching == Some(Shallow(InputFile))
    {
      kind := SolutionPlanning;
      planners := [];
      matching := None;
      new;
      RegisterDefaults();
      var action := ShallowMatch(InputFile);
      action.Do(ReadInputs);
    }

    /** new ProjectPlanner(): the base registrations, then nuget.txt. */
    constructor ForProjects()
      ensures kind == ProjectPlanning
      ensures planners == DefaultPlanners() + [FilesPlanner(Some(Shallow(NugetFile)), AddNugetDeclarations)]
      ensures matching == Some(Shallow(NugetFile))
    {
      kind := ProjectPlanning;
      planners := [];
      matching := None;
      new;
      RegisterDefaults();
      var action := Matching(Shallow(NugetFile));
      action.Do(AddNugetDeclarations);
    }

    /** The body of the base constructor: the gem planner, then the gitignore planner. */
    method RegisterDefaults()
      modifies this
      ensures planners == old(planners) + DefaultPlanners()
      ensures matching == Some(Shallow(GitIgnoreFile))
    {
      var action := ShallowMatch(GemReferenceFile);
      action.Do(GemReferenceConfigure);
      action := ShallowMatch(GitIgnoreFile);
      action.Do(GitIgnoreConfigure);
    }

    /** Matching(fileSet): records the file set for the next Do and registers nothing. */
    method Matching(fileSet: FileSet) returns (action: TemplatePlanner)
      modifies this
      ensures action == this
      ensures matching == Some(fileSet) && planners == old(planners)
    {
      matching := Some(fileSet);
      action := this;
    }

    method ShallowMatch(pattern: Pattern) returns (action: TemplatePlanner)
      modifies this
      ensures action == this
      ensures matching == Some(Shallow(pattern)) && planners == old(planners)
    {
      action := Matching(Shallow(pattern));
    }

    method DeepMatch(pattern: Pattern) returns (action: TemplatePlanner)
      modifies this
      ensures action == this
      ensures matching == Some(Deep(pattern)) && planners == old(planners)
    {
      action := Matching(Deep(pattern));
    }

    /** The Do setter: exactly one planner is appended, bound to the file set last matched. */
    method Do(action: Action)
      modifies this
      ensures planners == old(planners) + [FilesPlanner(old(matching), action)]
      ensures matching == old(matching)
    {
      planners := planners + [FilesPlanner(matching, action)];
    }

    /** Add<T>(): one planner of that type at the end. */
    method Add(typeName: string)
      modifies this
      ensures planners == old(planners) + [Typed(typeName)]
      ensures matching == old(matching)
    {
      planners := planners + [Typed(typeName)];
    }

    /** CreatePlan(directory, plan): configuration, then each planner in registration order, then the unhandled files. */
    method CreatePlan(directory: string, plan: TemplatePlan)
      modifies plan
      ensures plan.events == old(plan.events) + CreatePlanEvents(kind, planners, directory)
    {
      plan.Run(Configured(kind, directory));
      for i := 0 to |planners|
        invariant plan.events == old(plan.events) + [Ran(Configured(kind, directory))] + DeterminePhases(planners[..i], directory)
      {
        plan.Run(Determined(planners[i], directory));
        assert planners[..i + 1][..i] == planners[..i];
      }
      assert planners[..|planners|] == planners;
      plan.Run(CopiedUnhandled(directory));
    }
  }
}
