/**
 * TemplatePlanBuilder.BuildPlan and determineSolutionFileHandling, and the
 * action ProjectPlanner binds to nuget.txt.
 *
 * The template library, File.Exists and the reading of the nuget file are
 * not part of this model: the library's lookup of solution templates and the
 * existence test are functions given with the builder, and the nuget file
 * arrives as its lines.
 */
module TemplateClasses {
  import opened Wrappers
  import opened Text
  import opened Paths
  import opened TemplatePlanning
  import opened ProjectPlans

  /** The parts of TemplateRequest BuildPlan reads; "" stands for a null or empty SolutionName. */
  datatype TemplateRequest = TemplateRequest(rootDirectory: string, solutionName: string, templates: seq<string>)

  /** What BuildPlan asks of the outside world. */
  datatype Library = Library(
    solutionTemplatePaths: seq<string> -> seq<string>,  // ITemplateLibrary.Find(TemplateType.Solution, names), as template paths
    sourceDirectoryOf: string -> string,                 // TemplatePlan.SourceDirectory for a root
    fileExists: string -> bool,                          // File.Exists
    paths: PathOps)

  /** The solution file determineSolutionFileHandling looks for: the name under the source directory, with ".sln" ensured. */
  function ExpectedSolutionFile(library: Library, sourceDirectory: string, solutionName: string): string {
    SlnFileName(library.paths.appendPath(sourceDirectory, solutionName))
  }

  /** The one step determineSolutionFileHandling adds. */
  function SolutionStep(library: Library, sourceDirectory: string, solutionName: string): Step {
    var expected := ExpectedSolutionFile(library, sourceDirectory, solutionName);
    if library.fileExists(expected) then ReadSolution(expected) else CreateSolution(solutionName)
  }

  /** The solution step reads the expected file when it exists, and otherwise creates a solution of the requested name. */
  lemma SolutionStepChoice(library: Library, sourceDirectory: string, solutionName: string)
    ensures var expected := ExpectedSolutionFile(library, sourceDirectory, solutionName);
            var step := SolutionStep(library, sourceDirectory, solutionName);
            (step.ReadSolution? <==> library.fileExists(expected))
            && (step.ReadSolution? ==> step.solutionFile == expected && Extension(expected) == SlnExtension)
            && (step.CreateSolution? ==> step.solutionName == solutionName)
  {
    SlnFileNameHasSlnExtension(library.paths.appendPath(sourceDirectory, solutionName));
  }

  /** Every CreatePlan pass of the solution planner, one per template path in order. */
  function TemplatePasses(planners: seq<Planner>, templatePaths: seq<string>): seq<PlanEvent>
    decreases |templatePaths|
  {
    if templatePaths == [] then []
    else
      TemplatePasses(planners, templatePaths[..|templatePaths| - 1])
      + CreatePlanEvents(SolutionPlanning, planners, templatePaths[|templatePaths| - 1])
  }

  /** The whole record of a plan BuildPlan returns. */
  function BuildEvents(library: Library, planners: seq<Planner>, request: TemplateRequest): seq<PlanEvent> {
    var sourceDirectory := library.sourceDirectoryOf(request.rootDirectory);
    (if request.solutionName != "" then [Added(SolutionStep(library, sourceDirectory, request.solutionName))] else [])
    + TemplatePasses(planners, library.solutionTemplatePaths(request.templates))
  }

  /** How many steps a record of events adds. */
  function AddedCount(events: seq<PlanEvent>): nat
    decreases |events|
  {
    if events == [] then 0
    else AddedCount(events[..|events| - 1]) + (if events[|events| - 1].Added? then 1 else 0)
  }

  lemma {:induction false} AddedCountAppend(a: seq<PlanEvent>, b: seq<PlanEvent>)
    ensures AddedCount(a + b) == AddedCount(a) + AddedCount(b)
    decreases |b|
  {
    if b == [] {
      assert a + b == a;
    } else {
      AddedCountAppend(a, b[..|b| - 1]);
      assert (a + b)[..|a + b| - 1] == a + b[..|b| - 1];
    }
  }

  lemma {:induction false} DeterminePhasesAddNothing(planners: seq<Planner>, directory: string)
    ensures AddedCount(DeterminePhases(planners, directory)) == 0
    decreases |planners|
  {
    if planners != [] {
      var init := planners[..|planners| - 1];
      DeterminePhasesAddNothing(init, directory);
      AddedCountAppend(DeterminePhases(init, directory), [Ran(Determined(planners[|planners| - 1], directory))]);
    }
  }

  lemma {:induction false} TemplatePassesAddNothing(planners: seq<Planner>, templatePaths: seq<string>)
    ensures AddedCount(TemplatePasses(planners, templatePaths)) == 0
    decreases |templatePaths|
  {
    if templatePaths != [] {
      var directory := templatePaths[|templatePaths| - 1];
      TemplatePassesAddNothing(planners, templatePaths[..|templatePaths| - 1]);
      DeterminePhasesAddNothing(planners, directory);
      AddedCountAppend([Ran(Configured(SolutionPlanning, directory))], DeterminePhases(planners, directory));
      AddedCountAppend([Ran(Configured(SolutionPlanning, directory))] + DeterminePhases(planners, directory), [Ran(CopiedUnhandled(directory))]);
      AddedCountAppend(TemplatePasses(planners, templatePaths[..|templatePaths| - 1]), CreatePlanEvents(SolutionPlanning, planners, directory));
      assert AddedCount([Ran(CopiedUnhandled(directory))]) == 0 by {
        assert [Ran(CopiedUnhandled(directory))][..0] == [];
      }
      assert AddedCount([Ran(Configured(SolutionPlanning, directory))]) == 0 by {
        assert [Ran(Configured(SolutionPlanning, directory))][..0] == [];
      }
    }
  }

  /**
   * BuildPlan itself adds exactly one step (the solution step) when a
   * solution name is given and none otherwise, and that step comes before
   * every solution template's phases.
   */
  lemma SolutionStepFirst(library: Library, planners: seq<Planner>, request: TemplateRequest)
    ensures var events := BuildEvents(library, planners, request);
            var sourceDirectory := library.sourceDirectoryOf(request.rootDirectory);
            AddedCount(events) == (if request.solutionName != "" then 1 else 0)
            && (request.solutionName != "" ==> events[0] == Added(SolutionStep(library, sourceDirectory, request.solutionName)))
            && (request.solutionName == "" ==> events == TemplatePasses(planners, library.solutionTemplatePaths(request.templates)))
  {
    var sourceDirectory := library.sourceDirectoryOf(request.rootDirectory);
    var head: seq<PlanEvent> := if request.solutionName != "" then [Added(SolutionStep(library, sourceDirectory, request.solutionName))] else [];
    var passes := TemplatePasses(planners, library.solutionTemplatePaths(request.templates));
    TemplatePassesAddNothing(planners, library.solutionTemplatePaths(request.templates));
    AddedCountAppend(head, passes);
    if request.solutionName != "" {
      assert head[..0] == [];
    } else {
      assert head + passes == passes;
    }
  }

  /** Each template's phases follow those of the templates before it, unchanged. */
  lemma TemplatePassesAppend(planners: seq<Planner>, templatePaths: seq<string>, templatePath: string)
    ensures TemplatePasses(planners, templatePaths + [templatePath])
         == TemplatePasses(planners, templatePaths) + CreatePlanEvents(SolutionPlanning, planners, templatePath)
  {
    assert (templatePaths + [templatePath])[..|templatePaths|] == templatePaths;
  }

  /** determineSolutionFileHandling: exactly one step is added to the plan. */
  method DetermineSolutionFileHandling(library: Library, request: TemplateRequest, plan: TemplatePlan)
    modifies plan
    ensures plan.events == old(plan.events) + [Added(SolutionStep(library, plan.sourceDirectory, request.solutionName))]
  {
    var expected := library.paths.appendPath(plan.sourceDirectory, request.solutionName);
    if Extension(expected) != SlnExtension {
      expected := expected + SlnExtension;
    }
    if library.fileExists(expected) {
      plan.Add(ReadSolution(expected));
    } else {
      plan.Add(CreateSolution(request.solutionName));
    }
  }

  class TemplatePlanBuilder {
    const library: Library
    /** The static SolutionPlanner. */
    const solutionPlanner: TemplatePlanner

    constructor (library: Library)
      ensures this.library == library && fresh(solutionPlanner)
      ensures solutionPlanner.kind == SolutionPlanning
      ensures solutionPlanner.planners == DefaultPlanners() + [FilesPlanner(Some(Shallow(InputFile)), ReadInputs)]
    {
      this.library := library;
      solutionPlanner := new TemplatePlanner.ForSolutions();
    }

    /** BuildPlan: a fresh plan holding the solution step, if any, then one CreatePlan pass per solution template. */
    method BuildPlan(request: TemplateRequest) returns (plan: TemplatePlan)
      requires solutionPlanner.kind == SolutionPlanning
      ensures fresh(plan) && plan.root == request.rootDirectory
      ensures plan.events == BuildEvents(library, solutionPlanner.planners, request)
    {
      plan := new TemplatePlan(request.rootDirectory, library.sourceDirectoryOf(request.rootDirectory));
      if request.solutionName != "" {
        DetermineSolutionFileHandling(library, request, plan);
      }
      var templatePaths := library.solutionTemplatePaths(request.templates);
      CreatePlans(templatePaths, plan);
    }

    /** The loop over the solution templates: one CreatePlan pass each, in order. */
    method CreatePlans(templatePaths: seq<string>, plan: TemplatePlan)
      requires solutionPlanner.kind == SolutionPlanning
      modifies plan
      ensures plan.events == old(plan.events) + TemplatePasses(solutionPlanner.planners, templatePaths)
    {
      ghost var planners := solutionPlanner.planners;
      for i := 0 to |templatePaths|
        invariant solutionPlanner.kind == SolutionPlanning && solutionPlanner.planners == planners
        invariant plan.events == old(plan.events) + TemplatePasses(planners, templatePaths[..i])
      {
        ghost var before := plan.events;
        solutionPlanner.CreatePlan(templatePaths[i], plan);
        assert templatePaths[..i + 1] == templatePaths[..i] + [templatePaths[i]];
        calc {
          plan.events;
          before + CreatePlanEvents(SolutionPlanning, planners, templatePaths[i]);
          old(plan.events) + TemplatePasses(planners, templatePaths[..i]) + CreatePlanEvents(SolutionPlanning, planners, templatePaths[i]);
          { TemplatePassesAppend(planners, templatePaths[..i], templatePaths[i]); }
          old(plan.events) + TemplatePasses(planners, templatePaths[..i + 1]);
        }
      }
      assert templatePaths[..|templatePaths|] == templatePaths;
    }
  }

  // ---------------------------------------------------------------------------------------
  // The nuget.txt action

  /** The declarations the nuget action takes from a file's lines: each non-empty line, trimmed, in file order. */
  function NugetDeclarationsOf(lines: seq<string>): seq<string>
    decreases |lines|
  {
    if lines == [] then []
    else
      var last := lines[|lines| - 1];
      NugetDeclarationsOf(lines[..|lines| - 1]) + (if last != "" then [Trim(last)] else [])
  }

  /** The declarations of two runs of lines are those of the first followed by those of the second. */
  lemma {:induction false} NugetDeclarationsAppend(a: seq<string>, b: seq<string>)
    ensures NugetDeclarationsOf(a + b) == NugetDeclarationsOf(a) + NugetDeclarationsOf(b)
    decreases |b|
  {
    if b == [] {
      assert a + b == a;
    } else {
      NugetDeclarationsAppend(a, b[..|b| - 1]);
      assert (a + b)[..|a + b| - 1] == a + b[..|b| - 1];
    }
  }

  /** One declaration per line that is not empty, counted before trimming. */
  lemma {:induction false} NugetDeclarationCount(lines: seq<string>)
    ensures |NugetDeclarationsOf(lines)| == |lines| - multiset(lines)[""]
    decreases |lines|
  {
    if lines != [] {
      var init := lines[..|lines| - 1];
      NugetDeclarationCount(init);
      assert lines == init + [lines[|lines| - 1]];
      assert multiset(lines) == multiset(init) + multiset{lines[|lines| - 1]};
    }
  }

  /** The emptiness test comes before trimming: a line of white space contributes an empty declaration. */
  lemma WhiteSpaceLineDeclaresEmpty(line: string)
    requires line != "" && AllWhiteSpace(line)
    ensures NugetDeclarationsOf([line]) == [""]
  {
    TrimStartSpec(line);
    assert TrimStart(line) == [];
    assert [line][..0] == [];
  }

  /** Every declaration is a trimmed line of the file. */
  lemma {:induction false} NugetDeclarationsAreTrimmedLines(lines: seq<string>)
    ensures forall d :: d in NugetDeclarationsOf(lines) ==> exists line :: line in lines && line != "" && d == Trim(line)
    decreases |lines|
  {
    if lines != [] {
      var init := lines[..|lines| - 1];
      NugetDeclarationsAreTrimmedLines(init);
      forall d | d in NugetDeclarationsOf(lines) ensures exists line :: line in lines && line != "" && d == Trim(line) {
        if d in NugetDeclarationsOf(init) {
          var line :| line in init && line != "" && d == Trim(line);
          assert line in lines;
        } else {
          assert lines[|lines| - 1] in lines;
        }
      }
    }
  }

  /** The nuget action: every non-empty line, trimmed, is appended to the current project's declarations, in file order. */
  method AddNugetLines(lines: seq<string>, currentProject: ProjectPlan)
    modifies currentProject
    ensures currentProject.nugetDeclarations == old(currentProject.nugetDeclarations) + NugetDeclarationsOf(lines)
    ensures currentProject.substitutions == old(currentProject.substitutions)
    ensures currentProject.alterations == old(currentProject.alterations)
    ensures currentProject.relativePath == old(currentProject.relativePath)
    ensures currentProject.projectTemplateFile == old(currentProject.projectTemplateFile)
  {
    for i := 0 to |lines|
      invariant currentProject.nugetDeclarations == old(currentProject.nugetDeclarations) + NugetDeclarationsOf(lines[..i])
      invariant currentProject.substitutions == old(currentProject.substitutions)
      invariant currentProject.alterations == old(currentProject.alterations)
      invariant currentProject.relativePath == old(currentProject.relativePath)
      invariant currentProject.projectTemplateFile == old(currentProject.projectTemplateFile)
    {
      assert lines[..i + 1][..i] == lines[..i];
      if lines[i] != "" {
        currentProject.nugetDeclarations := currentProject.nugetDeclarations + [Trim(lines[i])];
      }
    }
    assert lines[..|lines|] == lines;
  }
}
