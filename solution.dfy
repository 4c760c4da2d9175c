/**
 * The solution (.sln) file model of Solution.cs: a four-state line reader
 * that fills an ordered project list, an ordered global-section list and a
 * version tag, the project lookups and additions, and the save that
 * recomputes the ProjectConfigurationPlatforms section and writes the
 * blocks back in a fixed order.
 *
 * SolutionProject, GlobalSection and BuildConfiguration are classes this
 * model does not see. They are represented by what the reader hands them
 * (a header line and the lines that follow it), and whatever they do with
 * that (parse a name, write themselves out, write configuration lines) is a
 * function in `Collaborators`, left uninterpreted.
 */
module SolutionFile {
  import opened Wrappers
  import opened Text
  import Paths

  const GlobalLine := "Global"
  const EndGlobalLine := "EndGlobal"
  const EndGlobalSection := "EndGlobalSection"
  const SolutionConfigurationPlatforms := "SolutionConfigurationPlatforms"
  const ProjectConfigurationPlatforms := "ProjectConfigurationPlatforms"
  /** The header of the section Save adds when the file has none. */
  const ProjectConfigurationPlatformsHeader := "GlobalSection(ProjectConfigurationPlatforms) = postSolution"
  /** The solution-folder pseudo project that gets no configuration lines. */
  const SolutionItems := "Solution Items"

  const VS2010 := "VS2010"
  const VS2012 := "VS2012"
  const VS2013 := "VS2013"

  // The three header lines share the prefix "Microsoft Visual Studio " and differ only in the format version.
  const VS2010Header := "Microsoft Visual Studio " + "Solution File, Format Version 11.00"
  const VS2012Header := "Microsoft Visual Studio " + "Solution File, Format Version 12.00"
  const VS2013Header := "Microsoft Visual Studio " + "Solution File, Format Version 13.00"

  /** `_versionLines`: the two preamble lines of a known version; the cache throws for any other key. */
  function VersionLines(version: string): Option<seq<string>> {
    if version == VS2010 then Some([VS2010Header, "# Visual Studio 2010"])
    else if version == VS2012 then Some([VS2012Header, "# Visual Studio 2012"])
    else if version == VS2013 then Some([VS2013Header, "# Visual Studio 2013"])
    else None
  }

  /** The version whose first preamble line equals the trimmed line, or `current` when none does. */
  function MatchVersion(trimmed: string, current: string): string {
    if trimmed == VS2010Header then VS2010
    else if trimmed == VS2012Header then VS2012
    else if trimmed == VS2013Header then VS2013
    else current
  }

  /** Where a solution project came from. */
  datatype ProjectOrigin =
    | Parsed(header: string)                            // a "Project" line of the file
    | CreatedDefault(guid: string)                      // SolutionProject.CreateNewAt
    | CreatedFromTemplate(templateFile: string, guid: string)

  /** A SolutionProject: its name, its project file, its origin and the lines read into it. */
  datatype SolutionProject = SolutionProject(name: string, fileName: string, origin: ProjectOrigin, lines: seq<string>)

  /** A GlobalSection: its (trimmed) header line and its property lines, as received. */
  datatype GlobalSection = GlobalSection(header: string, properties: seq<string>)

  /** A BuildConfiguration, built from one property line of SolutionConfigurationPlatforms. */
  datatype BuildConfiguration = BuildConfiguration(line: string)

  /** What the unseen collaborator classes do, as uninterpreted functions. */
  datatype Collaborators = Collaborators(
    projectName: string -> string,                       // name parsed from a "Project" header
    projectFile: (string, string) -> string,             // project file from a header and the solution directory
    defaultProjectFile: (string, string) -> string,      // file of SolutionProject.CreateNewAt(directory, name)
    sectionName: string -> string,                       // GlobalSection.SectionName parsed from its header
    writeProject: SolutionProject -> seq<string>,        // SolutionProject.Write
    writeSection: GlobalSection -> seq<string>,          // GlobalSection.Write
    configurationLines: (BuildConfiguration, SolutionProject) -> seq<string>, // WriteProjectConfiguration
    paths: Paths.PathOps,
    newLine: string)                                     // Environment.NewLine

  // ---------------------------------------------------------------------------------------
  // The reader as a transition function

  /** The four values `_read` takes. */
  datatype ReadMode = NormalRead | ReadProject | LookForGlobalSection | ReadSection

  /** Everything the reader changes: its own state and the parent's version, projects and sections. */
  datatype Reading = Reading(mode: ReadMode, version: string, projects: seq<SolutionProject>, sections: seq<GlobalSection>)

  /** The project (section) being read is always the last one appended. */
  predicate Consistent(r: Reading) {
    (r.mode == ReadProject ==> |r.projects| > 0) && (r.mode == ReadSection ==> |r.sections| > 0)
  }

  /** A fresh reader over a fresh solution: normal state, no version (null), nothing read. */
  const Initial := Reading(NormalRead, "", [], [])

  /** new SolutionProject(text, directory) for a "Project" line. */
  function ParsedProject(env: Collaborators, directory: string, header: string): SolutionProject {
    SolutionProject(env.projectName(header), env.projectFile(header, directory), Parsed(header), [])
  }

  /** Hands a line to the last project (_solutionProject.ReadLine). */
  function ToLastProject(ps: seq<SolutionProject>, text: string): seq<SolutionProject>
    requires |ps| > 0
  {
    ps[|ps| - 1 := ps[|ps| - 1].(lines := ps[|ps| - 1].lines + [text])]
  }

  /** Hands a line to the last section (_section.Read). */
  function ToLastSection(ss: seq<GlobalSection>, text: string): seq<GlobalSection>
    requires |ss| > 0
  {
    ss[|ss| - 1 := ss[|ss| - 1].(properties := ss[|ss| - 1].properties + [text])]
  }

  /** lookForGlobalSection: a trimmed "GlobalSection" line opens a new section. */
  function LookForGlobalSectionStep(r: Reading, text: string): Reading {
    var trimmed := Trim(text);
    if StartsWith(trimmed, "GlobalSection") then
      r.(sections := r.sections + [GlobalSection(trimmed, [])], mode := ReadSection)
    else r
  }

  /** readSection: "EndGlobalSection" (trimmed) closes the section, any other line goes into it untrimmed. */
  function ReadSectionStep(r: Reading, text: string): Reading
    requires |r.sections| > 0
  {
    if Trim(text) == EndGlobalSection then r.(mode := LookForGlobalSection)
    else r.(sections := ToLastSection(r.sections, text))
  }

  /** readProject: a line starting with "EndProject" closes the project, any other line goes into it. */
  function ReadProjectStep(r: Reading, text: string): Reading
    requires |r.projects| > 0
  {
    if StartsWith(text, "EndProject") then r.(mode := NormalRead)
    else r.(projects := ToLastProject(r.projects, text))
  }

  /** normalRead: "Global" starts the global part, "Project" a new project; otherwise a missing version may be recognised. */
  function NormalReadStep(env: Collaborators, directory: string, r: Reading, text: string): Reading {
    if StartsWith(text, GlobalLine) then r.(mode := LookForGlobalSection)
    else if StartsWith(text, "Project") then
      r.(projects := r.projects + [ParsedProject(env, directory, text)], mode := ReadProject)
    else if r.version == "" then r.(version := MatchVersion(Trim(text), r.version))
    else r
  }

  /** SolutionReader.Read: one line through whichever of the four readers is current. */
  function ReadLine(env: Collaborators, directory: string, r: Reading, text: string): (r': Reading)
    requires Consistent(r)
    ensures Consistent(r')
  {
    match r.mode
    case LookForGlobalSection => LookForGlobalSectionStep(r, text)
    case ReadSection => ReadSectionStep(r, text)
    case ReadProject => ReadProjectStep(r, text)
    case NormalRead => NormalReadStep(env, directory, r, text)
  }

  /** The reader after a whole sequence of lines, the last line read last. */
  function ReadLines(env: Collaborators, directory: string, r: Reading, lines: seq<string>): (r': Reading)
    requires Consistent(r)
    ensures Consistent(r')
    decreases |lines|
  {
    if lines == [] then r
    else ReadLine(env, directory, ReadLines(env, directory, r, lines[..|lines| - 1]), lines[|lines| - 1])
  }

  // ---------------------------------------------------------------------------------------
  // Queries

  /** The index of the first project with that name. */
  function FirstProjectIndex(ps: seq<SolutionProject>, name: string): (r: Option<nat>)
    ensures r.Some? ==> r.value < |ps| && ps[r.value].name == name
                        && forall j :: 0 <= j < r.value ==> ps[j].name != name
    ensures r.None? ==> forall j :: 0 <= j < |ps| ==> ps[j].name != name
    decreases |ps|
  {
    if ps == [] then None
    else if ps[0].name == name then Some(0)
    else match FirstProjectIndex(ps[1..], name)
      case None => None
      case Some(i) => Some(i + 1)
  }

  /** The index of the first section with that name. */
  function FirstSectionIndex(env: Collaborators, ss: seq<GlobalSection>, name: string): (r: Option<nat>)
    ensures r.Some? ==> r.value < |ss| && env.sectionName(ss[r.value].header) == name
                        && forall j :: 0 <= j < r.value ==> env.sectionName(ss[j].header) != name
    ensures r.None? ==> forall j :: 0 <= j < |ss| ==> env.sectionName(ss[j].header) != name
    decreases |ss|
  {
    if ss == [] then None
    else if env.sectionName(ss[0].header) == name then Some(0)
    else match FirstSectionIndex(env, ss[1..], name)
      case None => None
      case Some(i) => Some(i + 1)
  }

  /** Configurations(): one per property line of SolutionConfigurationPlatforms, none without that section. */
  function ConfigurationsOf(env: Collaborators, ss: seq<GlobalSection>): (r: seq<BuildConfiguration>)
    ensures FirstSectionIndex(env, ss, SolutionConfigurationPlatforms).None? ==> r == []
    ensures match FirstSectionIndex(env, ss, SolutionConfigurationPlatforms)
            case None => r == []
            case Some(i) => |r| == |ss[i].properties|
                            && forall k :: 0 <= k < |r| ==> r[k] == BuildConfiguration(ss[i].properties[k])
  {
    match FirstSectionIndex(env, ss, SolutionConfigurationPlatforms)
    case None => []
    case Some(i) => seq(|ss[i].properties|, k requires 0 <= k < |ss[i].properties| => BuildConfiguration(ss[i].properties[k]))
  }

  // ---------------------------------------------------------------------------------------
  // Save

  /** The lines WriteProjectConfiguration adds for one project, configuration by configuration. */
  function ConfigurationLines(env: Collaborators, cs: seq<BuildConfiguration>, p: SolutionProject): seq<string>
    decreases |cs|
  {
    if cs == [] then []
    else ConfigurationLines(env, cs[..|cs| - 1], p) + env.configurationLines(cs[|cs| - 1], p)
  }

  /** The refilled ProjectConfigurationPlatforms: projects outside, configurations inside, "Solution Items" skipped. */
  function PlatformLines(env: Collaborators, ps: seq<SolutionProject>, cs: seq<BuildConfiguration>): seq<string>
    decreases |ps|
  {
    if ps == [] then []
    else
      var last := ps[|ps| - 1];
      PlatformLines(env, ps[..|ps| - 1], cs) + (if last.name == SolutionItems then [] else ConfigurationLines(env, cs, last))
  }

  /** The sections once the ProjectConfigurationPlatforms section is found or appended, and emptied. */
  function ClearedSections(env: Collaborators, ss: seq<GlobalSection>): (r: (seq<GlobalSection>, nat))
    ensures r.1 < |r.0|
  {
    match FirstSectionIndex(env, ss, ProjectConfigurationPlatforms)
    case Some(i) => (ss[i := ss[i].(properties := [])], i)
    case None => (ss + [GlobalSection(ProjectConfigurationPlatformsHeader, [])], |ss|)
  }

  /** calculateProjectConfigurationPlatforms on the sections. */
  function RecomputedSections(env: Collaborators, ps: seq<SolutionProject>, ss: seq<GlobalSection>): seq<GlobalSection> {
    var (cleared, i) := ClearedSections(env, ss);
    cleared[i := cleared[i].(properties := PlatformLines(env, ps, ConfigurationsOf(env, cleared)))]
  }

  /** The lines of every project block, in list order. */
  function ProjectBlocks(env: Collaborators, ps: seq<SolutionProject>): seq<string>
    decreases |ps|
  {
    if ps == [] then [] else ProjectBlocks(env, ps[..|ps| - 1]) + env.writeProject(ps[|ps| - 1])
  }

  /** The lines of every section block, in list order. */
  function SectionBlocks(env: Collaborators, ss: seq<GlobalSection>): seq<string>
    decreases |ss|
  {
    if ss == [] then [] else SectionBlocks(env, ss[..|ss| - 1]) + env.writeSection(ss[|ss| - 1])
  }

  /** What Save writes with WriteLine, for a known version: preamble, projects, Global, sections, EndGlobal. */
  function SolutionLines(env: Collaborators, preamble: seq<string>, ps: seq<SolutionProject>, ss: seq<GlobalSection>): seq<string> {
    preamble + ProjectBlocks(env, ps) + [GlobalLine] + SectionBlocks(env, ss) + [EndGlobalLine]
  }

  /** The text of a StringWriter after WriteLine of each line. */
  function Unlines(lines: seq<string>, newLine: string): string
    decreases |lines|
  {
    if lines == [] then "" else Unlines(lines[..|lines| - 1], newLine) + lines[|lines| - 1] + newLine
  }

  /** The text Save writes (sections already recomputed), or the cache's KeyNotFound for an unknown version. */
  function SavedText(env: Collaborators, version: string, ps: seq<SolutionProject>, ss: seq<GlobalSection>): Result<string> {
    match VersionLines(version)
    case None => Err(KeyNotFound(version))
    case Some(preamble) => Ok(TrimEnd(Unlines(SolutionLines(env, preamble, ps, ss), env.newLine)))
  }

  /** AddProject on the list: unchanged when the name is taken, else the new project appended. */
  function AddProjectTo(ps: seq<SolutionProject>, p: SolutionProject): seq<SolutionProject> {
    if FirstProjectIndex(ps, p.name).Some? then ps else ps + [p]
  }

  // ---------------------------------------------------------------------------------------
  // The classes

  class Solution {
    const filename: string
    const env: Collaborators
    var version: string
    var projects: seq<SolutionProject>
    var sections: seq<GlobalSection>

    /** The state as the reader sees it. */
    function Contents(mode: ReadMode): Reading
      reads this
    {
      Reading(mode, version, projects, sections)
    }

    /** ParentDirectory: the directory of the solution file. */
    function Directory(): string {
      env.paths.parentDirectory(filename)
    }

    /** Name: the file name without its extension. */
    function Name(): string {
      env.paths.fileNameWithoutExtension(filename)
    }

    /** The private constructor: every line of the text goes through one SolutionReader. */
    constructor Load(filename: string, lines: seq<string>, env: Collaborators)
      ensures this.filename == filename && this.env == env
      ensures var r := ReadLines(env, env.paths.parentDirectory(filename), Initial, lines);
              version == r.version && projects == r.projects && sections == r.sections
    {
      this.filename := filename;
      this.env := env;
      version := "";
      projects := [];
      sections := [];
      new;
      var reader := new SolutionReader(this);
      var i := 0;
      while i < |lines|
        invariant 0 <= i <= |lines|
        invariant reader.parent == this && reader.Valid()
        invariant reader.Contents() == ReadLines(env, Directory(), Initial, lines[..i])
      {
        assert lines[..i + 1][..i] == lines[..i];
        reader.Read(lines[i]);
        i := i + 1;
      }
      assert lines[..|lines|] == lines;
    }

    /**
     * CreateNew: the embedded Solution.txt template read as a solution named
     * directory/name, with ".sln" added unless already there, then forced to VS2010.
     */
    static method CreateNew(directory: string, name: string, template: seq<string>, env: Collaborators)
      returns (s: Solution)
      ensures fresh(s) && s.env == env
      ensures s.filename == Paths.SlnFileName(env.paths.appendPath(directory, name))
      ensures s.version == VS2010
      ensures var r := ReadLines(env, env.paths.parentDirectory(s.filename), Initial, template);
              s.projects == r.projects && s.sections == r.sections
    {
      var filename := env.paths.appendPath(directory, name);
      if Paths.Extension(filename) != Paths.SlnExtension {
        filename := filename + Paths.SlnExtension;
      }
      s := new Solution.Load(filename, template, env);
      s.version := VS2010;
    }

    function FindSection(name: string): (r: Option<GlobalSection>)
      reads this
      ensures r.Some? <==> exists j :: 0 <= j < |sections| && env.sectionName(sections[j].header) == name
      ensures r.Some? ==> exists j :: 0 <= j < |sections| && sections[j] == r.value && env.sectionName(r.value.header) == name
                                      && forall k :: 0 <= k < j ==> env.sectionName(sections[k].header) != name
    {
      match FirstSectionIndex(env, sections, name)
      case None => None
      case Some(i) => Some(sections[i])
    }

    function Configurations(): seq<BuildConfiguration>
      reads this
    {
      ConfigurationsOf(env, sections)
    }

    function FindProject(name: string): (r: Option<SolutionProject>)
      reads this
      ensures r.Some? <==> exists j :: 0 <= j < |projects| && projects[j].name == name
      ensures r.Some? ==> exists j :: 0 <= j < |projects| && projects[j] == r.value && r.value.name == name
                                      && forall k :: 0 <= k < j ==> projects[k].name != name
    {
      match FirstProjectIndex(projects, name)
      case None => None
      case Some(i) => Some(projects[i])
    }

    /** calculateProjectConfigurationPlatforms: find or append the section, clear it, refill it. */
    method CalculateProjectConfigurationPlatforms()
      modifies this
      ensures projects == old(projects) && version == old(version)
      ensures sections == RecomputedSections(env, projects, old(sections))
    {
      var found := FirstSectionIndex(env, sections, ProjectConfigurationPlatforms);
      var i: nat;
      if found.None? {
        sections := sections + [GlobalSection(ProjectConfigurationPlatformsHeader, [])];
        i := |sections| - 1;
        sections := sections[i := sections[i].(properties := [])];
        assert sections == old(sections) + [GlobalSection(ProjectConfigurationPlatformsHeader, [])];
      } else {
        i := found.value;
        sections := sections[i := sections[i].(properties := [])];
      }
      ghost var cleared := sections;
      assert (cleared, i) == ClearedSections(env, old(sections));
      var configurations := ConfigurationsOf(env, sections);
      var p := 0;
      while p < |projects|
        invariant 0 <= p <= |projects| && projects == old(projects) && version == old(version)
        invariant sections == cleared[i := cleared[i].(properties := PlatformLines(env, projects[..p], configurations))]
      {
        assert projects[..p + 1][..p] == projects[..p];
        var project := projects[p];
        assert PlatformLines(env, projects[..p + 1], configurations)
            == PlatformLines(env, projects[..p], configurations)
               + (if project.name == SolutionItems then [] else ConfigurationLines(env, configurations, project));
        if project.name != SolutionItems {
          WriteProjectConfigurations(i, project, configurations);
        } else {
          assert PlatformLines(env, projects[..p], configurations) + [] == PlatformLines(env, projects[..p], configurations);
        }
        p := p + 1;
      }
      assert projects[..p] == projects;
    }

    /** The inner loop: WriteProjectConfiguration of one project for every configuration, into section i. */
    method WriteProjectConfigurations(i: nat, project: SolutionProject, configurations: seq<BuildConfiguration>)
      requires i < |sections|
      modifies this
      ensures projects == old(projects) && version == old(version)
      ensures sections == old(sections)[i := old(sections)[i].(properties :=
                old(sections)[i].properties + ConfigurationLines(env, configurations, project))]
    {
      var c := 0;
      assert old(sections)[i].properties + ConfigurationLines(env, configurations[..0], project) == old(sections)[i].properties;
      assert sections == old(sections)[i := old(sections)[i]];
      while c < |configurations|
        invariant 0 <= c <= |configurations| && projects == old(projects) && version == old(version)
        invariant sections == old(sections)[i := old(sections)[i].(properties :=
                    old(sections)[i].properties + ConfigurationLines(env, configurations[..c], project))]
      {
        assert configurations[..c + 1][..c] == configurations[..c];
        assert ConfigurationLines(env, configurations[..c + 1], project)
            == ConfigurationLines(env, configurations[..c], project) + env.configurationLines(configurations[c], project);
        ghost var before := ConfigurationLines(env, configurations[..c], project);
        sections := sections[i := sections[i].(properties := sections[i].properties + env.configurationLines(configurations[c], project))];
        assert sections[i].properties == old(sections)[i].properties + (before + env.configurationLines(configurations[c], project));
        c := c + 1;
      }
      assert configurations[..c] == configurations;
    }

    /**
     * Save: recompute ProjectConfigurationPlatforms, then write the preamble, the
     * projects, "Global", the sections and "EndGlobal", and trim the end. The
     * cache lookup of the preamble throws for an unknown version, after the
     * recomputation has happened.
     */
    method Save() returns (text: Result<string>)
      modifies this
      ensures projects == old(projects) && version == old(version)
      ensures sections == RecomputedSections(env, projects, old(sections))
      ensures text == SavedText(env, version, projects, sections)
    {
      CalculateProjectConfigurationPlatforms();
      var preamble := VersionLines(version);
      if preamble.None? {
        return Err(KeyNotFound(version));
      }
      var ps, ss := projects, sections;
      var projectLines: seq<string> := [];
      var p := 0;
      while p < |ps|
        invariant 0 <= p <= |ps|
        invariant projectLines == ProjectBlocks(env, ps[..p])
      {
        assert ps[..p + 1][..p] == ps[..p];
        projectLines := projectLines + env.writeProject(ps[p]);
        p := p + 1;
      }
      assert ps[..p] == ps;
      var sectionLines: seq<string> := [];
      var k := 0;
      while k < |ss|
        invariant 0 <= k <= |ss|
        invariant sectionLines == SectionBlocks(env, ss[..k])
      {
        assert ss[..k + 1][..k] == ss[..k];
        sectionLines := sectionLines + env.writeSection(ss[k]);
        k := k + 1;
      }
      assert ss[..k] == ss;
      var written := preamble.value + projectLines + [GlobalLine] + sectionLines + [EndGlobalLine];
      text := Ok(TrimEnd(Unlines(written, env.newLine)));
    }

    /** AddProject: the existing project of that name, or a new default project appended. */
    method AddProject(projectName: string, guid: string) returns (p: SolutionProject)
      modifies this
      ensures version == old(version) && sections == old(sections)
      ensures old(FindProject(projectName)).Some? ==> p == old(FindProject(projectName)).value
      ensures old(FindProject(projectName)).None? ==>
                p == SolutionProject(projectName, env.defaultProjectFile(Directory(), projectName), CreatedDefault(guid), [])
      ensures projects == AddProjectTo(old(projects), p)
    {
      var existing := FindProject(projectName);
      if existing.Some? {
        return existing.value;
      }
      p := SolutionProject(projectName, env.defaultProjectFile(Directory(), projectName), CreatedDefault(guid), []);
      projects := projects + [p];
    }

    /** AddProjectFromTemplate: ArgumentOutOfRangeException when the name is taken, else a new project appended. */
    method AddProjectFromTemplate(projectName: string, templateFile: string, guid: string)
      returns (r: Result<SolutionProject>)
      modifies this
      ensures version == old(version) && sections == old(sections)
      ensures old(FindProject(projectName)).Some? ==>
                r.Err? && r.error.ArgumentOutOfRange? && r.error.paramName == "projectName"
                && projects == old(projects)
      ensures old(FindProject(projectName)).None? ==>
                r == Ok(SolutionProject(projectName, TemplateProjectFile(projectName),
                                        CreatedFromTemplate(templateFile, guid), []))
                && projects == old(projects) + [r.value]
    {
      var existing := FindProject(projectName);
      if existing.Some? {
        return Err(ArgumentOutOfRange("projectName",
          "Project with this name (" + projectName + ") already exists in the solution"));
      }
      var reference := SolutionProject(projectName, TemplateProjectFile(projectName), CreatedFromTemplate(templateFile, guid), []);
      projects := projects + [reference];
      r := Ok(reference);
    }

    /** ParentDirectory.AppendPath(projectName, projectName + ".csproj"). */
    function TemplateProjectFile(projectName: string): string {
      env.paths.appendPath(env.paths.appendPath(Directory(), projectName), projectName + ".csproj")
    }
  }

  /** SolutionReader: `_read` is `mode`; `_section` and `_solutionProject` are indices into the parent's lists. */
  class SolutionReader {
    const parent: Solution
    var mode: ReadMode
    var section: nat
    var project: nat

    ghost predicate Valid()
      reads this, parent
    {
      (mode == ReadSection ==> section + 1 == |parent.sections|)
      && (mode == ReadProject ==> project + 1 == |parent.projects|)
    }

    function Contents(): Reading
      reads this, parent
    {
      parent.Contents(mode)
    }

    constructor (parent: Solution)
      ensures this.parent == parent && mode == NormalRead && Valid()
    {
      this.parent := parent;
      mode := NormalRead;
      section, project := 0, 0;
    }

    method Read(text: string)
      requires Valid()
      modifies this, parent
      ensures Valid() && Consistent(old(Contents()))
      ensures Contents() == ReadLine(parent.env, parent.Directory(), old(Contents()), text)
    {
      match mode
      case NormalRead => NormalReadLine(text);
      case ReadProject => ReadProjectLine(text);
      case LookForGlobalSection => LookForGlobalSectionLine(text);
      case ReadSection => ReadSectionLine(text);
    }

    method LookForGlobalSectionLine(text: string)
      requires Valid() && mode == LookForGlobalSection
      modifies this, parent
      ensures Valid() && Contents() == LookForGlobalSectionStep(old(Contents()), text)
    {
      var trimmed := Trim(text);
      if StartsWith(trimmed, "GlobalSection") {
        parent.sections := parent.sections + [GlobalSection(trimmed, [])];
        section := |parent.sections| - 1;
        mode := ReadSection;
      }
    }

    method ReadSectionLine(text: string)
      requires Valid() && mode == ReadSection
      modifies this, parent
      ensures Valid() && Contents() == ReadSectionStep(old(Contents()), text)
    {
      if Trim(text) == EndGlobalSection {
        mode := LookForGlobalSection;
      } else {
        var s := parent.sections[section];
        parent.sections := parent.sections[section := s.(properties := s.properties + [text])];
      }
    }

    method ReadProjectLine(text: string)
      requires Valid() && mode == ReadProject
      modifies this, parent
      ensures Valid() && Contents() == ReadProjectStep(old(Contents()), text)
    {
      if StartsWith(text, "EndProject") {
        mode := NormalRead;
      } else {
        var p := parent.projects[project];
        parent.projects := parent.projects[project := p.(lines := p.lines + [text])];
      }
    }

    method NormalReadLine(text: string)
      requires Valid() && mode == NormalRead
      modifies this, parent
      ensures Valid() && Contents() == NormalReadStep(parent.env, parent.Directory(), old(Contents()), text)
    {
      if StartsWith(text, GlobalLine) {
        mode := LookForGlobalSection;
      } else if StartsWith(text, "Project") {
        parent.projects := parent.projects + [ParsedProject(parent.env, parent.Directory(), text)];
        project := |parent.projects| - 1;
        mode := ReadProject;
      } else if parent.version == "" {
        parent.version := MatchVersion(Trim(text), parent.version);
      }
    }
  }
}
