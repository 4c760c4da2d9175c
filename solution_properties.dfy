/**
 * What the solution model promises across calls: the reader accepts what Save
 * writes and gives back the same version, projects and sections; the
 * ProjectConfigurationPlatforms recomputation is located, sized and
 * idempotent; once "Global" is seen no more projects are read; AddProject
 * never duplicates a name.
 */
module SolutionProperties {
  import opened Wrappers
  import opened Text
  import opened SolutionFile

  // ---------------------------------------------------------------------------------------
  // Reading

  /** Reading two runs of lines one after the other is reading their concatenation. */
  lemma {:induction false} ReadLinesAppend(env: Collaborators, dir: string, r: Reading, a: seq<string>, b: seq<string>)
    requires Consistent(r)
    ensures ReadLines(env, dir, r, a + b) == ReadLines(env, dir, ReadLines(env, dir, r, a), b)
    decreases |b|
  {
    if b == [] {
      assert a + b == a;
    } else {
      ReadLinesAppend(env, dir, r, a, b[..|b| - 1]);
      assert (a + b)[..|a + b| - 1] == a + b[..|b| - 1];
    }
  }

  /** Once the reader is past "Global", no project is added or changed and the version stays. */
  lemma {:induction false} GlobalIsFinal(env: Collaborators, dir: string, r: Reading, lines: seq<string>)
    requires Consistent(r) && (r.mode == LookForGlobalSection || r.mode == ReadSection)
    ensures var r' := ReadLines(env, dir, r, lines);
            r'.projects == r.projects && r'.version == r.version
            && (r'.mode == LookForGlobalSection || r'.mode == ReadSection)
            && |r'.sections| >= |r.sections|
    decreases |lines|
  {
    if lines != [] {
      GlobalIsFinal(env, dir, r, lines[..|lines| - 1]);
    }
  }

  /** A version, once recognised, is never replaced by a later preamble line. */
  lemma {:induction false} VersionSetOnce(env: Collaborators, dir: string, r: Reading, lines: seq<string>)
    requires Consistent(r) && r.version != ""
    ensures ReadLines(env, dir, r, lines).version == r.version
    decreases |lines|
  {
    if lines != [] {
      VersionSetOnce(env, dir, r, lines[..|lines| - 1]);
    }
  }

  /** A line with no white space at either end trims to itself. */
  lemma TrimPlain(line: string)
    requires |line| > 0 && !IsWhiteSpace(line[0]) && !IsWhiteSpace(line[|line| - 1])
    ensures Trim(line) == line
  {
    assert TrimStart(line) == line;
  }

  /** The known versions are exactly the keys of the preamble table, and each preamble's first line names its version. */
  lemma VersionRoundTrip(version: string)
    ensures VersionLines(version).Some? <==> version == VS2010 || version == VS2012 || version == VS2013
    ensures VersionLines(version).Some? ==>
              |VersionLines(version).value| == 2
              && MatchVersion(Trim(VersionLines(version).value[0]), "") == version
  {
    if version == VS2010 {
      TrimPlain(VS2010Header);
    } else if version == VS2012 {
      TrimPlain(VS2012Header);
      assert VS2012Header[55] != VS2010Header[55];
    } else if version == VS2013 {
      TrimPlain(VS2013Header);
      assert VS2013Header[55] != VS2010Header[55] && VS2013Header[55] != VS2012Header[55];
    }
  }

  // ---------------------------------------------------------------------------------------
  // The reader accepts what Save writes

  /**
   * What a project must write so that reading it back gives the same project:
   * a "Project" header from which the name and file are parsed again, its own
   * lines (none of them an "EndProject" line), and an "EndProject" line.
   */
  predicate Reparsable(env: Collaborators, dir: string, p: SolutionProject) {
    p.origin.Parsed?
    && StartsWith(p.origin.header, "Project")
    && env.projectName(p.origin.header) == p.name
    && env.projectFile(p.origin.header, dir) == p.fileName
    && (forall l :: l in p.lines ==> !StartsWith(l, "EndProject"))
    && |env.writeProject(p)| == |p.lines| + 2
    && env.writeProject(p) == [p.origin.header] + p.lines + [env.writeProject(p)[|p.lines| + 1]]
    && StartsWith(env.writeProject(p)[|p.lines| + 1], "EndProject")
  }

  /**
   * What a section must write so that reading it back gives the same section:
   * a line that trims to its header, its properties (none trimming to
   * "EndGlobalSection"), and a line that trims to "EndGlobalSection".
   */
  predicate Resectionable(env: Collaborators, s: GlobalSection) {
    StartsWith(s.header, "GlobalSection")
    && (forall l :: l in s.properties ==> Trim(l) != EndGlobalSection)
    && |env.writeSection(s)| == |s.properties| + 2
    && env.writeSection(s) == [env.writeSection(s)[0]] + s.properties + [env.writeSection(s)[|s.properties| + 1]]
    && Trim(env.writeSection(s)[0]) == s.header
    && Trim(env.writeSection(s)[|s.properties| + 1]) == EndGlobalSection
  }

  lemma {:induction false} ReadProjectLines(env: Collaborators, dir: string, v: string, ps: seq<SolutionProject>,
                                            q: SolutionProject, ss: seq<GlobalSection>, ls: seq<string>)
    requires forall l :: l in ls ==> !StartsWith(l, "EndProject")
    ensures ReadLines(env, dir, Reading(ReadProject, v, ps + [q], ss), ls)
         == Reading(ReadProject, v, ps + [q.(lines := q.lines + ls)], ss)
    decreases |ls|
  {
    if ls == [] {
      assert q.lines + ls == q.lines;
    } else {
      var init := ls[..|ls| - 1];
      var l := ls[|ls| - 1];
      assert forall x :: x in init ==> x in ls;
      ReadProjectLines(env, dir, v, ps, q, ss, init);
      var q' := q.(lines := q.lines + init);
      assert ToLastProject(ps + [q'], l) == ps + [q'.(lines := q'.lines + [l])];
      assert q'.lines + [l] == q.lines + ls;
    }
  }

  lemma ReadProjectBlock(env: Collaborators, dir: string, v: string, ps: seq<SolutionProject>,
                         ss: seq<GlobalSection>, p: SolutionProject)
    requires Reparsable(env, dir, p)
    ensures ReadLines(env, dir, Reading(NormalRead, v, ps, ss), env.writeProject(p))
         == Reading(NormalRead, v, ps + [p], ss)
  {
    var r := Reading(NormalRead, v, ps, ss);
    var h := p.origin.header;
    var block := env.writeProject(p);
    var end := block[|p.lines| + 1];
    assert h[..7] == "Project";
    assert h[0] == 'P';
    assert ReadLines(env, dir, r, [h]) == ReadLine(env, dir, r, h);
    var q := ParsedProject(env, dir, h);
    assert ReadLine(env, dir, r, h) == Reading(ReadProject, v, ps + [q], ss);
    ReadProjectLines(env, dir, v, ps, q, ss, p.lines);
    assert q.(lines := q.lines + p.lines) == p;
    ReadLinesAppend(env, dir, r, [h], p.lines);
    ReadLinesAppend(env, dir, r, [h] + p.lines, [end]);
    assert block == [h] + p.lines + [end];
    assert ReadLines(env, dir, Reading(ReadProject, v, ps + [p], ss), [end])
        == ReadLine(env, dir, Reading(ReadProject, v, ps + [p], ss), end);
  }

  lemma {:induction false} ReadProjectBlocks(env: Collaborators, dir: string, v: string, ps0: seq<SolutionProject>,
                                             ss: seq<GlobalSection>, ps: seq<SolutionProject>)
    requires forall p :: p in ps ==> Reparsable(env, dir, p)
    ensures ReadLines(env, dir, Reading(NormalRead, v, ps0, ss), ProjectBlocks(env, ps))
         == Reading(NormalRead, v, ps0 + ps, ss)
    decreases |ps|
  {
    if ps == [] {
      assert ps0 + ps == ps0;
    } else {
      var init := ps[..|ps| - 1];
      var last := ps[|ps| - 1];
      var r := Reading(NormalRead, v, ps0, ss);
      forall x | x in init ensures Reparsable(env, dir, x) {
        assert x in ps;
      }
      ReadProjectBlocks(env, dir, v, ps0, ss, init);
      assert ProjectBlocks(env, ps) == ProjectBlocks(env, init) + env.writeProject(last);
      ReadLinesAppend(env, dir, r, ProjectBlocks(env, init), env.writeProject(last));
      ReadProjectBlock(env, dir, v, ps0 + init, ss, last);
      assert ps0 + init + [last] == ps0 + ps;
    }
  }

  lemma {:induction false} ReadSectionLines(env: Collaborators, dir: string, v: string, ps: seq<SolutionProject>,
                                            ss: seq<GlobalSection>, s: GlobalSection, ls: seq<string>)
    requires forall l :: l in ls ==> Trim(l) != EndGlobalSection
    ensures ReadLines(env, dir, Reading(ReadSection, v, ps, ss + [s]), ls)
         == Reading(ReadSection, v, ps, ss + [s.(properties := s.properties + ls)])
    decreases |ls|
  {
    if ls == [] {
      assert s.properties + ls == s.properties;
    } else {
      var init := ls[..|ls| - 1];
      var l := ls[|ls| - 1];
      assert forall x :: x in init ==> x in ls;
      ReadSectionLines(env, dir, v, ps, ss, s, init);
      var s' := s.(properties := s.properties + init);
      assert ToLastSection(ss + [s'], l) == ss + [s'.(properties := s'.properties + [l])];
      assert s'.properties + [l] == s.properties + ls;
    }
  }

  lemma ReadSectionBlock(env: Collaborators, dir: string, v: string, ps: seq<SolutionProject>,
                         ss: seq<GlobalSection>, s: GlobalSection)
    requires Resectionable(env, s)
    ensures ReadLines(env, dir, Reading(LookForGlobalSection, v, ps, ss), env.writeSection(s))
         == Reading(LookForGlobalSection, v, ps, ss + [s])
  {
    var r := Reading(LookForGlobalSection, v, ps, ss);
    var block := env.writeSection(s);
    var first := block[0];
    var end := block[|s.properties| + 1];
    var empty := GlobalSection(s.header, []);
    var started := Reading(ReadSection, v, ps, ss + [empty]);
    var filled := Reading(ReadSection, v, ps, ss + [s]);
    assert ReadLines(env, dir, r, [first]) == started by {
      assert ReadLines(env, dir, r, [first]) == LookForGlobalSectionStep(r, first);
    }
    ReadSectionLines(env, dir, v, ps, ss, empty, s.properties);
    assert empty.(properties := empty.properties + s.properties) == s;
    ReadLinesAppend(env, dir, r, [first], s.properties);
    assert ReadLines(env, dir, filled, [end]) == filled.(mode := LookForGlobalSection) by {
      assert ReadLines(env, dir, filled, [end]) == ReadSectionStep(filled, end);
    }
    ReadLinesAppend(env, dir, r, [first] + s.properties, [end]);
  }

  lemma {:induction false} ReadSectionBlocks(env: Collaborators, dir: string, v: string, ps: seq<SolutionProject>,
                                             ss0: seq<GlobalSection>, ss: seq<GlobalSection>)
    requires forall s :: s in ss ==> Resectionable(env, s)
    ensures ReadLines(env, dir, Reading(LookForGlobalSection, v, ps, ss0), SectionBlocks(env, ss))
         == Reading(LookForGlobalSection, v, ps, ss0 + ss)
    decreases |ss|
  {
    if ss == [] {
      assert ss0 + ss == ss0;
    } else {
      var init := ss[..|ss| - 1];
      var last := ss[|ss| - 1];
      forall x | x in init ensures Resectionable(env, x) {
        assert x in ss;
      }
      var start := Reading(LookForGlobalSection, v, ps, ss0);
      calc {
        ReadLines(env, dir, start, SectionBlocks(env, ss));
        ReadLines(env, dir, start, SectionBlocks(env, init) + env.writeSection(last));
        { ReadLinesAppend(env, dir, start, SectionBlocks(env, init), env.writeSection(last)); }
        ReadLines(env, dir, ReadLines(env, dir, start, SectionBlocks(env, init)), env.writeSection(last));
        { ReadSectionBlocks(env, dir, v, ps, ss0, init); }
        ReadLines(env, dir, Reading(LookForGlobalSection, v, ps, ss0 + init), env.writeSection(last));
        { ReadSectionBlock(env, dir, v, ps, ss0 + init, last); }
        Reading(LookForGlobalSection, v, ps, ss0 + init + [last]);
        { assert ss0 + init + [last] == ss0 + ss; }
        Reading(LookForGlobalSection, v, ps, ss0 + ss);
      }
    }
  }

  /** A preamble's first line, read before any version is known, sets the version. */
  lemma ReadHeaderLine(env: Collaborators, dir: string, version: string)
    requires VersionLines(version).Some?
    ensures NormalReadStep(env, dir, Initial, VersionLines(version).value[0]) == Reading(NormalRead, version, [], [])
  {
    var header := VersionLines(version).value[0];
    VersionRoundTrip(version);
    assert header[0] == 'M';
    assert header[..6][0] == 'M' && header[..7][0] == 'M';
  }

  /** A preamble's comment line changes nothing once the version is known. */
  lemma ReadCommentLine(env: Collaborators, dir: string, version: string)
    requires VersionLines(version).Some?
    ensures NormalReadStep(env, dir, Reading(NormalRead, version, [], []), VersionLines(version).value[1])
         == Reading(NormalRead, version, [], [])
  {
    var comment := VersionLines(version).value[1];
    assert comment[0] == '#';
    assert comment[..6][0] == '#' && comment[..7][0] == '#';
  }

  /** Reading a version's two preamble lines recognises that version. */
  lemma ReadPreamble(env: Collaborators, dir: string, version: string)
    requires VersionLines(version).Some?
    ensures ReadLines(env, dir, Initial, VersionLines(version).value) == Reading(NormalRead, version, [], [])
  {
    var lines := VersionLines(version).value;
    var afterFirst := Reading(NormalRead, version, [], []);
    ReadHeaderLine(env, dir, version);
    ReadCommentLine(env, dir, version);
    assert |lines| == 2;
    assert lines[..1][..0] == [];
    assert ReadLines(env, dir, Initial, lines[..1]) == afterFirst;
    assert lines[..2][..1] == lines[..1];
    assert lines[..2] == lines;
  }

  /** The part before the sections: preamble, project blocks and "Global" leave the reader looking for a section. */
  lemma ReadUpToGlobal(env: Collaborators, dir: string, version: string, ps: seq<SolutionProject>)
    requires VersionLines(version).Some?
    requires forall p :: p in ps ==> Reparsable(env, dir, p)
    ensures ReadLines(env, dir, Initial, VersionLines(version).value + ProjectBlocks(env, ps) + [GlobalLine])
         == Reading(LookForGlobalSection, version, ps, [])
  {
    var preamble := VersionLines(version).value;
    ReadPreamble(env, dir, version);
    ReadLinesAppend(env, dir, Initial, preamble, ProjectBlocks(env, ps));
    ReadProjectBlocks(env, dir, version, [], [], ps);
    assert [] + ps == ps;
    var afterProjects := Reading(NormalRead, version, ps, []);
    ReadLinesAppend(env, dir, Initial, preamble + ProjectBlocks(env, ps), [GlobalLine]);
    assert ReadLines(env, dir, afterProjects, [GlobalLine]) == NormalReadStep(env, dir, afterProjects, GlobalLine);
  }

  /** The global part: section blocks and "EndGlobal" add exactly the sections. */
  lemma ReadGlobalPart(env: Collaborators, dir: string, version: string, ps: seq<SolutionProject>, ss: seq<GlobalSection>)
    requires forall s :: s in ss ==> Resectionable(env, s)
    ensures ReadLines(env, dir, Reading(LookForGlobalSection, version, ps, []), SectionBlocks(env, ss) + [EndGlobalLine])
         == Reading(LookForGlobalSection, version, ps, ss)
  {
    var inGlobal := Reading(LookForGlobalSection, version, ps, []);
    var done := Reading(LookForGlobalSection, version, ps, ss);
    calc {
      ReadLines(env, dir, inGlobal, SectionBlocks(env, ss) + [EndGlobalLine]);
      { ReadLinesAppend(env, dir, inGlobal, SectionBlocks(env, ss), [EndGlobalLine]); }
      ReadLines(env, dir, ReadLines(env, dir, inGlobal, SectionBlocks(env, ss)), [EndGlobalLine]);
      { ReadSectionBlocks(env, dir, version, ps, [], ss); assert [] + ss == ss; }
      ReadLines(env, dir, done, [EndGlobalLine]);
      { ReadEndGlobalLine(env, dir, done); }
      done;
    }
  }

  /** "EndGlobal" is not a section header, so the section search passes over it. */
  lemma ReadEndGlobalLine(env: Collaborators, dir: string, r: Reading)
    requires Consistent(r) && r.mode == LookForGlobalSection
    ensures ReadLines(env, dir, r, [EndGlobalLine]) == r
  {
    assert [EndGlobalLine][..0] == [];
    assert TrimStart(EndGlobalLine) == EndGlobalLine && TrimEnd(EndGlobalLine) == EndGlobalLine;
    assert !StartsWith(EndGlobalLine, "GlobalSection");
  }

  /**
   * Save's lines read back: the reader recognises the version and rebuilds the
   * same projects and sections, in the same order, provided every project and
   * section writes itself in the form the reader parses.
   */
  lemma SaveThenRead(env: Collaborators, dir: string, version: string, ps: seq<SolutionProject>, ss: seq<GlobalSection>)
    requires VersionLines(version).Some?
    requires forall p :: p in ps ==> Reparsable(env, dir, p)
    requires forall s :: s in ss ==> Resectionable(env, s)
    ensures ReadLines(env, dir, Initial, SolutionLines(env, VersionLines(version).value, ps, ss))
         == Reading(LookForGlobalSection, version, ps, ss)
  {
    var front := VersionLines(version).value + ProjectBlocks(env, ps) + [GlobalLine];
    var back := SectionBlocks(env, ss) + [EndGlobalLine];
    assert SolutionLines(env, VersionLines(version).value, ps, ss) == front + back;
    ReadUpToGlobal(env, dir, version, ps);
    ReadLinesAppend(env, dir, Initial, front, back);
    ReadGlobalPart(env, dir, version, ps, ss);
  }

  // ---------------------------------------------------------------------------------------
  // ProjectConfigurationPlatforms

  /** Two section lists with the same headers (the longer one's extras not named `name`) find `name` at the same place. */
  lemma SameHeadersSameIndex(env: Collaborators, a: seq<GlobalSection>, b: seq<GlobalSection>, name: string)
    requires |a| <= |b|
    requires forall j :: 0 <= j < |a| ==> a[j].header == b[j].header
    requires forall j :: |a| <= j < |b| ==> env.sectionName(b[j].header) != name
    ensures FirstSectionIndex(env, a, name) == FirstSectionIndex(env, b, name)
  {
    forall j | 0 <= j < |a| ensures env.sectionName(a[j].header) == env.sectionName(b[j].header) {
    }
  }

  /** The section Save locates or appends for ProjectConfigurationPlatforms, when its header names that section. */
  predicate PlatformHeaderParses(env: Collaborators) {
    env.sectionName(ProjectConfigurationPlatformsHeader) == ProjectConfigurationPlatforms
  }

  /** Clearing the platform section leaves every header in place and the configurations as they were. */
  lemma ClearedKeepsConfigurations(env: Collaborators, ss: seq<GlobalSection>)
    requires PlatformHeaderParses(env)
    ensures var (cleared, i) := ClearedSections(env, ss);
            |cleared| >= |ss|
            && (forall j :: 0 <= j < |ss| ==> cleared[j].header == ss[j].header)
            && (forall j :: 0 <= j < |cleared| && j != i ==> cleared[j] == ss[j])
            && env.sectionName(cleared[i].header) == ProjectConfigurationPlatforms
            && cleared[i].properties == []
            && FirstSectionIndex(env, cleared, ProjectConfigurationPlatforms) == Some(i)
            && ConfigurationsOf(env, cleared) == ConfigurationsOf(env, ss)
  {
    var (cleared, i) := ClearedSections(env, ss);
    SameHeadersSameIndex(env, ss, cleared, SolutionConfigurationPlatforms);
    var found := FirstSectionIndex(env, ss, ProjectConfigurationPlatforms);
    if found.None? {
      forall j | 0 <= j < i ensures env.sectionName(cleared[j].header) != ProjectConfigurationPlatforms {
        assert cleared[j] == ss[j];
      }
      FirstIndexIs(env, cleared, ProjectConfigurationPlatforms, i);
    } else {
      SameHeadersSameIndex(env, ss, cleared, ProjectConfigurationPlatforms);
    }
    var c := FirstSectionIndex(env, ss, SolutionConfigurationPlatforms);
    if c.Some? {
      assert c.value != i;
    }
  }

  /** A section named `name` with no earlier one is the one found. */
  lemma FirstIndexIs(env: Collaborators, ss: seq<GlobalSection>, name: string, i: nat)
    requires i < |ss| && env.sectionName(ss[i].header) == name
    requires forall j :: 0 <= j < i ==> env.sectionName(ss[j].header) != name
    ensures FirstSectionIndex(env, ss, name) == Some(i)
  {
    var f := FirstSectionIndex(env, ss, name);
    assert f.Some?;
    assert !(f.value < i) && !(i < f.value);
  }

  /**
   * After the recomputation exactly one section was touched: the platform
   * section, found where it was or appended at the end, now holding the
   * configuration lines of every project; every other section is as it was.
   */
  lemma RecomputedLocated(env: Collaborators, ps: seq<SolutionProject>, ss: seq<GlobalSection>)
    requires PlatformHeaderParses(env)
    ensures var r := RecomputedSections(env, ps, ss);
            var found := FirstSectionIndex(env, ss, ProjectConfigurationPlatforms);
            |r| == (if found.None? then |ss| + 1 else |ss|)
            && FirstSectionIndex(env, r, ProjectConfigurationPlatforms).Some?
            && var i := FirstSectionIndex(env, r, ProjectConfigurationPlatforms).value;
               r[i].properties == PlatformLines(env, ps, ConfigurationsOf(env, ss))
               && (found.Some? ==> i == found.value && r[i].header == ss[i].header)
               && (found.None? ==> i == |ss| && r[i].header == ProjectConfigurationPlatformsHeader)
               && (forall j :: 0 <= j < |ss| && j != i ==> r[j] == ss[j])
  {
    var (cleared, i) := ClearedSections(env, ss);
    ClearedKeepsConfigurations(env, ss);
    var r := RecomputedSections(env, ps, ss);
    SameHeadersSameIndex(env, cleared, r, ProjectConfigurationPlatforms);
  }

  /** The configurations are read from a section the recomputation never touches. */
  lemma RecomputedKeepsConfigurations(env: Collaborators, ps: seq<SolutionProject>, ss: seq<GlobalSection>)
    requires PlatformHeaderParses(env)
    ensures ConfigurationsOf(env, RecomputedSections(env, ps, ss)) == ConfigurationsOf(env, ss)
  {
    var (cleared, i) := ClearedSections(env, ss);
    ClearedKeepsConfigurations(env, ss);
    var r := RecomputedSections(env, ps, ss);
    SameHeadersSameIndex(env, cleared, r, SolutionConfigurationPlatforms);
    var c := FirstSectionIndex(env, cleared, SolutionConfigurationPlatforms);
    if c.Some? {
      assert c.value != i;
    }
  }

  /** Recomputing twice is recomputing once, so saving twice writes the same text. */
  lemma RecomputeIdempotent(env: Collaborators, version: string, ps: seq<SolutionProject>, ss: seq<GlobalSection>)
    requires PlatformHeaderParses(env)
    ensures RecomputedSections(env, ps, RecomputedSections(env, ps, ss)) == RecomputedSections(env, ps, ss)
    ensures SavedText(env, version, ps, RecomputedSections(env, ps, RecomputedSections(env, ps, ss)))
         == SavedText(env, version, ps, RecomputedSections(env, ps, ss))
  {
    var (cleared, i) := ClearedSections(env, ss);
    ClearedKeepsConfigurations(env, ss);
    var r := RecomputedSections(env, ps, ss);
    SameHeadersSameIndex(env, cleared, r, ProjectConfigurationPlatforms);
    assert FirstSectionIndex(env, r, ProjectConfigurationPlatforms) == Some(i);
    assert r[i := r[i].(properties := [])] == cleared;
    assert ClearedSections(env, r) == (cleared, i);
  }

  /**
   * Load then save: a file in the form Save writes, once loaded and saved again,
   * is written back as the same text.
   */
  lemma LoadThenSave(env: Collaborators, dir: string, version: string, ps: seq<SolutionProject>, ss0: seq<GlobalSection>)
    requires PlatformHeaderParses(env)
    requires VersionLines(version).Some?
    requires forall p :: p in ps ==> Reparsable(env, dir, p)
    requires forall s :: s in RecomputedSections(env, ps, ss0) ==> Resectionable(env, s)
    ensures var ss := RecomputedSections(env, ps, ss0);
            var file := SolutionLines(env, VersionLines(version).value, ps, ss);
            var r := ReadLines(env, dir, Initial, file);
            SavedText(env, r.version, r.projects, RecomputedSections(env, r.projects, r.sections))
            == Ok(TrimEnd(Unlines(file, env.newLine)))
  {
    SaveThenRead(env, dir, version, ps, RecomputedSections(env, ps, ss0));
    RecomputeIdempotent(env, version, ps, ss0);
  }

  /** Projects outside the "Solution Items" folder. */
  function NonFolderCount(ps: seq<SolutionProject>): nat
    decreases |ps|
  {
    if ps == [] then 0
    else NonFolderCount(ps[..|ps| - 1]) + (if ps[|ps| - 1].name == SolutionItems then 0 else 1)
  }

  lemma {:induction false} ConfigurationLinesCount(env: Collaborators, cs: seq<BuildConfiguration>, p: SolutionProject, k: nat)
    requires forall c, q :: |env.configurationLines(c, q)| == k
    ensures |ConfigurationLines(env, cs, p)| == k * |cs|
    decreases |cs|
  {
    if cs != [] {
      ConfigurationLinesCount(env, cs[..|cs| - 1], p, k);
      assert k * |cs| == k * (|cs| - 1) + k;
    }
  }

  /** With k lines per configuration and project, the section holds k lines per configuration for every non-folder project. */
  lemma {:induction false} PlatformLinesCount(env: Collaborators, ps: seq<SolutionProject>, cs: seq<BuildConfiguration>, k: nat)
    requires forall c, q :: |env.configurationLines(c, q)| == k
    ensures |PlatformLines(env, ps, cs)| == k * |cs| * NonFolderCount(ps)
    decreases |ps|
  {
    if ps != [] {
      PlatformLinesCount(env, ps[..|ps| - 1], cs, k);
      ConfigurationLinesCount(env, cs, ps[|ps| - 1], k);
      MultiplySuccessor(k * |cs|, NonFolderCount(ps[..|ps| - 1]));
    }
  }

  lemma MultiplySuccessor(m: int, n: int)
    ensures m * (n + 1) == m * n + m
  {
  }

  // ---------------------------------------------------------------------------------------
  // Adding projects

  predicate DistinctNames(ps: seq<SolutionProject>) {
    forall i, j :: 0 <= i < j < |ps| ==> ps[i].name != ps[j].name
  }

  /** Adding a project whose name is already present changes nothing. */
  lemma AddProjectIdempotent(ps: seq<SolutionProject>, a: SolutionProject, b: SolutionProject)
    requires a.name == b.name
    ensures AddProjectTo(AddProjectTo(ps, a), b) == AddProjectTo(ps, a)
  {
    var ps' := AddProjectTo(ps, a);
    if FirstProjectIndex(ps, a.name).None? {
      assert ps'[|ps|].name == b.name;
    }
  }

  /** Adding keeps the names distinct, keeps the old projects first, and leaves the name findable. */
  lemma AddProjectKeepsNamesDistinct(ps: seq<SolutionProject>, p: SolutionProject)
    requires DistinctNames(ps)
    ensures var ps' := AddProjectTo(ps, p);
            DistinctNames(ps') && ps' [..|ps|] == ps && FirstProjectIndex(ps', p.name).Some?
  {
    var ps' := AddProjectTo(ps, p);
    assert ps'[..|ps|] == ps;
    if FirstProjectIndex(ps, p.name).None? {
      assert ps'[|ps|].name == p.name;
    }
  }
}
