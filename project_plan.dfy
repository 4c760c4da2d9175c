/**
 * ProjectPlan: the template step that finds or creates one project in the
 * solution, records its substitutions, and applies its project alterations in
 * the order they were added; with the namespace rule for template files and
 * the nuget import statement.
 *
 * Substitutions is not part of this model; it is taken to be a key-to-value
 * map whose Set overwrites. Logging and the write of the substitutions file
 * are left out. Of the alterations, only ProjectDirectory is visible: it
 * creates a directory under the project directory. Others are named only.
 */
module ProjectPlans {
  import opened Wrappers
  import opened Text
  import opened SolutionFile
  import opened ProjectDirectories

  const NamespaceKey := "%NAMESPACE%"
  const AssemblyNameKey := "%ASSEMBLY_NAME%"
  const ProjectPathKey := "%PROJECT_PATH%"
  const TemplateFile := "csproj.xml"

  /** An IProjectAlteration added to a plan. */
  datatype Alteration =
    | DirectoryAlteration(directory: ProjectDirectory)
    | OtherAlteration(description: string)

  // ---------------------------------------------------------------------------------------
  // Namespaces

  /** The directory segments of a '/'-separated path: every piece but the file name. */
  function Segments(relativePath: string): seq<string> {
    var pieces := Split(relativePath, '/');
    pieces[..|pieces| - 1]
  }

  /**
   * Split('/').Reverse().Skip(1).Union([projectName]).Reverse(): the segments
   * nearest the file first, each kept once, the project name added unless
   * present, and the order turned back.
   */
  function NamespacePieces(relativePath: string, projectName: string): seq<string> {
    Reverse(Distinct(Reverse(Split(relativePath, '/'))[1..] + [projectName]))
  }

  /** GetNamespace: the pieces joined with '.'. */
  function GetNamespace(relativePath: string, projectName: string): string {
    Join(NamespacePieces(relativePath, projectName), ".")
  }

  lemma ReversedTail(relativePath: string)
    ensures Reverse(Split(relativePath, '/'))[1..] == Reverse(Segments(relativePath))
  {
  }

  /** Every segment and the project name appear in the namespace, exactly once each, and nothing else. */
  lemma NamespaceElements(relativePath: string, projectName: string)
    ensures var ns := NamespacePieces(relativePath, projectName);
            NoDuplicates(ns) && (forall x :: x in ns <==> x in Segments(relativePath) || x == projectName)
  {
    ReversedTail(relativePath);
    ReverseMembers(Distinct(Reverse(Segments(relativePath)) + [projectName]));
    ReverseMembers(Segments(relativePath));
  }

  /** Distinct segments without the project name: the project name, then the segments in path order. */
  lemma NamespaceOfDistinctSegments(relativePath: string, projectName: string)
    requires NoDuplicates(Segments(relativePath)) && projectName !in Segments(relativePath)
    ensures NamespacePieces(relativePath, projectName) == [projectName] + Segments(relativePath)
    ensures GetNamespace(relativePath, projectName) == Join([projectName] + Segments(relativePath), ".")
  {
    var s := Segments(relativePath);
    ReversedTail(relativePath);
    var r := Reverse(s) + [projectName];
    assert NoDuplicates(r) by {
      forall i, j | 0 <= i < j < |r| ensures r[i] != r[j] {
        if j < |s| {
          assert r[i] == s[|s| - 1 - i] && r[j] == s[|s| - 1 - j];
        } else {
          assert r[i] == s[|s| - 1 - i];
        }
      }
    }
    DistinctOfNoDuplicates(r);
    ReverseSnoc(Reverse(s), projectName);
    ReverseReverse(s);
  }

  /** A project name that already is a segment is not put in front again. */
  lemma NamespaceWithProjectSegment(relativePath: string, projectName: string)
    requires projectName in Segments(relativePath)
    ensures NamespacePieces(relativePath, projectName) == Reverse(Distinct(Reverse(Segments(relativePath))))
  {
    ReversedTail(relativePath);
    var s := Segments(relativePath);
    var k :| 0 <= k < |s| && s[k] == projectName;
    assert Reverse(s)[|s| - 1 - k] == projectName;
    DistinctSnoc(Reverse(s), projectName);
  }

  lemma SplitWithoutSeparator(s: string, sep: char)
    requires sep !in s
    ensures Split(s, sep) == [s]
    decreases |s|
  {
    if |s| > 0 {
      SplitWithoutSeparator(s[1..], sep);
      assert s == [s[0]] + s[1..];
    }
  }

  /** A bare file name yields the project name alone. */
  lemma NamespaceOfBareFile(fileName: string, projectName: string)
    requires '/' !in fileName
    ensures GetNamespace(fileName, projectName) == projectName
  {
    calc {
      NamespacePieces(fileName, projectName);
      Reverse(Distinct(Reverse(Split(fileName, '/'))[1..] + [projectName]));
      { SplitWithoutSeparator(fileName, '/'); }
      Reverse(Distinct(Reverse([fileName])[1..] + [projectName]));
      { assert Reverse([fileName])[1..] + [projectName] == [projectName]; }
      Reverse(Distinct([projectName]));
      { DistinctOfNoDuplicates([projectName]); }
      Reverse([projectName]);
      [projectName];
    }
  }

  /** Split on a string that starts with one given character. */
  lemma SplitCons(c: char, s: string, sep: char)
    ensures c == sep ==> Split([c] + s, sep) == [""] + Split(s, sep)
    ensures c != sep ==> Split([c] + s, sep) == [[c] + Split(s, sep)[0]] + Split(s, sep)[1..]
  {
    assert ([c] + s)[0] == c && ([c] + s)[1..] == s;
  }

  /** Three one-letter directories and a file name split into exactly those four pieces. */
  lemma SplitOfThreeDirectories(a: char, b: char, c: char, file: string)
    requires a != '/' && b != '/' && c != '/' && '/' !in file
    ensures Split([a, '/', b, '/', c, '/'] + file, '/') == [[a], [b], [c], file]
  {
    var s5 := ['/'] + file;
    var s4 := [c] + s5;
    var s3 := ['/'] + s4;
    var s2 := [b] + s3;
    var s1 := ['/'] + s2;
    assert [a, '/', b, '/', c, '/'] + file == [a] + s1;
    SplitWithoutSeparator(file, '/');
    SplitCons('/', file, '/');
    SplitCons(c, s5, '/');
    assert [c] + "" == [c];
    SplitCons('/', s4, '/');
    SplitCons(b, s3, '/');
    assert [b] + "" == [b];
    SplitCons('/', s2, '/');
    SplitCons(a, s1, '/');
    assert [a] + "" == [a];
  }

  /**
   * The order Union leaves: a repeated segment is kept at its occurrence nearest
   * the file, and the project name leads unless it already is a segment.
   */
  lemma NamespaceKeepsLastOccurrences(relativePath: string, projectName: string)
    ensures var s := Segments(relativePath);
            NamespacePieces(relativePath, projectName)
            == (if projectName in s then [] else [projectName]) + LastOccurrences(s)
  {
    var s := Segments(relativePath);
    ReversedTail(relativePath);
    DistinctSnoc(Reverse(s), projectName);
    ReverseMembers(s);
    DistinctOfReverse(s);
    ReverseReverse(LastOccurrences(s));
    ReverseSnoc(Reverse(LastOccurrences(s)), projectName);
  }

  lemma SegmentsOfExample()
    ensures Segments("A/B/A/x.cs") == ["A", "B", "A"]
  {
    assert "A/B/A/x.cs" == ['A', '/', 'B', '/', 'A', '/'] + "x.cs";
    SplitOfThreeDirectories('A', 'B', 'A', "x.cs");
  }

  lemma LastOccurrencesOfRepeat(a: string, b: string)
    requires a != b
    ensures LastOccurrences([a, b, a]) == [b, a]
  {
    var s := [a, b, a];
    assert s[1..] == [b, a] && s[1..][1..] == [a] && s[1..][1..][1..] == [];
    assert LastOccurrences([a]) == [a];
    assert LastOccurrences([b, a]) == [b, a];
  }

  /** A repeated segment keeps the occurrence nearest the file: "A/B/A/x.cs" in project P gives P.B.A. */
  lemma NamespaceOfRepeatedSegment()
    ensures NamespacePieces("A/B/A/x.cs", "P") == ["P", "B", "A"]
    ensures GetNamespace("A/B/A/x.cs", "P") == Join(["P", "B", "A"], ".")
  {
    SegmentsOfExample();
    NamespaceKeepsLastOccurrences("A/B/A/x.cs", "P");
    LastOccurrencesOfRepeat("A", "B");
    assert "P" !in ["A", "B", "A"];
  }

  /** writeNamespace: %NAMESPACE% becomes the namespace, only when a relative path is given ("" stands for null). */
  function WriteNamespace(relativePath: string, projectName: string, text: string): string {
    if relativePath != "" then ReplaceAll(text, NamespaceKey, GetNamespace(relativePath, projectName)) else text
  }

  /** Without a relative path, or without the token, the text is left as it is. */
  lemma WriteNamespaceUnchanged(relativePath: string, projectName: string, text: string)
    requires relativePath == "" || !ContainsSequence(text, NamespaceKey)
    ensures WriteNamespace(relativePath, projectName, text) == text
  {
    if relativePath != "" { ReplaceAbsent(text, NamespaceKey, GetNamespace(relativePath, projectName)); }
  }

  /** With a relative path, an occurrence of %NAMESPACE% becomes the namespace, and the rest of the text is rewritten in turn. */
  lemma WriteNamespaceReplaces(relativePath: string, projectName: string, a: string, b: string)
    requires relativePath != "" && '%' !in a
    ensures WriteNamespace(relativePath, projectName, a + NamespaceKey + b)
         == a + GetNamespace(relativePath, projectName) + WriteNamespace(relativePath, projectName, b)
  {
    ReplaceAllAfter(a, NamespaceKey, GetNamespace(relativePath, projectName), b);
  }

  // ---------------------------------------------------------------------------------------
  // The nuget import statement

  /** "{0}: {1}" of the project name and the declarations, ordered, joined with ", ". */
  function NugetImportStatement(projectName: string, declarations: seq<string>): string {
    projectName + ": " + Join(SortBy(declarations, Itself), ", ")
  }

  /** The statement depends on which declarations there are, not on the order they were added in. */
  lemma NugetStatementOrderIndependent(projectName: string, a: seq<string>, b: seq<string>)
    requires multiset(a) == multiset(b)
    ensures NugetImportStatement(projectName, a) == NugetImportStatement(projectName, b)
  {
    SortedUnique(SortBy(a, Itself), SortBy(b, Itself));
  }

  /** The statement lists the sorted declarations after the name: any ordinal sorting of them, joined with ", ". */
  lemma NugetStatementShape(projectName: string, declarations: seq<string>)
    ensures StartsWith(NugetImportStatement(projectName, declarations), projectName + ": ")
    ensures forall sorted :: multiset(sorted) == multiset(declarations) && SortedBy(sorted, Itself) ==>
              NugetImportStatement(projectName, declarations) == projectName + ": " + Join(sorted, ", ")
    ensures declarations == [] ==> NugetImportStatement(projectName, declarations) == projectName + ": "
  {
    var r := NugetImportStatement(projectName, declarations);
    assert r[..|projectName + ": "|] == projectName + ": ";
    forall sorted | multiset(sorted) == multiset(declarations) && SortedBy(sorted, Itself)
      ensures r == projectName + ": " + Join(sorted, ", ")
    {
      SortedUnique(SortBy(declarations, Itself), sorted);
    }
  }

  /** The directories Alter creates after the project directory: one per ProjectDirectory alteration, in order. */
  function CreatedDirectories(alterations: seq<Alteration>, projectDirectory: string, appendPath: (string, string) -> string): seq<string>
    decreases |alterations|
  {
    if alterations == [] then []
    else
      var last := alterations[|alterations| - 1];
      CreatedDirectories(alterations[..|alterations| - 1], projectDirectory, appendPath)
      + (if last.DirectoryAlteration? then [appendPath(projectDirectory, last.directory.relativePath)] else [])
  }

  /** What Alter did besides changing the solution: the project it used, the directories made, the alterations applied. */
  datatype Altered = Altered(reference: SolutionProject, directories: seq<string>, applied: seq<Alteration>)

  class ProjectPlan {
    const projectName: string
    var substitutions: map<string, string>
    var alterations: seq<Alteration>
    var nugetDeclarations: seq<string>
    /** `_relativePath`: None until Alter runs. */
    var relativePath: Option<string>
    /** ProjectTemplateFile; "" stands for null or empty. */
    var projectTemplateFile: string

    /** new ProjectPlan(projectName): %ASSEMBLY_NAME% is the project name. */
    constructor (projectName: string)
      ensures this.projectName == projectName
      ensures substitutions == map[AssemblyNameKey := projectName]
      ensures alterations == [] && nugetDeclarations == [] && relativePath.None? && projectTemplateFile == ""
    {
      this.projectName := projectName;
      substitutions := map[AssemblyNameKey := projectName];
      alterations := [];
      nugetDeclarations := [];
      relativePath := None;
      projectTemplateFile := "";
    }

    /** Add(alteration): appended at the end. */
    method Add(alteration: Alteration)
      modifies this
      ensures alterations == old(alterations) + [alteration]
      ensures substitutions == old(substitutions) && nugetDeclarations == old(nugetDeclarations)
      ensures relativePath == old(relativePath) && projectTemplateFile == old(projectTemplateFile)
    {
      alterations := alterations + [alteration];
    }

    function ToNugetImportStatement(): string
      reads this
    {
      NugetImportStatement(projectName, nugetDeclarations)
    }

    /**
     * Alter: the solution's project of that name, else a project added from
     * the default template or from ProjectTemplateFile; then %PROJECT_PATH% is
     * its file relative to the root with '/' separators, and every alteration
     * is applied in order. `guid` stands for the new project's Guid.NewGuid.
     */
    method Alter(solution: Solution, root: string, guid: string) returns (result: Altered)
      modifies this, solution
      ensures solution.version == old(solution.version) && solution.sections == old(solution.sections)
      ensures old(solution.FindProject(projectName)).Some? ==>
                result.reference == old(solution.FindProject(projectName)).value && solution.projects == old(solution.projects)
      ensures old(solution.FindProject(projectName)).None? ==>
                result.reference.name == projectName && solution.projects == old(solution.projects) + [result.reference]
                && (if old(projectTemplateFile) == "" then result.reference.origin == CreatedDefault(guid)
                    else result.reference.origin == CreatedFromTemplate(old(projectTemplateFile), guid))
      ensures var path := ReplaceChar(solution.env.paths.pathRelativeTo(result.reference.fileName, root), '\\', '/');
              relativePath == Some(path) && substitutions == old(substitutions)[ProjectPathKey := path]
      ensures relativePath.Some? && '\\' !in relativePath.value
      ensures result.applied == alterations
      ensures var directory := solution.env.paths.parentDirectory(result.reference.fileName);
              result.directories == [directory] + CreatedDirectories(alterations, directory, solution.env.paths.appendPath)
      ensures alterations == old(alterations) && nugetDeclarations == old(nugetDeclarations)
      ensures projectTemplateFile == old(projectTemplateFile)
    {
      var found := solution.FindProject(projectName);
      var reference: SolutionProject;
      if found.Some? {
        reference := found.value;
      } else if projectTemplateFile == "" {
        reference := solution.AddProject(projectName, guid);
      } else {
        var added := solution.AddProjectFromTemplate(projectName, projectTemplateFile, guid);
        reference := added.value;
      }
      var paths := solution.env.paths;
      var directory := paths.parentDirectory(reference.fileName);
      var path := ReplaceChar(paths.pathRelativeTo(reference.fileName, root), '\\', '/');
      relativePath := Some(path);
      substitutions := substitutions[ProjectPathKey := path];
      var applied: seq<Alteration> := [];
      var directories := [directory];
      for i := 0 to |alterations|
        invariant applied == alterations[..i]
        invariant directories == [directory] + CreatedDirectories(alterations[..i], directory, paths.appendPath)
      {
        var alteration := alterations[i];
        if alteration.DirectoryAlteration? {
          directories := directories + [paths.appendPath(directory, alteration.directory.relativePath)];
        }
        applied := applied + [alteration];
        assert alterations[..i + 1][..i] == alterations[..i];
      }
      assert alterations[..|alterations|] == alterations;
      result := Altered(reference, directories, applied);
    }
  }
}
