/**
 * The older project file class at the root of the library: the same property
 * and item rules as the cached class, without an item cache — every
 * enumeration reads fresh item objects — and with CreateAtSolutionDirectory.
 *
 * MSBuildProject.Create and Guid.NewGuid are not part of this model: the
 * created tree and the new GUID's text are parameters of
 * CreateAtSolutionDirectory.
 */
module LegacyCsProj {
  import opened Wrappers
  import opened Text
  import opened MSBuild
  import opened MSBuildProperties
  import opened ProjectFiles
  import Paths

  const CsProjExtension := ".csproj"

  class CsProjFile {
    const fileName: string
    const paths: Paths.PathOps
    var project: Tree

    /** new CsProjFile(fileName, project). */
    constructor (fileName: string, project: Tree, paths: Paths.PathOps)
      ensures this.fileName == fileName && this.project == project && this.paths == paths
    {
      this.fileName := fileName;
      this.project := project;
      this.paths := paths;
    }

    /** ProjectName: the file name without its extension. */
    function ProjectName(): string {
      paths.fileNameWithoutExtension(fileName)
    }

    /** ProjectDirectory: the directory of the file. */
    function ProjectDirectory(): string {
      paths.parentDirectory(fileName)
    }

    /** The ProjectGuid getter. */
    function ProjectGuid(): string
      reads this
    {
      ProjectGuidOf(project.propertyGroups)
    }

    /** The DotNetVersion getter; None stands for null. */
    function DotNetVersion(): Option<string>
      reads this
    {
      FirstNonEmpty(project.propertyGroups, TargetFrameworkVersionProperty)
    }

    // -------------------------------------------------------------------------------------
    // Properties

    /** The AssemblyName / RootNamespace getter shape. */
    method ReadNamed(name: string) returns (value: string)
      modifies this
      ensures (project, value) == ReadProperty(old(project), name)
      ensures old(project).propertyGroups != [] ==> project == old(project)
      ensures value == match HolderIndex(old(project).propertyGroups, name)
                       case None => ""
                       case Some(i) => GetPropertyValue(old(project).propertyGroups[i], name)
    {
      ReadPropertyFacts(project, name);
      var (read, v) := ReadProperty(project, name);
      project, value := read, v;
    }

    /** The shape of every setter, the internal ProjectGuid setter included. */
    method WriteNamed(name: string, value: string)
      modifies this
      ensures project == SetProperty(old(project), name, value)
      ensures ReadProperty(project, name) == (project, value)
      ensures value != "" ==> FirstNonEmpty(project.propertyGroups, name) == Some(value)
      ensures forall other :: other != name ==>
                ReadProperty(project, other).1 == ReadProperty(old(project), other).1
                && FirstNonEmpty(project.propertyGroups, other) == FirstNonEmpty(old(project).propertyGroups, other)
      ensures project.itemGroups == old(project).itemGroups
    {
      SetPropertyFacts(project, name, value);
      project := SetProperty(project, name, value);
    }

    /** The AssemblyName getter: the value in the first group holding it, or ""; a project without groups gains one. */
    method AssemblyName() returns (value: string)
      modifies this
      ensures (project, value) == ReadProperty(old(project), AssemblyNameProperty)
      ensures old(project).propertyGroups != [] ==> project == old(project)
      ensures value == match HolderIndex(old(project).propertyGroups, AssemblyNameProperty)
                       case None => ""
                       case Some(i) => GetPropertyValue(old(project).propertyGroups[i], AssemblyNameProperty)
    {
      value := ReadNamed(AssemblyNameProperty);
    }

    /** The AssemblyName setter: the value goes to the group the getter reads. */
    method SetAssemblyName(value: string)
      modifies this
      ensures project == SetProperty(old(project), AssemblyNameProperty, value)
      ensures ReadProperty(project, AssemblyNameProperty).1 == value
      ensures ReadProperty(project, RootNamespaceProperty).1 == ReadProperty(old(project), RootNamespaceProperty).1
      ensures ProjectGuid() == old(ProjectGuid()) && DotNetVersion() == old(DotNetVersion())
      ensures project.itemGroups == old(project.itemGroups)
    {
      WriteNamed(AssemblyNameProperty, value);
    }

    /** The RootNamespace getter: the value in the first group holding it, or ""; a project without groups gains one. */
    method RootNamespace() returns (value: string)
      modifies this
      ensures (project, value) == ReadProperty(old(project), RootNamespaceProperty)
      ensures old(project).propertyGroups != [] ==> project == old(project)
      ensures value == match HolderIndex(old(project).propertyGroups, RootNamespaceProperty)
                       case None => ""
                       case Some(i) => GetPropertyValue(old(project).propertyGroups[i], RootNamespaceProperty)
    {
      value := ReadNamed(RootNamespaceProperty);
    }

    /** The RootNamespace setter: the value goes to the group the getter reads. */
    method SetRootNamespace(value: string)
      modifies this
      ensures project == SetProperty(old(project), RootNamespaceProperty, value)
      ensures ReadProperty(project, RootNamespaceProperty).1 == value
      ensures ReadProperty(project, AssemblyNameProperty).1 == ReadProperty(old(project), AssemblyNameProperty).1
      ensures ProjectGuid() == old(ProjectGuid()) && DotNetVersion() == old(DotNetVersion())
      ensures project.itemGroups == old(project.itemGroups)
    {
      WriteNamed(RootNamespaceProperty, value);
    }

    /** The DotNetVersion setter; a non-empty value is what the getter then returns. */
    method SetDotNetVersion(value: string)
      modifies this
      ensures project == SetProperty(old(project), TargetFrameworkVersionProperty, value)
      ensures value != "" ==> DotNetVersion() == Some(value)
      ensures ProjectGuid() == old(ProjectGuid())
      ensures project.itemGroups == old(project.itemGroups)
    {
      WriteNamed(TargetFrameworkVersionProperty, value);
    }

    /** The internal ProjectGuid setter: the GUID's text upper-cased, read back without braces. */
    method SetProjectGuid(newGuid: string)
      modifies this
      ensures project == SetProperty(old(project), ProjectGuidProperty, ToUpper(newGuid))
      ensures newGuid != "" ==> ProjectGuid() == StripBraces(ToUpper(newGuid))
      ensures DotNetVersion() == old(DotNetVersion())
      ensures project.itemGroups == old(project.itemGroups)
    {
      WriteNamed(ProjectGuidProperty, ToUpper(newGuid));
    }

    /** ProjectTypes(). */
    method ProjectTypes() returns (types: seq<string>)
      ensures types == ProjectTypesOf(project.propertyGroups)
      ensures |types| >= 1
    {
      types := CollectProjectTypes(project.propertyGroups);
    }

    // -------------------------------------------------------------------------------------
    // Items

    /** Add(item): the element goes where PlaceItem puts it. */
    method Add(item: ProjectItem)
      modifies this
      ensures project == PlaceItem(old(project), item.kind.name, item.includeValue, item.kind.matches)
      ensures Element(item.kind.name, item.includeValue) in SortedItems(project, item.kind.name)
    {
      PlacedItemSorted(project, item.kind.name, item.includeValue, item.kind.matches);
      project := PlaceItem(project, item.kind.name, item.includeValue, item.kind.matches);
    }

    /** Add<T>(include): a new item of that Include, placed. */
    method AddNew(kind: ItemKind, includeValue: string) returns (item: ProjectItem)
      modifies this
      ensures fresh(item) && item.kind == kind && item.includeValue == includeValue
      ensures project == PlaceItem(old(project), kind.name, includeValue, kind.matches)
    {
      item := new ProjectItem(kind, includeValue);
      Add(item);
    }

    /** All<T>(): one new item object per element of T's name, sorted by Include. */
    method All(kind: ItemKind) returns (items: seq<ProjectItem>)
      ensures |items| == |SortedItems(project, kind.name)|
      ensures forall k :: 0 <= k < |items| ==>
                fresh(items[k]) && items[k].kind == kind
                && items[k].includeValue == SortedItems(project, kind.name)[k].includeValue
      ensures forall k, m :: 0 <= k < m < |items| ==> items[k] != items[m]
    {
      var listing := SortedItems(project, kind.name);
      items := [];
      for k := 0 to |listing|
        invariant |items| == k
        invariant forall m :: 0 <= m < k ==>
                    fresh(items[m]) && items[m].kind == kind && items[m].includeValue == listing[m].includeValue
        invariant forall m, n :: 0 <= m < n < k ==> items[m] != items[n]
      {
        var item := new ProjectItem(kind, listing[k].includeValue);
        items := items + [item];
      }
    }

    /** Find<T>(include): a new item object for that Include when T's listing has one, else None. */
    method Find(kind: ItemKind, includeValue: string) returns (r: Option<ProjectItem>)
      ensures r.Some? <==> includeValue in Includes(AllItems(project, kind.name))
      ensures r.Some? ==> fresh(r.value) && r.value.kind == kind && r.value.includeValue == includeValue
    {
      var items := All(kind);
      ghost var listing := SortedItems(project, kind.name);
      SortedSameIncludes(project, kind.name);
      var k := FirstWithInclude(items, includeValue);
      if k < |items| {
        assert listing[k] in listing;
        return Some(items[k]);
      }
      IncludesOfListing(listing, items, includeValue);
      return None;
    }

    /** Remove<T>(include): the first element of T's name with that Include. */
    method Remove(kind: ItemKind, includeValue: string)
      modifies this
      ensures project == RemoveFirst(old(project), kind.name, includeValue)
      ensures Element(kind.name, includeValue) in AllItems(old(project), kind.name) ==>
                multiset(AllItems(project, kind.name)) == multiset(AllItems(old(project), kind.name)) - multiset{Element(kind.name, includeValue)}
      ensures Element(kind.name, includeValue) !in AllItems(old(project), kind.name) ==> project == old(project)
      ensures forall other :: other != kind.name ==> AllItems(project, other) == AllItems(old(project), other)
    {
      forall other | other != kind.name
        ensures AllItems(RemoveFirst(project, kind.name, includeValue), other) == AllItems(project, other)
      {
        RemoveFirstEffect(project, kind.name, includeValue, other);
      }
      RemoveFirstEffect(project, kind.name, includeValue, kind.name + "'");
      project := RemoveFirst(project, kind.name, includeValue);
    }

    /** Remove(item): Remove<T>(item.Include) for the item's own type. */
    method RemoveItem(item: ProjectItem)
      modifies this
      ensures project == RemoveFirst(old(project), item.kind.name, item.includeValue)
      ensures Element(item.kind.name, item.includeValue) !in AllItems(old(project), item.kind.name) ==> project == old(project)
    {
      Remove(item.kind, item.includeValue);
    }

    /** Save(file): the tree, written to that file. */
    method SaveAs(file: string) returns (target: string, written: Tree)
      ensures target == file && written == project
    {
      target, written := file, project;
    }

    /** Save(): Save(fileName). */
    method Save() returns (target: string, written: Tree)
      ensures target == fileName && written == project
    {
      target, written := SaveAs(fileName);
    }

    /**
     * CreateAtSolutionDirectory: <directory>/<name>/<name>.csproj, the new GUID
     * upper-cased into the created tree, then RootNamespace and AssemblyName
     * set to the project name.
     */
    static method CreateAtSolutionDirectory(assemblyName: string, directory: string, created: Tree, newGuid: string, paths: Paths.PathOps)
      returns (file: CsProjFile)
      ensures fresh(file) && file.paths == paths
      ensures file.fileName == paths.appendPath(paths.appendPath(directory, assemblyName), assemblyName) + CsProjExtension
      ensures file.project == SetProperty(SetProperty(SetProperty(created, ProjectGuidProperty, ToUpper(newGuid)),
                                                      RootNamespaceProperty, file.ProjectName()),
                                          AssemblyNameProperty, file.ProjectName())
      ensures ReadProperty(file.project, AssemblyNameProperty).1 == file.ProjectName()
      ensures ReadProperty(file.project, RootNamespaceProperty).1 == file.ProjectName()
      ensures newGuid != "" ==> file.ProjectGuid() == StripBraces(ToUpper(newGuid))
      ensures file.project.itemGroups == created.itemGroups
    {
      var fileName := paths.appendPath(paths.appendPath(directory, assemblyName), assemblyName) + CsProjExtension;
      SetPropertyFacts(created, ProjectGuidProperty, ToUpper(newGuid));
      file := new CsProjFile(fileName, SetProperty(created, ProjectGuidProperty, ToUpper(newGuid)), paths);
      var name := file.ProjectName();
      file.SetRootNamespace(name);
      file.SetAssemblyName(name);
    }
  }
}
