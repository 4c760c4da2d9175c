# FubuCsProjFile in Dafny

A model of the core of FubuCsProjFile, a .NET library that reads and writes Visual Studio solution (`.sln`) and C# project (`.csproj`) files, together with the scaffolding rules its templating engine uses to create solutions and projects. The model covers:

- **Solution file** (`solution.dfy`, `solution_properties.dfy`).
  - The four-state line reader that builds a solution's version, project list and global-section list.
  - Project lookup and the two ways of adding a project.
  - The save, which first rebuilds the `ProjectConfigurationPlatforms` section and then writes the preamble, the projects, `Global`, the sections and `EndGlobal`.
  - Proved: the reader reads back what the save writes, and a file the save wrote saves again to the same text once loaded; the section rebuild is located, sized and idempotent; once `Global` has been read, no further project is read; adding never duplicates a project name.
- **MSBuild tree** (`msbuild.dfy`, `msbuild_properties.dfy`).
  - Property groups and item groups, and the rules both project-file classes share.
  - Reads: a getter reads the first group holding the name; the ProjectGuid and DotNetVersion getters take the first non-empty value.
  - Writes: a setter writes to the first group holding the name, else the first group, else a new group.
  - Items: an item goes to the first group its `Matches` accepts, else the first group holding its name, else a new group. A removal takes out the first element of that name and Include.
- **Project file with an item cache** (`csproj.dfy`, `project_files.dfy`). The class in `ProjectFiles/CsProj`, whose cache maps each Include to the one item object handed out for it.
- **Legacy project file** (`legacy_csproj.dfy`). The older class, which has no cache, plus `CreateAtSolutionDirectory`.
- **Templating** (`project_plan.dfy`, `template_planner.dfy`, `template_classes.dfy`, `project_directory.dfy`, `rake_file.dfy`).
  - The namespace rule for generated files and the nuget import statement.
  - A project plan's find-or-create step and the order in which it applies its alterations.
  - A template planner's ordered registration and the phase order of `CreatePlan`.
  - The plan builder's choice between reading and creating a solution.
  - The backslash normalisation and equality of `ProjectDirectory`.
  - The append-if-absent rakefile transform.

`text.dfy`, `paths.dfy` and `wrappers.dfy` hold the pieces of the .NET base library and FubuCore that the rest relies on:

- string trimming, splitting, replacing, ordering and sorting;
- `Path.GetExtension`, which scans back to the last dot and stops at `/`, `\` or `:` as on Windows;
- `Option` and `Result`.

Classes the library uses but whose code is not part of this model are given the least behaviour their callers rely on, and their remaining work is an uninterpreted function. These are:

- how `SolutionProject` and `GlobalSection` parse and write themselves;
- `BuildConfiguration`;
- the FubuCore path helpers;
- `ProjectItem.Matches`.

Where an exception is thrown, the model returns `Result.Err`; a null string is modelled as `""`.

The code is followed where a plain reading of the library's intent might differ:

- The AssemblyName and RootNamespace getters read the first group that *holds* the name, even when its value is empty, rather than scanning for the first non-empty value.
- `GetNamespace` uses a set union, so a repeated directory segment appears once, at its occurrence nearest the file. The rule "the project name followed by every directory segment in path order" holds only for distinct segments that do not include the project name (`NamespaceOfDistinctSegments` and `NamespaceOfRepeatedSegment`). In general the namespace is the project name, unless it is a segment, followed by the last occurrence of each segment in path order (`NamespaceKeepsLastOccurrences`).

## Model

| member | source | states |
|---|---|---|
| SolutionFile.VersionLines | src/FubuCsProjFile/Solution.cs:24-31 | the preamble lines of VS2010, VS2012 and VS2013; no entry for any other key |
| SolutionFile.NormalReadStep | src/FubuCsProjFile/Solution.cs:144-166 | "Global" moves to section search; "Project" appends one parsed project and enters the project state; otherwise an empty version may be recognised from the trimmed line |
| SolutionFile.LookForGlobalSectionStep | src/FubuCsProjFile/Solution.cs:109-118 | a line starting with "GlobalSection" once trimmed opens a new section, holding the trimmed header, and switches to section reading; any other line is ignored (section blocks read back: `SolutionProperties.ReadSectionBlock`) |
| SolutionFile.ReadSectionStep | src/FubuCsProjFile/Solution.cs:120-130 | "EndGlobalSection" once trimmed returns to section search; any other line is added, untrimmed, to the last section |
| SolutionFile.ReadProjectStep | src/FubuCsProjFile/Solution.cs:132-142 | a line starting with "EndProject" returns to normal reading; any other line goes to the last project (project blocks read back: `SolutionProperties.ReadProjectBlock`) |
| SolutionFile.ReadLine | src/FubuCsProjFile/Solution.cs:168-171 | one line through the current reader; the current project or section always exists |
| SolutionFile.ReadLines | src/FubuCsProjFile/Solution.cs:59-65 | every line of the text through one reader, in order, keeping the reader consistent |
| SolutionFile.FirstProjectIndex | src/FubuCsProjFile/Solution.cs:274-277 | the first project with the name, or none when no project has it |
| SolutionFile.FirstSectionIndex | src/FubuCsProjFile/Solution.cs:176-179 | the first section with the name, or none when no section has it |
| SolutionFile.ConfigurationsOf | src/FubuCsProjFile/Solution.cs:87-93 | no configurations without a SolutionConfigurationPlatforms section, else one per property line, in order |
| SolutionFile.Solution.Load | src/FubuCsProjFile/Solution.cs:59-65 | the version, projects and sections are what the reader makes of the lines |
| SolutionFile.Solution.CreateNew | src/FubuCsProjFile/Solution.cs:36-51 | the file is directory/name with ".sln" ensured, the content is the template read, and the version is forced to VS2010 |
| SolutionFile.Solution.FindSection | src/FubuCsProjFile/Solution.cs:176-179 | found exactly when some section has the name; the section found is the first with it |
| SolutionFile.Solution.FindProject | src/FubuCsProjFile/Solution.cs:274-277 | found exactly when some project has the name; the project found is the first with it |
| SolutionFile.Solution.Configurations | src/FubuCsProjFile/Solution.cs:87-93 | the configurations of the solution's sections, as `SolutionFile.ConfigurationsOf` states them |
| SolutionFile.Solution.CalculateProjectConfigurationPlatforms | src/FubuCsProjFile/Solution.cs:208-225 | the sections become the recomputed sections: platform section found or appended, cleared, then refilled by project then configuration, skipping "Solution Items"; projects and version unchanged |
| SolutionFile.Solution.WriteProjectConfigurations | src/FubuCsProjFile/Solution.cs:220-222 | one project's configuration lines are appended to the platform section, configuration by configuration |
| SolutionFile.Solution.Save | src/FubuCsProjFile/Solution.cs:181-206 | the recomputation happens first; the text is the preamble, the projects, Global, the sections and EndGlobal, with the end trimmed; an unknown version is a KeyNotFound error |
| SolutionFile.Solution.AddProject | src/FubuCsProjFile/Solution.cs:232-244 | an existing project of that name is returned and the list is unchanged; otherwise a new default project is appended and returned |
| SolutionFile.Solution.AddProjectFromTemplate | src/FubuCsProjFile/Solution.cs:246-262 | a taken name gives ArgumentOutOfRange("projectName") and leaves the list unchanged; otherwise a project at dir/name/name.csproj from the template is appended |
| SolutionFile.SolutionReader.constructor | src/FubuCsProjFile/Solution.cs:102-107 | a new reader starts in the normal state |
| SolutionFile.SolutionReader.Read | src/FubuCsProjFile/Solution.cs:168-171 | the parent's state after the line is the pure transition ReadLine applied to it |
| SolutionFile.SolutionReader.LookForGlobalSectionLine | src/FubuCsProjFile/Solution.cs:109-118 | only a trimmed "GlobalSection" line opens a section, appended with its trimmed header |
| SolutionFile.SolutionReader.ReadSectionLine | src/FubuCsProjFile/Solution.cs:120-130 | a trimmed "EndGlobalSection" returns to section search; any other line goes untrimmed to the current section |
| SolutionFile.SolutionReader.ReadProjectLine | src/FubuCsProjFile/Solution.cs:132-142 | a line starting "EndProject" (so also "EndProjectSection") ends the project; any other line goes to it |
| SolutionFile.SolutionReader.NormalReadLine | src/FubuCsProjFile/Solution.cs:144-166 | the normal-state transition, on the parent's lists |
| SolutionProperties.ReadLinesAppend | src/FubuCsProjFile/Solution.cs:62-64 | reading two runs of lines in turn is reading their concatenation |
| SolutionProperties.GlobalIsFinal | src/FubuCsProjFile/Solution.cs:109-130 | once past "Global", no project is added or changed, the version stays, the reader never returns to the normal state, and sections only grow |
| SolutionProperties.VersionSetOnce | src/FubuCsProjFile/Solution.cs:156-164 | a recognised version is never replaced by later lines |
| SolutionProperties.VersionRoundTrip | src/FubuCsProjFile/Solution.cs:26-31 | the known versions are exactly VS2010/2012/2013, each with two preamble lines whose first line is recognised as that version |
| SolutionProperties.ReadProjectBlock | src/FubuCsProjFile/Solution.cs:132-154 | a project written in the form the reader parses is read back as exactly that project, appended |
| SolutionProperties.ReadSectionBlock | src/FubuCsProjFile/Solution.cs:109-130 | a section written in the form the reader parses is read back as exactly that section, appended |
| SolutionProperties.ReadPreamble | src/FubuCsProjFile/Solution.cs:156-164 | a version's two preamble lines set that version |
| SolutionProperties.SaveThenRead | src/FubuCsProjFile/Solution.cs:190-200 | the lines Save writes read back to the same version, projects and sections, in order |
| SolutionProperties.LoadThenSave | src/FubuCsProjFile/Solution.cs:181-206 | a file the save wrote, loaded again and saved, gives the same text |
| SolutionProperties.ClearedKeepsConfigurations | src/FubuCsProjFile/Solution.cs:210-218 | clearing keeps every header and every other section, empties the platform section, and leaves the configurations as they were |
| SolutionProperties.RecomputedLocated | src/FubuCsProjFile/Solution.cs:208-225 | exactly one section changes: the platform section where it was, or appended at the end, now holding every project's configuration lines |
| SolutionProperties.RecomputedKeepsConfigurations | src/FubuCsProjFile/Solution.cs:218 | the rebuild does not change the configurations it reads |
| SolutionProperties.RecomputeIdempotent | src/FubuCsProjFile/Solution.cs:188 | rebuilding twice equals rebuilding once, so saving twice writes the same text |
| SolutionProperties.PlatformLinesCount | src/FubuCsProjFile/Solution.cs:220-222 | k lines per configuration and project give k × configurations × non-folder projects lines |
| SolutionProperties.AddProjectIdempotent | src/FubuCsProjFile/Solution.cs:232-244 | adding a second project with a name already present changes nothing |
| SolutionProperties.AddProjectKeepsNamesDistinct | src/FubuCsProjFile/Solution.cs:232-244 | adding keeps the names distinct, the old projects first, and makes the name findable |
| MSBuild.PropertyIndex | src/FubuCsProjFile/ProjectFiles/CsProj/CsProjFile.cs:59 | the first property with that name, or none when no property has it |
| MSBuild.HolderIndex | src/FubuCsProjFile/ProjectFiles/CsProj/CsProjFile.cs:59 | the first group holding the name, or none when none does |
| MSBuild.SelectGroup | src/FubuCsProjFile/ProjectFiles/CsProj/CsProjFile.cs:59-60 | the group index is in range: the first holder of the name, else the first group, else a new group appended to the empty list (read and write facts: `MSBuildProperties.ReadPropertyFacts`, `MSBuildProperties.SetPropertyFacts`) |
| MSBuild.SetProperty | src/FubuCsProjFile/ProjectFiles/CsProj/CsProjFile.cs:64-69 | the selected group gets the value (read back: `MSBuildProperties.SetThenRead`; other names untouched: `MSBuildProperties.SetKeepsOthers`; idempotent: `MSBuildProperties.SetIdempotent`) |
| MSBuild.ReadProperty | src/FubuCsProjFile/ProjectFiles/CsProj/CsProjFile.cs:57-63 | the value in the selected group, and the tree, one group longer when it had none (`MSBuildProperties.ReadPropertyValue`, `MSBuildProperties.ReadPropertyTree`) |
| MSBuild.FirstNonEmpty | src/FubuCsProjFile/ProjectFiles/CsProj/CsProjFile.cs:47-48 | the first non-empty value in group order, with all earlier groups reading empty; none when every group reads empty |
| MSBuild.ProjectGuidOf | src/FubuCsProjFile/ProjectFiles/CsProj/CsProjFile.cs:43-53 | the empty GUID without a non-empty value, else the first non-empty value with its braces stripped (written then read: `MSBuildProperties.SetProjectGuidThenRead`) |
| MSBuild.NonEmptyValues | src/FubuCsProjFile/ProjectFiles/CsProj/CsProjFile.cs:202-203 | every value is non-empty; the list is empty exactly when no group has a value, and starts with the first non-empty value |
| MSBuild.ProjectTypesOf | src/FubuCsProjFile/ProjectFiles/CsProj/CsProjFile.cs:200-219 | never empty; the class library type alone when no group lists a type |
| MSBuild.ItemsNamedMembers | src/FubuCsProjFile/ProjectFiles/CsProj/CsProjFile.cs:111 | an element is listed under a name exactly when it is in the group and carries that name |
| MSBuild.FirstGroupWith | src/FubuCsProjFile/ProjectFiles/CsProj/CsProjFile.cs:91-92 | the first item group holding an element that passes the test; none when no group does |
| MSBuild.PlaceItem | src/FubuCsProjFile/ProjectFiles/CsProj/CsProjFile.cs:89-94 | the element goes to the first group its Matches accepts, else the first group holding its name, else a new group (listed in place: `MSBuildProperties.PlaceItemListed`) |
| MSBuild.RemoveElement | src/FubuCsProjFile/ProjectFiles/CsProj/CsProjFile.cs:249-253 | an element that is absent leaves the list unchanged |
| MSBuild.RemoveElementFirst | src/FubuCsProjFile/ProjectFiles/CsProj/CsProjFile.cs:249-253 | a present element loses exactly its first occurrence; the elements before and after it keep their order |
| MSBuild.RemoveElementCount | src/FubuCsProjFile/ProjectFiles/CsProj/CsProjFile.cs:249-253 | a present element loses one copy, and every other element keeps its count |
| MSBuildProperties.SetPropertyValueReads | src/FubuCsProjFile/ProjectFiles/CsProj/CsProjFile.cs:68 | after SetPropertyValue the group holds the name and reads back the value; other names are unchanged |
| MSBuildProperties.ReadPropertyValue | src/FubuCsProjFile/ProjectFiles/CsProj/CsProjFile.cs:57-63 | the getter reads the first group holding the name, and "" when no group holds it |
| MSBuildProperties.ReadPropertyTree | src/FubuCsProjFile/ProjectFiles/CsProj/CsProjFile.cs:59-60 | the getter changes the tree only when there are no property groups, and then appends one empty group |
| MSBuildProperties.ReadAgreesWithFirstNonEmpty | src/FubuCsProjFile/ProjectFiles/CsProj/CsProjFile.cs:57-63 | a non-empty getter value is also the first non-empty value in group order |
| MSBuildProperties.SetThenRead | src/FubuCsProjFile/ProjectFiles/CsProj/CsProjFile.cs:64-69 | after a setter, the getter selects the same group, reads the value, and adds nothing |
| MSBuildProperties.SetThenFirstNonEmpty | src/FubuCsProjFile/ProjectFiles/CsProj/CsProjFile.cs:174-180 | a non-empty value just set is what the DotNetVersion and ProjectGuid getters return |
| MSBuildProperties.SetKeepsOthers | src/FubuCsProjFile/ProjectFiles/CsProj/CsProjFile.cs:64-69 | a setter leaves every other property's readings and the item groups unchanged |
| MSBuildProperties.SetIdempotent | src/FubuCsProjFile/ProjectFiles/CsProj/CsProjFile.cs:64-69 | setting the same value twice equals setting it once |
| MSBuildProperties.SetProjectGuidThenRead | src/FubuCsProjFile/ProjectFiles/CsProj/CsProjFile.cs:267-273 | after SetProjectGuid, the ProjectGuid getter returns the upper-cased GUID with its braces stripped |
| MSBuildProperties.TypeGuidsCount | src/FubuCsProjFile/ProjectFiles/CsProj/CsProjFile.cs:207-213 | one GUID per ';'-separated piece: one more per value than it has separators |
| MSBuildProperties.ProjectTypesCount | src/FubuCsProjFile/ProjectFiles/CsProj/CsProjFile.cs:200-219 | exactly one type when no group lists a type, else one per piece of every non-empty value |
| MSBuildProperties.PlaceItemListed | src/FubuCsProjFile/ProjectFiles/CsProj/CsProjFile.cs:89-94 | an added item is listed once more under its name; other names and the property groups are unchanged |
| MSBuildProperties.PlacedItemSorted | src/FubuCsProjFile/ProjectFiles/CsProj/CsProjFile.cs:89-94 | an added item appears in its name's sorted listing |
| MSBuildProperties.RemoveFromGroupsFirstHolder | src/FubuCsProjFile/ProjectFiles/CsProj/CsProjFile.cs:249-253 | only the first item group holding the element changes, and it loses the element's first occurrence |
| MSBuildProperties.RemoveFromGroupsListing | src/FubuCsProjFile/ProjectFiles/CsProj/CsProjFile.cs:249-253 | the listing of that name after the removal is the old listing with the element's first occurrence taken out |
| MSBuildProperties.RemoveFirstEffect | src/FubuCsProjFile/ProjectFiles/CsProj/CsProjFile.cs:243-254 | when an element of that name and Include exists, the first one in document order is taken out and the other elements of that name keep their order; otherwise the tree is unchanged; other names are unchanged |
| MSBuild.RemoveFirst | src/FubuCsProjFile/ProjectFiles/CsProj/CsProjFile.cs:243-254 | the first element of that name and Include in document order is removed (`MSBuildProperties.RemoveFirstEffect`) |
| ProjectFiles.ProjectItem.constructor | src/FubuCsProjFile/ProjectFiles/CsProj/CsProjFile.cs:98 | a new item of the kind with that Include, not yet saved |
| ProjectFiles.ProjectItem.Save | src/FubuCsProjFile/ProjectFiles/CsProj/CsProjFile.cs:194 | the item records one more save |
| ProjectFiles.SortedSameIncludes | src/FubuCsProjFile/ProjectFiles/CsProj/CsProjFile.cs:111 | sorting by Include keeps the listing's Include values |
| ProjectFiles.AppendGuidPieces | src/FubuCsProjFile/ProjectFiles/CsProj/CsProjFile.cs:209-212 | the inner loop appends every piece's GUID, in order |
| ProjectFiles.CollectProjectTypes | src/FubuCsProjFile/ProjectFiles/CsProj/CsProjFile.cs:200-219 | the nested loop yields exactly ProjectTypesOf, never empty |
| CsProj.CsProjFile.constructor | src/FubuCsProjFile/ProjectFiles/CsProj/CsProjFile.cs:37-41 | the file name and tree as given, with an empty cache |
| CsProj.CsProjFile.ProjectGuid | src/FubuCsProjFile/ProjectFiles/CsProj/CsProjFile.cs:43-53 | the getter reads `MSBuild.ProjectGuidOf` of the property groups |
| CsProj.CsProjFile.DotNetVersion | src/FubuCsProjFile/ProjectFiles/CsProj/CsProjFile.cs:166-173 | the getter is the first non-empty TargetFrameworkVersion, None for null (`MSBuild.FirstNonEmpty`) |
| CsProj.CsProjFile.AssemblyName | src/FubuCsProjFile/ProjectFiles/CsProj/CsProjFile.cs:57-63 | the value in the first group holding AssemblyName, or ""; a project without property groups gains an empty one |
| CsProj.CsProjFile.SetAssemblyName | src/FubuCsProjFile/ProjectFiles/CsProj/CsProjFile.cs:64-69 | the getter then reads the value; RootNamespace, ProjectGuid, DotNetVersion, the items and the cache are unchanged |
| CsProj.CsProjFile.RootNamespace | src/FubuCsProjFile/ProjectFiles/CsProj/CsProjFile.cs:74-80 | the value in the first group holding RootNamespace, or ""; a project without property groups gains an empty one |
| CsProj.CsProjFile.SetRootNamespace | src/FubuCsProjFile/ProjectFiles/CsProj/CsProjFile.cs:81-86 | the getter then reads the value; the other properties, the items and the cache are unchanged |
| CsProj.CsProjFile.SetDotNetVersion | src/FubuCsProjFile/ProjectFiles/CsProj/CsProjFile.cs:174-180 | a non-empty value is what DotNetVersion then returns; ProjectGuid, the items and the cache are unchanged |
| CsProj.CsProjFile.SetProjectGuid | src/FubuCsProjFile/ProjectFiles/CsProj/CsProjFile.cs:267-273 | ProjectGuid then returns the upper-cased GUID without braces; DotNetVersion, the items and the cache are unchanged |
| CsProj.CsProjFile.ProjectTypes | src/FubuCsProjFile/ProjectFiles/CsProj/CsProjFile.cs:200-219 | the types of the tree's property groups, never empty |
| CsProj.CsProjFile.Add | src/FubuCsProjFile/ProjectFiles/CsProj/CsProjFile.cs:89-94 | the item is placed by the Matches, then name, then new-group rule, and is listed; the cache is unchanged |
| CsProj.CsProjFile.AddNew | src/FubuCsProjFile/ProjectFiles/CsProj/CsProjFile.cs:96-105 | a fresh item with that Include replaces any cache entry for the Include, whatever its type, and is placed |
| CsProj.CsProjFile.All | src/FubuCsProjFile/ProjectFiles/CsProj/CsProjFile.cs:107-128 | the items follow the Include-sorted listing; each is its Include's cached object, or a fresh object newly cached; old cache entries are kept; an InvalidCast happens exactly when a cached entry has another type |
| CsProj.CsProjFile.EnumerateAll | src/FubuCsProjFile/ProjectFiles/CsProj/CsProjFile.cs:112-127 | the listing enumerated in order: on success one cached object per element, its Include's cache entry, with no earlier entry changed; a failure is an invalid cast to T that some cached item of the listing reaches |
| CsProj.CsProjFile.Lookup | src/FubuCsProjFile/ProjectFiles/CsProj/CsProjFile.cs:114-126 | one element: the cached object cast to T (failing exactly when its type differs), or a fresh object added to the cache |
| CsProj.CsProjFile.AllTwice | src/FubuCsProjFile/ProjectFiles/CsProj/CsProjFile.cs:107-128 | two enumerations in a row return the very same objects |
| CsProj.CsProjFile.Find | src/FubuCsProjFile/ProjectFiles/CsProj/CsProjFile.cs:228-231 | an item is found exactly when T's listing has that Include, and it is the cached object for that Include |
| ProjectFiles.FirstWithInclude | src/FubuCsProjFile/ProjectFiles/CsProj/CsProjFile.cs:230 | the index of the first item with that Include, every item before it having another Include, or the length when none has it |
| CsProj.CsProjFile.Remove | src/FubuCsProjFile/ProjectFiles/CsProj/CsProjFile.cs:243-254 | the cache entry goes, and so does exactly the first element of T's name with that Include; the tree is unchanged when there is none |
| CsProj.CsProjFile.RemoveItem | src/FubuCsProjFile/ProjectFiles/CsProj/CsProjFile.cs:256-265 | the same, for the item's Include and element name |
| CsProj.CsProjFile.SaveAs | src/FubuCsProjFile/ProjectFiles/CsProj/CsProjFile.cs:190-198 | every cached item saves once, then the tree is written to that file |
| CsProj.CsProjFile.Save | src/FubuCsProjFile/ProjectFiles/CsProj/CsProjFile.cs:185-188 | Save to the project's own file name |
| LegacyCsProj.CsProjFile.constructor | src/FubuCsProjFile/CsProjFile.cs:35-39 | the file name and tree as given |
| LegacyCsProj.CsProjFile.ProjectGuid | src/FubuCsProjFile/CsProjFile.cs:41-50 | the getter reads `MSBuild.ProjectGuidOf` of the property groups |
| LegacyCsProj.CsProjFile.DotNetVersion | src/FubuCsProjFile/CsProjFile.cs:188-195 | the getter is the first non-empty TargetFrameworkVersion, None for null (`MSBuild.FirstNonEmpty`) |
| LegacyCsProj.CsProjFile.AssemblyName | src/FubuCsProjFile/CsProjFile.cs:60-75 | the value in the first group holding AssemblyName, or ""; a project without property groups gains an empty one |
| LegacyCsProj.CsProjFile.SetAssemblyName | src/FubuCsProjFile/CsProjFile.cs:69-74 | the getter then reads the value; the other properties and the items are unchanged |
| LegacyCsProj.CsProjFile.RootNamespace | src/FubuCsProjFile/CsProjFile.cs:77-92 | the value in the first group holding RootNamespace, or ""; a project without property groups gains an empty one |
| LegacyCsProj.CsProjFile.SetRootNamespace | src/FubuCsProjFile/CsProjFile.cs:86-91 | the getter then reads the value; the other properties and the items are unchanged |
| LegacyCsProj.CsProjFile.SetDotNetVersion | src/FubuCsProjFile/CsProjFile.cs:196-202 | a non-empty value is what DotNetVersion then returns |
| LegacyCsProj.CsProjFile.SetProjectGuid | src/FubuCsProjFile/CsProjFile.cs:51-57 | ProjectGuid then returns the upper-cased GUID without braces |
| LegacyCsProj.CsProjFile.ProjectTypes | src/FubuCsProjFile/CsProjFile.cs:215-234 | the types of the tree's property groups, never empty |
| LegacyCsProj.CsProjFile.Add | src/FubuCsProjFile/CsProjFile.cs:94-99 | the item is placed by the Matches, then name, then new-group rule, and is listed |
| LegacyCsProj.CsProjFile.AddNew | src/FubuCsProjFile/CsProjFile.cs:114-120 | a fresh item with that Include, placed |
| LegacyCsProj.CsProjFile.All | src/FubuCsProjFile/CsProjFile.cs:101-112 | one fresh, distinct object per element of T's name, in Include order, each with that element's Include |
| LegacyCsProj.CsProjFile.Find | src/FubuCsProjFile/CsProjFile.cs:243-246 | an item is found exactly when T's listing has that Include; it is a fresh object with that Include |
| LegacyCsProj.CsProjFile.Remove | src/FubuCsProjFile/CsProjFile.cs:258-267 | exactly the first element of T's name with that Include goes; the tree is unchanged when there is none |
| LegacyCsProj.CsProjFile.RemoveItem | src/FubuCsProjFile/CsProjFile.cs:269-276 | the same, for the item's Include and element name |
| LegacyCsProj.CsProjFile.SaveAs | src/FubuCsProjFile/CsProjFile.cs:210-213 | the tree, written to that file |
| LegacyCsProj.CsProjFile.Save | src/FubuCsProjFile/CsProjFile.cs:205-208 | the tree, written to the project's own file |
| LegacyCsProj.CsProjFile.CreateAtSolutionDirectory | src/FubuCsProjFile/CsProjFile.cs:128-142 | the file is dir/name/name.csproj; the upper-cased new GUID is set first, then RootNamespace, then AssemblyName = ProjectName; both getters read ProjectName and ProjectGuid returns the GUID |
| Paths.SlnFileNameHasSlnExtension | src/FubuCsProjFile/Templating/TemplateClasses.cs:67-72 | the chosen name always has the ".sln" extension and begins with the requested name |
| Paths.SlnFileNameIdempotent | src/FubuCsProjFile/Solution.cs:41-45 | choosing the name twice equals choosing it once |
| Paths.UpperCaseExtensionIsExtended | src/FubuCsProjFile/Solution.cs:42-45 | the extension check is case-sensitive: "Foo.SLN" becomes "Foo.SLN.sln" |
| Paths.SlnFileName | src/FubuCsProjFile/Solution.cs:41-45 | ".sln" is appended unless the extension already is exactly ".sln"; the result always has that extension and begins with the name given (`Paths.SlnFileNameHasSlnExtension`, `Paths.SlnFileNameIdempotent`) |
| ProjectPlans.NamespacePieces | src/FubuCsProjFile/Templating/ProjectPlan.cs:121-126 | the reversed segments, without the file name, with the project name added unless present, each kept once and turned back (properties: `ProjectPlans.NamespaceElements`, `ProjectPlans.NamespaceKeepsLastOccurrences`) |
| ProjectPlans.GetNamespace | src/FubuCsProjFile/Templating/ProjectPlan.cs:119-128 | the pieces joined with "." (`ProjectPlans.NamespaceOfDistinctSegments`) |
| ProjectPlans.NamespaceElements | src/FubuCsProjFile/Templating/ProjectPlan.cs:119-128 | the namespace pieces have no duplicates and are exactly the directory segments plus the project name |
| ProjectPlans.NamespaceOfDistinctSegments | src/FubuCsProjFile/Templating/ProjectPlan.cs:119-128 | with distinct segments, none equal to the project name, the namespace is the project name followed by the segments in path order |
| ProjectPlans.NamespaceWithProjectSegment | src/FubuCsProjFile/Templating/ProjectPlan.cs:125 | a project name that is already a segment is not put in front again |
| ProjectPlans.NamespaceOfBareFile | src/FubuCsProjFile/Templating/ProjectPlan.cs:119-128 | a bare file name yields just the project name |
| ProjectPlans.NamespaceKeepsLastOccurrences | src/FubuCsProjFile/Templating/ProjectPlan.cs:119-128 | for every path, the pieces are the project name (left out when it is one of the segments) followed by the last occurrence of each directory segment, in path order |
| ProjectPlans.NamespaceOfRepeatedSegment | src/FubuCsProjFile/Templating/ProjectPlan.cs:125 | "A/B/A/x.cs" in project P gives P.B.A, an instance of the general rule |
| ProjectPlans.WriteNamespace | src/FubuCsProjFile/Templating/ProjectPlan.cs:110-117 | every %NAMESPACE% becomes the namespace when a relative path is given (`ProjectPlans.WriteNamespaceReplaces`); otherwise the text is kept (`ProjectPlans.WriteNamespaceUnchanged`) |
| ProjectPlans.WriteNamespaceUnchanged | src/FubuCsProjFile/Templating/ProjectPlan.cs:110-117 | without a relative path, or without the %NAMESPACE% token, the text is unchanged |
| ProjectPlans.WriteNamespaceReplaces | src/FubuCsProjFile/Templating/ProjectPlan.cs:110-117 | with a relative path, an occurrence of %NAMESPACE% after text holding no '%' becomes the namespace, and the text after it is rewritten in turn |
| ProjectPlans.NugetStatementOrderIndependent | src/FubuCsProjFile/Templating/ProjectPlan.cs:94-97 | the statement depends only on which declarations there are, not on the order they were added in |
| ProjectPlans.NugetImportStatement | src/FubuCsProjFile/Templating/ProjectPlan.cs:94-97 | "{0}: {1}" of the project name and the sorted declarations joined with ", " (`ProjectPlans.NugetStatementShape`) |
| ProjectPlans.NugetStatementShape | src/FubuCsProjFile/Templating/ProjectPlan.cs:94-97 | the statement is "Name: " followed by the declarations in sorted order joined with ", " (any sorted arrangement of them gives the same text), and is just "Name: " when there are none |
| ProjectPlans.ProjectPlan.ToNugetImportStatement | src/FubuCsProjFile/Templating/ProjectPlan.cs:94-97 | the statement of the plan's project name and its declarations (`ProjectPlans.NugetStatementShape`, `ProjectPlans.NugetStatementOrderIndependent`) |
| ProjectPlans.ProjectPlan.constructor | src/FubuCsProjFile/Templating/ProjectPlan.cs:23-28 | %ASSEMBLY_NAME% maps to the project name; no alterations, declarations or relative path yet |
| ProjectPlans.ProjectPlan.Add | src/FubuCsProjFile/Templating/ProjectPlan.cs:79-82 | the alteration is appended after the earlier ones; nothing else changes |
| ProjectPlans.ProjectPlan.Alter | src/FubuCsProjFile/Templating/ProjectPlan.cs:35-70 | an existing project is reused unchanged; otherwise one project is appended, from the default template when ProjectTemplateFile is empty, else from that template; %PROJECT_PATH% is the root-relative file path with '/' separators; every alteration is applied in Add order |
| ProjectPlans.CreatedDirectories | src/FubuCsProjFile/Templating/ProjectDirectory.cs:23-26 | one directory per ProjectDirectory alteration, its path appended to the project directory, in the order the alterations are applied (ProjectPlan.cs:61-64); `ProjectPlans.ProjectPlan.Alter` ensures these follow the project directory itself |
| ProjectDirectories.NewProjectDirectory | src/FubuCsProjFile/Templating/ProjectDirectory.cs:13-16 | the stored path has no '\', has the same length, and keeps every other character |
| ProjectDirectories.Normalize | src/FubuCsProjFile/Templating/ProjectDirectory.cs:15 | every backslash of the path becomes a slash, and normalising again changes nothing (`ProjectDirectories.NormalizeIdempotent`, `ProjectDirectories.NormalizeKeepsPlainPath`) |
| ProjectDirectories.Equals | src/FubuCsProjFile/Templating/ProjectDirectory.cs:28-39 | false for null, otherwise the same runtime type and the same stored path; equal exactly when the normalised paths agree, and an equivalence (`ProjectDirectories.EqualsIffSameNormalized`, `ProjectDirectories.EqualsIsEquivalence`) |
| ProjectDirectories.HashCode | src/FubuCsProjFile/Templating/ProjectDirectory.cs:41-44 | the string hash of the stored path, so equal values hash alike (`ProjectDirectories.EqualsThenSameHash`) |
| ProjectDirectories.NormalizeKeepsPlainPath | src/FubuCsProjFile/Templating/ProjectDirectory.cs:15 | a path without backslashes is stored unchanged |
| ProjectDirectories.NormalizeIdempotent | src/FubuCsProjFile/Templating/ProjectDirectory.cs:15 | normalising twice equals normalising once |
| ProjectDirectories.EqualsIffSameNormalized | src/FubuCsProjFile/Templating/ProjectDirectory.cs:28-39 | two constructed directories are equal exactly when their paths normalise alike |
| ProjectDirectories.BackslashEqualsSlash | src/FubuCsProjFile/Templating/ProjectDirectory.cs:13-39 | "a\b" equals "a/b" |
| ProjectDirectories.EqualsIsEquivalence | src/FubuCsProjFile/Templating/ProjectDirectory.cs:33-39 | Equals is reflexive, symmetric and transitive, and false for null |
| ProjectDirectories.EqualsThenSameHash | src/FubuCsProjFile/Templating/ProjectDirectory.cs:41-44 | equal values have equal hash codes, whatever the string hash |
| RakeFile.RakeFileTransform.constructor | src/FubuCsProjFile/Templating/RakeFileTransform.cs:15-18 | keeps the fragment text |
| RakeFile.RakeFileTransform.Alter | src/FubuCsProjFile/Templating/RakeFileTransform.cs:20-45 | nothing is written when the lines are already a contiguous run of the file; otherwise the existing lines, one empty line and the new lines |
| RakeFile.Transformed | src/FubuCsProjFile/Templating/RakeFileTransform.cs:28-44 | nothing is written when the fragment is already a contiguous run; otherwise the existing lines, or none for a missing file, then a blank line, then the fragment (`RakeFile.WrittenExtendsExisting`, `RakeFile.MissingFileIsEmpty`) |
| RakeFile.WrittenExtendsExisting | src/FubuCsProjFile/Templating/RakeFileTransform.cs:38-44 | a written file keeps the old lines as an unchanged prefix, then one empty line, then the fragment |
| RakeFile.MissingFileIsEmpty | src/FubuCsProjFile/Templating/RakeFileTransform.cs:28-32 | without a rakefile the result is an empty line followed by the fragment |
| RakeFile.AfterHoldsFragment | src/FubuCsProjFile/Templating/RakeFileTransform.cs:34-44 | after Alter the file holds the fragment |
| RakeFile.AlterIdempotent | src/FubuCsProjFile/Templating/RakeFileTransform.cs:34-44 | applying the same fragment twice equals applying it once |
| RakeFile.BothFragmentsKept | src/FubuCsProjFile/Templating/RakeFileTransform.cs:34-44 | a solution fragment and a project fragment applied in turn both end up in the rakefile |
| TemplatePlanning.DeterminePhasesInOrder | src/FubuCsProjFile/Templating/TemplatePlanner.cs:24 | the i-th DetermineSteps phase runs the i-th registered planner |
| TemplatePlanning.CreatePlanOrder | src/FubuCsProjFile/Templating/TemplatePlanner.cs:20-27 | configurePlan runs first, CopyUnhandledFiles last, and in between every planner runs once, in registration order |
| TemplatePlanning.TemplatePlan.Add | src/FubuCsProjFile/Templating/TemplateClasses.cs:76-80 | a step is recorded after every earlier one |
| TemplatePlanning.TemplatePlanner.ForSolutions | src/FubuCsProjFile/Templating/SolutionPlanner.cs:7-13 | the gem planner, then the gitignore planner, then the inputs-file planner |
| TemplatePlanning.TemplatePlanner.ForProjects | src/FubuCsProjFile/Templating/TemplateClasses.cs:123-129 | the gem planner, then the gitignore planner, then the nuget.txt planner |
| TemplatePlanning.TemplatePlanner.RegisterDefaults | src/FubuCsProjFile/Templating/TemplatePlanner.cs:12-18 | the gem planner, then the gitignore planner, are appended |
| TemplatePlanning.TemplatePlanner.Matching | src/FubuCsProjFile/Templating/TemplatePlanner.cs:36-40 | records the file set, returns the planner itself, and registers no planner |
| TemplatePlanning.TemplatePlanner.ShallowMatch | src/FubuCsProjFile/Templating/TemplatePlanner.cs:47-50 | Matching of the shallow file set |
| TemplatePlanning.TemplatePlanner.DeepMatch | src/FubuCsProjFile/Templating/TemplatePlanner.cs:42-45 | Matching of the deep file set |
| TemplatePlanning.TemplatePlanner.Do | src/FubuCsProjFile/Templating/TemplatePlanner.cs:52-59 | exactly one planner is appended, bound to the file set last matched |
| TemplatePlanning.TemplatePlanner.Add | src/FubuCsProjFile/Templating/TemplatePlanner.cs:31-34 | one planner of the type is appended at the end |
| TemplatePlanning.TemplatePlanner.CreatePlan | src/FubuCsProjFile/Templating/TemplatePlanner.cs:20-27 | the plan records configuration, then each planner in registration order, then the copy of unhandled files |
| TemplateClasses.SolutionStepChoice | src/FubuCsProjFile/Templating/TemplateClasses.cs:65-82 | ReadSolution exactly when the expected file exists, naming that file, which has the ".sln" extension; otherwise CreateSolution of the requested name |
| TemplateClasses.SolutionStep | src/FubuCsProjFile/Templating/TemplateClasses.cs:65-82 | ReadSolution of the expected .sln file when it exists, else CreateSolution of the name (`TemplateClasses.SolutionStepChoice`) |
| TemplateClasses.SolutionStepFirst | src/FubuCsProjFile/Templating/TemplateClasses.cs:30-41 | BuildPlan's own Add call adds one step when a solution name is given and none otherwise, and that step comes before every solution template's phases; the steps the phases add are not recorded |
| TemplateClasses.TemplatePassesAppend | src/FubuCsProjFile/Templating/TemplateClasses.cs:39-41 | each template's phases follow those of the templates before it |
| TemplateClasses.DetermineSolutionFileHandling | src/FubuCsProjFile/Templating/TemplateClasses.cs:65-82 | exactly one step, the solution step, is added to the plan |
| TemplateClasses.TemplatePlanBuilder.constructor | src/FubuCsProjFile/Templating/TemplateClasses.cs:14-20 | the solution planner has its registrations in order |
| TemplateClasses.TemplatePlanBuilder.BuildPlan | src/FubuCsProjFile/Templating/TemplateClasses.cs:30-63 | a fresh plan for the root holding the solution step, if any, and then one CreatePlan pass per solution template, in order |
| TemplateClasses.TemplatePlanBuilder.CreatePlans | src/FubuCsProjFile/Templating/TemplateClasses.cs:38-40 | one solution-planner CreatePlan pass per template directory, in order, appended to the plan |
| TemplateClasses.NugetDeclarationsAppend | src/FubuCsProjFile/Templating/TemplateClasses.cs:125-129 | the declarations of two runs of lines are those of the first followed by those of the second |
| TemplateClasses.NugetDeclarationsOf | src/FubuCsProjFile/Templating/TemplateClasses.cs:125-129 | each line that is not empty, trimmed, in file order (`TemplateClasses.NugetDeclarationsAreTrimmedLines`) |
| TemplateClasses.NugetDeclarationCount | src/FubuCsProjFile/Templating/TemplateClasses.cs:125-129 | one declaration per line that is non-empty before trimming |
| TemplateClasses.WhiteSpaceLineDeclaresEmpty | src/FubuCsProjFile/Templating/TemplateClasses.cs:127-128 | the emptiness test comes before trimming, so a line of white space declares "" |
| TemplateClasses.NugetDeclarationsAreTrimmedLines | src/FubuCsProjFile/Templating/TemplateClasses.cs:125-129 | every declaration is a trimmed non-empty line of the file |
| TemplateClasses.AddNugetLines | src/FubuCsProjFile/Templating/TemplateClasses.cs:125-129 | the current project's declarations gain each non-empty line, trimmed, in file order; the rest of the project plan is unchanged |
| Text.SortBy | src/FubuCsProjFile/ProjectFiles/CsProj/CsProjFile.cs:111 | the result is sorted by the key and is a permutation of the input |
| Text.Distinct | src/FubuCsProjFile/Templating/ProjectPlan.cs:125 | the same elements as the input, each once |
| Text.ReplaceAllAfter | src/FubuCsProjFile/Templating/ProjectPlan.cs:114-115 | a token preceded by text that cannot start it is replaced there, the text before it kept and the scan resumed after it |
| Text.SortedUnique | src/FubuCsProjFile/Templating/ProjectPlan.cs:96 | two sorted string lists with the same elements, counted with multiplicity, are equal |

## Left out

- File-system and resource I/O is not modelled. This covers:
  - reading and writing files;
  - `File.Exists`;
  - `Directory.GetDirectories` in `PlanForDirectory`;
  - the embedded `Solution.txt`;
  - `Substitutions.WriteTo`.

  Texts arrive as their lines, and the text a save would write to the solution or project file is returned.
- `Guid.NewGuid` is a parameter. For `Guid.Parse`:
  - the model keeps the GUID text (upper-cased where the source upper-cases it), so it does not normalise a GUID or reject a malformed one;
  - the exception on a malformed value in ProjectGuid and ProjectTypes is not modelled.
- CsProj.CsProjFile.ProjectGuid: returns the stored text with its braces stripped, not a parsed `Guid`.
- LegacyCsProj.CsProjFile.ProjectGuid: the same.
- CsProj.CsProjFile.All: the enumeration is eager, as in `ToList()`. A cast failure therefore returns an error after caching the items before it, instead of throwing when the caller reaches that element.
- CsProj.CsProjFile.Find: enumerates and caches the whole listing, where the lazy `FirstOrDefault` stops at the first match.
- The cast `(T)` in `All<T>` is modelled as a comparison of type names; a subtype is not a `T`.
- SolutionFile.Solution.Save: does not model the cascade `_projects.Each(x => x.Project.Save())` (Solution.cs:205), which saves the project file of every project after the .sln is written. A `SolutionProject`'s project file is not part of this model.
- Text.StartsWith: compares ordinally. The reader's `StartsWith` calls use the culture-sensitive .NET default; for the ASCII keywords involved ("GlobalSection", "EndProject", "Global", "Project") the two agree except for culture-specific ignorable characters.
- TemplateClasses.SolutionStepFirst: counts only the steps BuildPlan adds itself. The steps the solution planner's phases add (`SolutionDirectory.PlanForDirectory`, `DetermineSteps`, `CopyUnhandledFiles`) come from code not part of this model and are not recorded.
- Text.SortBy: orders strings ordinally. The `OrderBy` in `All<T>` and `ToNugetImportStatement` uses the culture-sensitive default comparer.
- `SolutionProject`, `GlobalSection`, `BuildConfiguration`, `MSBuildProject` and `ProjectItem` are not modelled. Their own internals are uninterpreted functions or the least behaviour described in the module comments.
- The FubuCore path helpers (`AppendPath`, `ParentDirectory`, `PathRelativeTo`, `GetFileNameWithoutExtension`) are uninterpreted. So is `String.GetHashCode`.
- Not modelled, being outside the core or I/O:
  - `CopyFileTo`;
  - `PathTo` and its `Platform.IsUnix` check;
  - `FrameworkName`;
  - `SourceControlInformation`;
  - `LoadFrom` and `CreateAtLocation`;
  - `ConfigureProjectTemplate`.
- `ProjectPlan.ApplySubstitutions` and the token map `Substitutions` are not modelled. Substitutions are a map whose `Set` overwrites, and only the namespace pass, `writeNamespace`, is modelled.
- The logger and trace calls in `ProjectPlan.Alter` are not modelled.
- Of the project alterations, `ProjectDirectory.Alter` is the only one modelled, as the directory it creates. Other alterations are named but their effect is not modelled.
- `CopyProjectReferences.Alter` only throws `NotImplementedException` and is not modelled. The commented-out project requests in `BuildPlan` are not modelled either.
- TemplatePlanning.TemplatePlanner.CreatePlan: records each phase, not the steps a phase adds. Those depend on unseen code: `SolutionDirectory.PlanForDirectory`, `FilesTemplatePlanner.DetermineSteps` and `CopyUnhandledFiles`.
- The actions bound to the gem, gitignore and inputs files are identified by name only. The nuget.txt action is modelled (`AddNugetLines`).
- `TemplatePlan.SourceDirectory` is derived from the root by code not part of this model, so it is a function of the builder's `Library`. The library's template lookup is also a function there.
- `TemplateGraph` is not part of this model.
