/**
 * The project file class of ProjectFiles/CsProj: an MSBuild tree read and
 * updated through property groups and item groups, plus a cache that hands
 * out one item object per Include.
 *
 * The tree is the value `project`; the cache is the map `cache`. Loading and
 * writing the file are not modelled: the constructor takes the loaded tree and
 * Save returns the tree it would write, with the file name.
 */
module CsProj {
  import opened Wrappers
  import opened Text
  import opened MSBuild
  import opened MSBuildProperties
  import opened ProjectFiles
  import Paths

  /** The cache after an enumeration: old entries kept, new ones only for Includes of the listing. */
  ghost predicate CacheGrows(before: map<string, ProjectItem>, after: map<string, ProjectItem>, listing: seq<Element>) {
    before.Keys <= after.Keys <= before.Keys + Includes(listing)
    && forall key :: key in before ==> after[key] == before[key]
  }

  /** The cast in All<T> succeeds for every cached item the listing reaches. */
  predicate CastsSucceed(cache: map<string, ProjectItem>, listing: seq<Element>, kind: ItemKind) {
    forall e :: e in listing && e.includeValue in cache ==> cache[e.includeValue].kind.typeName == kind.typeName
  }

  class CsProjFile {
    const fileName: string
    const paths: Paths.PathOps
    var project: Tree
    var cache: map<string, ProjectItem>

    /** Every cache entry is an item of its own Include. */
    ghost predicate Valid()
      reads this
    {
      forall key :: key in cache ==> cache[key].includeValue == key
    }

    /** new CsProjFile(fileName, project): an empty cache. */
    constructor (fileName: string, project: Tree, paths: Paths.PathOps)
      ensures this.fileName == fileName && this.project == project && this.paths == paths
      ensures cache == map[] && Valid()
    {
      this.fileName := fileName;
      this.project := project;
      this.paths := paths;
      cache := map[];
    }

    /** ProjectName: the file name without its extension. */
    function ProjectName(): string {
      paths.fileNameWithoutExtension(fileName)
    }

    /** ProjectDirectory: the directory of the file. */
    function ProjectDirectory(): string {
      paths.parentDirectory(fileName)
    }

    /** The ProjectGuid getter. */
    function ProjectGuid(): string
      reads this
    {
      ProjectGuidOf(project.propertyGroups)
    }

    /** The DotNetVersion getter; None stands for null. */
    function DotNetVersion(): Option<string>
      reads this
    {
      FirstNonEmpty(project.propertyGroups, TargetFrameworkVersionProperty)
    }

    // -------------------------------------------------------------------------------------
    // Properties

    /** The AssemblyName / RootNamespace getter shape. */
    method ReadNamed(name: string) returns (value: string)
      modifies this
      ensures (project, value) == ReadProperty(old(project), name)
      ensures old(project).propertyGroups != [] ==> project == old(project)
      ensures value == match HolderIndex(old(project).propertyGroups, name)
                       case None => ""
                       case Some(i) => GetPropertyValue(old(project).propertyGroups[i], name)
      ensures value != "" ==> FirstNonEmpty(old(project).propertyGroups, name) == Some(value)
      ensures cache == old(cache)
    {
      ReadPropertyFacts(project, name);
      var (read, v) := ReadProperty(project, name);
      project, value := read, v;
    }

    /** The shape of every setter and of SetProjectGuid. */
    method WriteNamed(name: string, value: string)
      modifies this
      ensures project == SetProperty(old(project), name, value)
      ensures ReadProperty(project, name) == (project, value)
      ensures value != "" ==> FirstNonEmpty(project.propertyGroups, name) == Some(value)
      ensures forall other :: other != name ==>
                ReadProperty(project, other).1 == ReadProperty(old(project), other).1
                && FirstNonEmpty(project.propertyGroups, other) == FirstNonEmpty(old(project).propertyGroups, other)
      ensures project.itemGroups == old(project).itemGroups && cache == old(cache)
    {
      SetPropertyFacts(project, name, value);
      project := SetProperty(project, name, value);
    }

    /** The AssemblyName getter: the value in the first group holding it, or ""; a project without groups gains one. */
    method AssemblyName() returns (value: string)
      modifies this
      ensures (project, value) == ReadProperty(old(project), AssemblyNameProperty)
      ensures old(project).propertyGroups != [] ==> project == old(project)
      ensures value == match HolderIndex(old(project).propertyGroups, AssemblyNameProperty)
                       case None => ""
                       case Some(i) => GetPropertyValue(old(project).propertyGroups[i], AssemblyNameProperty)
      ensures cache == old(cache)
    {
      value := ReadNamed(AssemblyNameProperty);
    }

    /** The AssemblyName setter: the value goes to the group the getter reads. */
    method SetAssemblyName(value: string)
      modifies this
      ensures project == SetProperty(old(project), AssemblyNameProperty, value)
      ensures ReadProperty(project, AssemblyNameProperty).1 == value
      ensures ReadProperty(project, RootNamespaceProperty).1 == ReadProperty(old(project), RootNamespaceProperty).1
      ensures ProjectGuid() == old(ProjectGuid()) && DotNetVersion() == old(DotNetVersion())
      ensures project.itemGroups == old(project.itemGroups) && cache == old(cache)
    {
      WriteNamed(AssemblyNameProperty, value);
    }

    /** The RootNamespace getter: the value in the first group holding it, or ""; a project without groups gains one. */
    method RootNamespace() returns (value: string)
      modifies this
      ensures (project, value) == ReadProperty(old(project), RootNamespaceProperty)
      ensures old(project).propertyGroups != [] ==> project == old(project)
      ensures value == match HolderIndex(old(project).propertyGroups, RootNamespaceProperty)
                       case None => ""
                       case Some(i) => GetPropertyValue(old(project).propertyGroups[i], RootNamespaceProperty)
      ensures cache == old(cache)
    {
      value := ReadNamed(RootNamespaceProperty);
    }

    /** The RootNamespace setter: the value goes to the group the getter reads. */
    method SetRootNamespace(value: string)
      modifies this
      ensures project == SetProperty(old(project), RootNamespaceProperty, value)
      ensures ReadProperty(project, RootNamespaceProperty).1 == value
      ensures ReadProperty(project, AssemblyNameProperty).1 == ReadProperty(old(project), AssemblyNameProperty).1
      ensures ProjectGuid() == old(ProjectGuid()) && DotNetVersion() == old(DotNetVersion())
      ensures project.itemGroups == old(project.itemGroups) && cache == old(cache)
    {
      WriteNamed(RootNamespaceProperty, value);
    }

    /** The DotNetVersion setter; a non-empty value is what the getter then returns. */
    method SetDotNetVersion(value: string)
      modifies this
      ensures project == SetProperty(old(project), TargetFrameworkVersionProperty, value)
      ensures value != "" ==> DotNetVersion() == Some(value)
      ensures ProjectGuid() == old(ProjectGuid())
      ensures project.itemGroups == old(project.itemGroups) && cache == old(cache)
    {
      WriteNamed(TargetFrameworkVersionProperty, value);
    }

    /** SetProjectGuid: the GUID's text upper-cased, read back by ProjectGuid without braces. */
    method SetProjectGuid(newGuid: string)
      modifies this
      ensures project == SetProperty(old(project), ProjectGuidProperty, ToUpper(newGuid))
      ensures newGuid != "" ==> ProjectGuid() == StripBraces(ToUpper(newGuid))
      ensures DotNetVersion() == old(DotNetVersion())
      ensures project.itemGroups == old(project.itemGroups) && cache == old(cache)
    {
      WriteNamed(ProjectGuidProperty, ToUpper(newGuid));
    }

    /** ProjectTypes(). */
    method ProjectTypes() returns (types: seq<string>)
      ensures types == ProjectTypesOf(project.propertyGroups)
      ensures |types| >= 1
    {
      types := CollectProjectTypes(project.propertyGroups);
    }

    // -------------------------------------------------------------------------------------
    // Items

    /** Add(item): the element goes where PlaceItem puts it; the cache is not involved. */
    method Add(item: ProjectItem)
      modifies this
      ensures project == PlaceItem(old(project), item.kind.name, item.includeValue, item.kind.matches)
      ensures Element(item.kind.name, item.includeValue) in SortedItems(project, item.kind.name)
      ensures cache == old(cache)
    {
      PlacedItemSorted(project, item.kind.name, item.includeValue, item.kind.matches);
      project := PlaceItem(project, item.kind.name, item.includeValue, item.kind.matches);
    }

    /** Add<T>(include): a new item replaces any cache entry for that Include, whatever its type, and is placed. */
    method AddNew(kind: ItemKind, includeValue: string) returns (item: ProjectItem)
      requires Valid()
      modifies this
      ensures Valid()
      ensures fresh(item) && item.kind == kind && item.includeValue == includeValue
      ensures cache == old(cache)[includeValue := item]
      ensures project == PlaceItem(old(project), kind.name, includeValue, kind.matches)
    {
      item := new ProjectItem(kind, includeValue);
      cache := cache[includeValue := item];
      assert Valid();
      Add(item);
    }

    /** All<T>(): the items of T's element name by Include, each Include's cached object or a new cached one. */
    method All(kind: ItemKind) returns (r: Result<seq<ProjectItem>>)
      requires Valid()
      modifies this
      ensures Valid() && project == old(project)
      ensures CacheGrows(old(cache), cache, SortedItems(project, kind.name))
      ensures forall key :: key in cache && key !in old(cache) ==> fresh(cache[key]) && cache[key].kind == kind
      ensures r.Ok? <==> CastsSucceed(old(cache), SortedItems(project, kind.name), kind)
      ensures r.Ok? ==>
                var listing := SortedItems(project, kind.name);
                |r.value| == |listing|
                && cache.Keys == old(cache).Keys + Includes(listing)
                && forall k :: 0 <= k < |listing| ==>
                     listing[k].includeValue in cache && cache[listing[k].includeValue] == r.value[k]
                     && r.value[k].includeValue == listing[k].includeValue
                     && r.value[k].kind.typeName == kind.typeName
      ensures r.Err? ==> r.error.InvalidCast? && r.error.toType == kind.typeName
    {
      var listing := SortedItems(project, kind.name);
      r := EnumerateAll(kind, listing);
      assert listing[..|listing|] == listing;
    }

    /** The loop of All<T>(): every element of the listing, in order, until a cast fails. */
    method EnumerateAll(kind: ItemKind, listing: seq<Element>) returns (r: Result<seq<ProjectItem>>)
      requires Valid()
      modifies this
      ensures Valid() && project == old(project)
      ensures CacheGrows(old(cache), cache, listing)
      ensures forall key :: key in cache && key !in old(cache) ==> fresh(cache[key]) && cache[key].kind == kind
      ensures r.Ok? ==> Enumerated(old(cache), listing, |listing|, r.value, kind)
      ensures r.Err? ==> !CastsSucceed(old(cache), listing, kind) && r.error.InvalidCast? && r.error.toType == kind.typeName
    {
      var items: seq<ProjectItem> := [];
      for k := 0 to |listing|
        invariant Valid() && project == old(project)
        invariant Enumerated(old(cache), listing, k, items, kind)
        invariant forall key :: key in cache && key !in old(cache) ==> fresh(cache[key]) && cache[key].kind == kind
      {
        var next := EnumerateNext(kind, listing, k, items, old(cache));
        if next.Err? {
          return Err(next.error);
        }
        items := next.value;
      }
      return Ok(items);
    }

    /** The first k elements of the listing enumerated into items, each its Include's cache entry. */
    ghost predicate Enumerated(initial: map<string, ProjectItem>, listing: seq<Element>, k: nat, items: seq<ProjectItem>, kind: ItemKind)
      reads this
    {
      k <= |listing| && |items| == k
      && CacheGrows(initial, cache, listing)
      && cache.Keys == initial.Keys + Includes(listing[..k])
      && (forall m :: 0 <= m < k ==>
            listing[m].includeValue in cache && cache[listing[m].includeValue] == items[m]
            && items[m].kind.typeName == kind.typeName)
      && CastsSucceed(initial, listing[..k], kind)
    }

    /** One step of All<T>(): the next element's object, or the failed cast. */
    method EnumerateNext(kind: ItemKind, listing: seq<Element>, k: nat, items: seq<ProjectItem>, ghost initial: map<string, ProjectItem>)
      returns (r: Result<seq<ProjectItem>>)
      requires Valid() && k < |listing| && Enumerated(initial, listing, k, items, kind)
      requires forall key :: key in cache && key !in initial ==> cache[key].kind == kind
      modifies this
      ensures Valid() && project == old(project)
      ensures r.Ok? ==> Enumerated(initial, listing, k + 1, r.value, kind)
      ensures r.Err? ==> !CastsSucceed(initial, listing, kind) && r.error.InvalidCast? && r.error.toType == kind.typeName
      ensures r.Err? ==> cache == old(cache)
      ensures forall key :: key in cache && key !in old(cache) ==> fresh(cache[key]) && cache[key].kind == kind
      ensures forall key :: key in old(cache) ==> key in cache && cache[key] == old(cache)[key]
    {
      assert listing[..k + 1] == listing[..k] + [listing[k]];
      ghost var before := cache;
      var found := Lookup(kind, listing[k].includeValue);
      if found.Err? {
        assert listing[k] in listing;
        return Err(found.error);
      }
      var extended := items + [found.value];
      forall m | 0 <= m < k + 1
        ensures listing[m].includeValue in cache && cache[listing[m].includeValue] == extended[m]
        ensures extended[m].kind.typeName == kind.typeName
      {
        if m < k {
          assert extended[m] == items[m];
          assert listing[m].includeValue in before;
        }
      }
      return Ok(extended);
    }

    /** One element of All<T>(): the cached object for its Include, cast to T, or a new object, cached. */
    method Lookup(kind: ItemKind, includeValue: string) returns (r: Result<ProjectItem>)
      requires Valid()
      modifies this
      ensures Valid() && project == old(project)
      ensures r.Err? <==> includeValue in old(cache) && old(cache)[includeValue].kind.typeName != kind.typeName
      ensures r.Err? ==> cache == old(cache) && r.error == InvalidCast(old(cache)[includeValue].kind.typeName, kind.typeName)
      ensures r.Ok? ==> r.value.kind.typeName == kind.typeName && r.value.includeValue == includeValue
      ensures r.Ok? ==> includeValue in cache && cache[includeValue] == r.value
      ensures forall key :: key in old(cache) ==> key in cache && cache[key] == old(cache)[key]
      ensures r.Ok? && includeValue in old(cache) ==> cache == old(cache) && r.value == cache[includeValue]
      ensures r.Ok? && includeValue !in old(cache) ==>
                cache == old(cache)[includeValue := r.value] && fresh(r.value) && r.value.kind == kind
    {
      if includeValue in cache {
        var cached := cache[includeValue];
        if cached.kind.typeName != kind.typeName {
          return Err(InvalidCast(cached.kind.typeName, kind.typeName));
        }
        return Ok(cached);
      }
      var item := new ProjectItem(kind, includeValue);
      cache := cache[includeValue := item];
      return Ok(item);
    }

    /** Two enumerations in a row hand out the very same objects. */
    method AllTwice(kind: ItemKind) returns (first: Result<seq<ProjectItem>>, second: Result<seq<ProjectItem>>)
      requires Valid()
      modifies this
      ensures Valid() && project == old(project)
      ensures first.Ok? ==> second == first
    {
      first := All(kind);
      ghost var afterFirst := cache;
      second := All(kind);
      if first.Ok? {
        var listing := SortedItems(project, kind.name);
        assert CastsSucceed(afterFirst, listing, kind) by {
          forall e | e in listing && e.includeValue in afterFirst
            ensures afterFirst[e.includeValue].kind.typeName == kind.typeName
          {
            var k :| 0 <= k < |listing| && listing[k] == e;
          }
        }
        assert second.Ok? && |second.value| == |first.value|;
        forall k | 0 <= k < |first.value| ensures second.value[k] == first.value[k] {
          assert listing[k].includeValue in afterFirst;
        }
        assert second.value == first.value;
      }
    }

    /** Find<T>(include): the item All<T>() lists with that Include, or None. */
    method Find(kind: ItemKind, includeValue: string) returns (r: Result<Option<ProjectItem>>)
      requires Valid()
      modifies this
      ensures Valid() && project == old(project)
      ensures CacheGrows(old(cache), cache, SortedItems(project, kind.name))
      ensures r.Ok? <==> CastsSucceed(old(cache), SortedItems(project, kind.name), kind)
      ensures r.Ok? ==> (r.value.Some? <==> includeValue in Includes(AllItems(project, kind.name)))
      ensures r.Ok? && r.value.Some? ==>
                r.value.value.includeValue == includeValue && includeValue in cache && cache[includeValue] == r.value.value
      ensures r.Err? ==> r.error.InvalidCast?
    {
      var all := All(kind);
      if all.Err? {
        return Err(all.error);
      }
      var items := all.value;
      ghost var listing := SortedItems(project, kind.name);
      SortedSameIncludes(project, kind.name);
      var k := FirstWithInclude(items, includeValue);
      if k < |items| {
        assert listing[k] in listing;
        return Ok(Some(items[k]));
      }
      IncludesOfListing(listing, items, includeValue);
      return Ok(None);
    }

    /** Remove<T>(include): the cache entry goes, and the first element of T's name with that Include. */
    method Remove(kind: ItemKind, includeValue: string)
      requires Valid()
      modifies this
      ensures Valid()
      ensures cache == old(cache) - {includeValue}
      ensures project == RemoveFirst(old(project), kind.name, includeValue)
      ensures Element(kind.name, includeValue) in AllItems(old(project), kind.name) ==>
                multiset(AllItems(project, kind.name)) == multiset(AllItems(old(project), kind.name)) - multiset{Element(kind.name, includeValue)}
      ensures Element(kind.name, includeValue) !in AllItems(old(project), kind.name) ==> project == old(project)
      ensures forall other :: other != kind.name ==> AllItems(project, other) == AllItems(old(project), other)
    {
      cache := cache - {includeValue};
      forall other | other != kind.name
        ensures AllItems(RemoveFirst(project, kind.name, includeValue), other) == AllItems(project, other)
      {
        RemoveFirstEffect(project, kind.name, includeValue, other);
      }
      RemoveFirstEffect(project, kind.name, includeValue, kind.name + "'");
      project := RemoveFirst(project, kind.name, includeValue);
    }

    /** Remove(item): Remove<T>(item.Include) for the item's own type. */
    method RemoveItem(item: ProjectItem)
      requires Valid()
      modifies this
      ensures Valid()
      ensures cache == old(cache) - {item.includeValue}
      ensures project == RemoveFirst(old(project), item.kind.name, item.includeValue)
      ensures Element(item.kind.name, item.includeValue) !in AllItems(old(project), item.kind.name) ==> project == old(project)
    {
      Remove(item.kind, item.includeValue);
    }

    /** Save(file): every cached item saves itself once, then the tree is written to that file. */
    method SaveAs(file: string) returns (target: string, written: Tree)
      requires Valid()
      modifies cache.Values
      ensures forall it :: it in cache.Values ==> it.saves == old(it.saves) + 1
      ensures target == file && written == project
    {
      var pending := cache.Values;
      while pending != {}
        invariant pending <= cache.Values
        invariant forall it :: it in cache.Values ==> it.saves == old(it.saves) + (if it in pending then 0 else 1)
        decreases |pending|
      {
        var it :| it in pending;
        it.Save();
        pending := pending - {it};
      }
      target, written := file, project;
    }

    /** Save(): Save(fileName). */
    method Save() returns (target: string, written: Tree)
      requires Valid()
      modifies cache.Values
      ensures forall it :: it in cache.Values ==> it.saves == old(it.saves) + 1
      ensures target == fileName && written == project
    {
      target, written := SaveAs(fileName);
    }
  }
}
