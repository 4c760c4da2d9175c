/**
 * The part of an MSBuild project document that the project-file classes use:
 * ordered property groups of named values and ordered item groups of
 * (name, Include) elements, with the lookups and updates both CsProjFile
 * classes build on.
 *
 * MSBuildProject, MSBuildPropertyGroup and MSBuildItemGroup are not part of
 * this model. Their members are given the least behaviour their callers rely
 * on: GetPropertyValue is the value of the first property with that name, or
 * the empty string; SetPropertyValue updates that property, or appends one;
 * AddNewPropertyGroup and AddNewItemGroup append an empty group; FindGroup is
 * the first item group holding an element that passes the test;
 * ProjectItem.Configure appends the item's element to the group; GetAllItems
 * lists the elements of a name in document order; removing an element takes
 * it out of its group.
 */
module MSBuild {
  import opened Wrappers
  import opened Text

  const ProjectGuidProperty := "ProjectGuid"
  const RootNamespaceProperty := "RootNamespace"
  const AssemblyNameProperty := "AssemblyName"
  const TargetFrameworkVersionProperty := "TargetFrameworkVersion"
  const ProjectTypeGuidsProperty := "ProjectTypeGuids"

  /** Guid.Empty as text. */
  const EmptyGuid := "00000000-0000-0000-0000-000000000000"
  /** The C# class library project type, the default of ProjectTypes. */
  const ClassLibraryType := "FAE04EC0-301F-11D3-BF4B-00C04F79EFBC"

  datatype Property = Property(name: string, value: string)
  datatype PropertyGroup = PropertyGroup(properties: seq<Property>)
  datatype Element = Element(name: string, includeValue: string)
  datatype ItemGroup = ItemGroup(items: seq<Element>)
  datatype Tree = Tree(propertyGroups: seq<PropertyGroup>, itemGroups: seq<ItemGroup>)

  // ---------------------------------------------------------------------------------------
  // Properties

  /** The position of the first property with that name. */
  function PropertyIndex(ps: seq<Property>, name: string): (r: Option<nat>)
    ensures r.Some? ==> r.value < |ps| && ps[r.value].name == name
                        && forall j :: 0 <= j < r.value ==> ps[j].name != name
    ensures r.None? ==> forall j :: 0 <= j < |ps| ==> ps[j].name != name
    decreases |ps|
  {
    if ps == [] then None
    else if ps[0].name == name then Some(0)
    else match PropertyIndex(ps[1..], name)
      case None => None
      case Some(i) => Some(i + 1)
  }

  /** x.Properties.Any(p => p.Name == name). */
  predicate HasProperty(g: PropertyGroup, name: string) {
    PropertyIndex(g.properties, name).Some?
  }

  /** GetPropertyValue: the first such property's value, "" when there is none. */
  function GetPropertyValue(g: PropertyGroup, name: string): string {
    match PropertyIndex(g.properties, name)
    case None => ""
    case Some(i) => g.properties[i].value
  }

  /** SetPropertyValue: overwrite the first such property, or append one. */
  function SetPropertyValue(g: PropertyGroup, name: string, value: string): PropertyGroup {
    match PropertyIndex(g.properties, name)
    case None => g.(properties := g.properties + [Property(name, value)])
    case Some(i) => g.(properties := g.properties[i := Property(name, value)])
  }

  /** The first property group that holds the name. */
  function HolderIndex(groups: seq<PropertyGroup>, name: string): (r: Option<nat>)
    ensures r.Some? ==> r.value < |groups| && HasProperty(groups[r.value], name)
                        && forall j :: 0 <= j < r.value ==> !HasProperty(groups[j], name)
    ensures r.None? ==> forall j :: 0 <= j < |groups| ==> !HasProperty(groups[j], name)
    decreases |groups|
  {
    if groups == [] then None
    else if HasProperty(groups[0], name) then Some(0)
    else match HolderIndex(groups[1..], name)
      case None => None
      case Some(i) => Some(i + 1)
  }

  /**
   * The group selection every setter (and the AssemblyName and RootNamespace
   * getters) makes: the first group holding the name, else the first group,
   * else a new group appended to the (empty) list.
   */
  function SelectGroup(groups: seq<PropertyGroup>, name: string): (r: (seq<PropertyGroup>, nat))
    ensures r.1 < |r.0|
  {
    match HolderIndex(groups, name)
    case Some(i) => (groups, i)
    case None => if |groups| > 0 then (groups, 0) else ([PropertyGroup([])], 0)
  }

  /** A property setter: the selected group gets the value. */
  function SetProperty(t: Tree, name: string, value: string): Tree {
    var (groups, i) := SelectGroup(t.propertyGroups, name);
    t.(propertyGroups := groups[i := SetPropertyValue(groups[i], name, value)])
  }

  /** The AssemblyName / RootNamespace getter: the tree (one group longer when there was none) and the value read. */
  function ReadProperty(t: Tree, name: string): (Tree, string) {
    var (groups, i) := SelectGroup(t.propertyGroups, name);
    (t.(propertyGroups := groups), GetPropertyValue(groups[i], name))
  }

  /** PropertyGroups.Select(GetPropertyValue(name)).FirstOrDefault(IsNotEmpty): the first non-empty value, or null. */
  function FirstNonEmpty(groups: seq<PropertyGroup>, name: string): (r: Option<string>)
    ensures r.Some? ==> r.value != "" && exists i :: 0 <= i < |groups| && GetPropertyValue(groups[i], name) == r.value
                                                    && (forall j :: 0 <= j < i ==> GetPropertyValue(groups[j], name) == "")
    ensures r.None? ==> forall j :: 0 <= j < |groups| ==> GetPropertyValue(groups[j], name) == ""
    decreases |groups|
  {
    if groups == [] then None
    else if GetPropertyValue(groups[0], name) != "" then Some(GetPropertyValue(groups[0], name))
    else
      var rest := FirstNonEmpty(groups[1..], name);
      if rest.Some? then
        ghost var i :| 0 <= i < |groups[1..]| && GetPropertyValue(groups[1..][i], name) == rest.value
                       && forall j :: 0 <= j < i ==> GetPropertyValue(groups[1..][j], name) == "";
        assert GetPropertyValue(groups[i + 1], name) == rest.value;
        rest
      else rest
  }

  /** The ProjectGuid getter: Guid.Empty without a value, else the first value with its braces taken off. */
  function ProjectGuidOf(groups: seq<PropertyGroup>): string {
    match FirstNonEmpty(groups, ProjectGuidProperty)
    case None => EmptyGuid
    case Some(raw) => StripBraces(raw)
  }

  /** The non-empty values of a property, in group order. */
  function NonEmptyValues(groups: seq<PropertyGroup>, name: string): (r: seq<string>)
    ensures forall k :: 0 <= k < |r| ==> r[k] != ""
    ensures (r == []) <==> FirstNonEmpty(groups, name).None?
    ensures r != [] ==> r[0] == FirstNonEmpty(groups, name).value
    decreases |groups|
  {
    if groups == [] then []
    else
      var v := GetPropertyValue(groups[0], name);
      (if v != "" then [v] else []) + NonEmptyValues(groups[1..], name)
  }

  /** The GUIDs of the non-empty ProjectTypeGuids values: every ';' piece, braces taken off, in order. */
  function TypeGuids(raws: seq<string>): (r: seq<string>)
    ensures |r| >= |raws|
    decreases |raws|
  {
    if raws == [] then []
    else GuidPieces(Split(raws[0], ';')) + TypeGuids(raws[1..])
  }

  function GuidPieces(pieces: seq<string>): seq<string> {
    seq(|pieces|, k requires 0 <= k < |pieces| => StripBraces(pieces[k]))
  }

  /** ProjectTypes: the listed GUIDs, or the class library type alone when no group lists any. */
  function ProjectTypesOf(groups: seq<PropertyGroup>): (r: seq<string>)
    ensures |r| >= 1
    ensures FirstNonEmpty(groups, ProjectTypeGuidsProperty).None? ==> r == [ClassLibraryType]
    ensures FirstNonEmpty(groups, ProjectTypeGuidsProperty).Some? ==>
              |r| >= |NonEmptyValues(groups, ProjectTypeGuidsProperty)|
  {
    var raws := NonEmptyValues(groups, ProjectTypeGuidsProperty);
    if raws == [] then [ClassLibraryType] else TypeGuids(raws)
  }

  // ---------------------------------------------------------------------------------------
  // Items

  /** The elements of one name, in order. */
  function ItemsNamed(items: seq<Element>, name: string): seq<Element>
    decreases |items|
  {
    if items == [] then []
    else (if items[0].name == name then [items[0]] else []) + ItemsNamed(items[1..], name)
  }

  /** An element is selected by name exactly when it is in the list and carries that name. */
  lemma {:induction false} ItemsNamedMembers(items: seq<Element>, name: string)
    ensures forall e :: e in ItemsNamed(items, name) <==> e in items && e.name == name
    decreases |items|
  {
    if items != [] {
      ItemsNamedMembers(items[1..], name);
      assert items == [items[0]] + items[1..];
    }
  }

  /** GetAllItems(name) over a list of item groups: document order. */
  function ItemsIn(groups: seq<ItemGroup>, name: string): seq<Element>
    decreases |groups|
  {
    if groups == [] then [] else ItemsNamed(groups[0].items, name) + ItemsIn(groups[1..], name)
  }

  function AllItems(t: Tree, name: string): seq<Element> {
    ItemsIn(t.itemGroups, name)
  }

  /** The key OrderBy(x => x.Include) sorts on. */
  function IncludeOf(e: Element): string { e.includeValue }

  /** GetAllItems(name).OrderBy(x => x.Include). */
  function SortedItems(t: Tree, name: string): seq<Element> {
    SortBy(AllItems(t, name), IncludeOf)
  }

  /** FindGroup(test): the first item group holding an element that passes the test. */
  function FirstGroupWith(groups: seq<ItemGroup>, test: Element -> bool): (r: Option<nat>)
    ensures r.Some? ==> r.value < |groups| && (exists k :: 0 <= k < |groups[r.value].items| && test(groups[r.value].items[k]))
    ensures r.Some? ==> forall j, k :: 0 <= j < r.value && 0 <= k < |groups[j].items| ==> !test(groups[j].items[k])
    ensures r.None? ==> forall j, k :: 0 <= j < |groups| && 0 <= k < |groups[j].items| ==> !test(groups[j].items[k])
    decreases |groups|
  {
    if groups == [] then None
    else if exists k :: 0 <= k < |groups[0].items| && test(groups[0].items[k]) then Some(0)
    else match FirstGroupWith(groups[1..], test)
      case None => None
      case Some(i) =>
        assert forall j, k :: 1 <= j < i + 1 && 0 <= k < |groups[j].items| ==> groups[j].items[k] == groups[1..][j - 1].items[k];
        Some(i + 1)
  }

  /** Configure: the element appended to group i. */
  function AddToGroup(groups: seq<ItemGroup>, i: nat, e: Element): seq<ItemGroup>
    requires i < |groups|
  {
    groups[i := ItemGroup(groups[i].items + [e])]
  }

  /** The group an item of that name and Include goes to: the first its Matches accepts, else the first holding its name, else none. */
  function ItemTarget(t: Tree, name: string, includeValue: string, matches: (string, Element) -> bool): Option<nat> {
    var byMatch := FirstGroupWith(t.itemGroups, (e: Element) => matches(includeValue, e));
    if byMatch.Some? then byMatch else FirstGroupWith(t.itemGroups, (e: Element) => e.name == name)
  }

  /** Add(item): the item's element goes to its target group, or to a new item group appended when there is none. */
  function PlaceItem(t: Tree, name: string, includeValue: string, matches: (string, Element) -> bool): Tree {
    var e := Element(name, includeValue);
    match ItemTarget(t, name, includeValue, matches)
    case Some(i) => t.(itemGroups := AddToGroup(t.itemGroups, i, e))
    case None => t.(itemGroups := t.itemGroups + [ItemGroup([e])])
  }

  /** Removes the first occurrence of an element from a list. */
  function RemoveElement(items: seq<Element>, e: Element): (r: seq<Element>)
    ensures e !in items ==> r == items
    decreases |items|
  {
    if items == [] then []
    else if items[0] == e then items[1..]
    else
      assert items == [items[0]] + items[1..];
      [items[0]] + RemoveElement(items[1..], e)
  }

  /** Remove takes out one occurrence of the element and nothing else. */
  lemma RemoveElementCount(items: seq<Element>, e: Element)
    requires e in items
    ensures multiset(RemoveElement(items, e)) == multiset(items) - multiset{e}
  {
    var k := RemoveElementAt(items, e);
    SpliceCount(items, k);
  }

  /** Leaving out position k takes one copy of that element out of the multiset. */
  lemma SpliceCount<T>(s: seq<T>, k: nat)
    requires k < |s|
    ensures multiset(s[..k] + s[k + 1..]) == multiset(s) - multiset{s[k]}
  {
    assert s == s[..k] + [s[k]] + s[k + 1..];
  }

  /** Remove takes out the first occurrence, and the other elements keep their order. */
  lemma RemoveElementFirst(items: seq<Element>, e: Element)
    requires e in items
    ensures exists k :: 0 <= k < |items| && items[k] == e && e !in items[..k]
                        && RemoveElement(items, e) == items[..k] + items[k + 1..]
  {
    var k := RemoveElementAt(items, e);
  }

  /** The position of the occurrence RemoveElement takes out. */
  lemma {:induction false} RemoveElementAt(items: seq<Element>, e: Element) returns (k: nat)
    requires e in items
    ensures k < |items| && items[k] == e && e !in items[..k]
    ensures RemoveElement(items, e) == items[..k] + items[k + 1..]
    decreases |items|
  {
    if items[0] == e {
      k := 0;
      assert items[..0] == [] && items[0 + 1..] == items[1..];
    } else {
      var tail := items[1..];
      assert items == [items[0]] + tail;
      var t := RemoveElementAt(tail, e);
      k := t + 1;
      assert items[..k] == [items[0]] + tail[..t];
      assert items[k + 1..] == tail[t + 1..];
      calc {
        RemoveElement(items, e);
        [items[0]] + RemoveElement(tail, e);
        [items[0]] + (tail[..t] + tail[t + 1..]);
        ([items[0]] + tail[..t]) + tail[t + 1..];
      }
    }
  }

  /** The first element of that name and Include in document order removed, from the group that holds it. */
  function RemoveFromGroups(groups: seq<ItemGroup>, e: Element): seq<ItemGroup>
    decreases |groups|
  {
    if groups == [] then []
    else if e in groups[0].items then [ItemGroup(RemoveElement(groups[0].items, e))] + groups[1..]
    else [groups[0]] + RemoveFromGroups(groups[1..], e)
  }

  /** Remove: GetAllItems(name).FirstOrDefault(x => x.Include == includeValue), removed when there is one. */
  function RemoveFirst(t: Tree, name: string, includeValue: string): Tree {
    t.(itemGroups := RemoveFromGroups(t.itemGroups, Element(name, includeValue)))
  }
}
