/**
 * What the project-file rules promise on the MSBuild tree: a setter's value is
 * what the getters then read, other properties and the item groups are
 * untouched, setting twice is setting once, the getters only add a group to a
 * project that has none; an added item is listed, a removal takes exactly one
 * element or none.
 */
module MSBuildProperties {
  import opened Wrappers
  import opened Text
  import opened MSBuild

  // ---------------------------------------------------------------------------------------
  // One property group

  /** Two property lists with the same names (the longer one's extras not named `name`) find `name` at the same place. */
  lemma SameNamesSameIndex(a: seq<Property>, b: seq<Property>, name: string)
    requires |a| <= |b|
    requires forall j :: 0 <= j < |a| ==> a[j].name == b[j].name
    requires forall j :: |a| <= j < |b| ==> b[j].name != name
    ensures PropertyIndex(a, name) == PropertyIndex(b, name)
  {
    forall j | 0 <= j < |a| ensures (a[j].name == name) == (b[j].name == name) {
    }
  }

  /** After SetPropertyValue the group holds the name and reads back the value; other names read as before. */
  lemma SetPropertyValueReads(g: PropertyGroup, name: string, value: string, other: string)
    ensures HasProperty(SetPropertyValue(g, name, value), name)
    ensures GetPropertyValue(SetPropertyValue(g, name, value), name) == value
    ensures other != name ==>
              HasProperty(SetPropertyValue(g, name, value), other) == HasProperty(g, other)
              && GetPropertyValue(SetPropertyValue(g, name, value), other) == GetPropertyValue(g, other)
  {
    var ps := g.properties;
    var ps' := SetPropertyValue(g, name, value).properties;
    match PropertyIndex(ps, name)
    case None =>
      if other != name { SameNamesSameIndex(ps, ps', other); }
      FirstPropertyIs(ps', name, |ps|);
    case Some(i) =>
      SameNamesSameIndex(ps, ps', other);
      SameNamesSameIndex(ps, ps', name);
  }

  lemma FirstPropertyIs(ps: seq<Property>, name: string, i: nat)
    requires i < |ps| && ps[i].name == name
    requires forall j :: 0 <= j < i ==> ps[j].name != name
    ensures PropertyIndex(ps, name) == Some(i)
  {
    var f := PropertyIndex(ps, name);
    assert f.Some?;
    assert !(f.value < i) && !(i < f.value);
  }

  // ---------------------------------------------------------------------------------------
  // Group selection

  lemma SamePredicateSameHolder(a: seq<PropertyGroup>, b: seq<PropertyGroup>, name: string)
    requires |a| == |b|
    requires forall j :: 0 <= j < |a| ==> HasProperty(a[j], name) == HasProperty(b[j], name)
    ensures HolderIndex(a, name) == HolderIndex(b, name)
  {
    var fa := HolderIndex(a, name);
    var fb := HolderIndex(b, name);
    if fa.Some? {
      assert fb.Some?;
      assert !(fa.value < fb.value) && !(fb.value < fa.value);
    }
  }

  lemma SameValuesSameFirst(a: seq<PropertyGroup>, b: seq<PropertyGroup>, name: string)
    requires |a| == |b|
    requires forall j :: 0 <= j < |a| ==> GetPropertyValue(a[j], name) == GetPropertyValue(b[j], name)
    ensures FirstNonEmpty(a, name) == FirstNonEmpty(b, name)
    decreases |a|
  {
    if |a| > 0 {
      SameValuesSameFirst(a[1..], b[1..], name);
    }
  }

  /** The getter reads the first group that holds the name, and "" when no group does. */
  lemma ReadPropertyValue(t: Tree, name: string)
    ensures ReadProperty(t, name).1 == match HolderIndex(t.propertyGroups, name)
                                       case None => ""
                                       case Some(i) => GetPropertyValue(t.propertyGroups[i], name)
  {
  }

  /** The getter changes the tree only on a project without property groups, where it appends an empty one. */
  lemma ReadPropertyTree(t: Tree, name: string)
    ensures ReadProperty(t, name).0 == if t.propertyGroups == [] then t.(propertyGroups := [PropertyGroup([])]) else t
  {
  }

  /** A getter value that is not empty is also the first non-empty value in group order. */
  lemma ReadAgreesWithFirstNonEmpty(t: Tree, name: string)
    requires ReadProperty(t, name).1 != ""
    ensures FirstNonEmpty(t.propertyGroups, name) == Some(ReadProperty(t, name).1)
  {
    var groups := t.propertyGroups;
    var i := HolderIndex(groups, name).value;
    forall j | 0 <= j < i ensures GetPropertyValue(groups[j], name) == "" {
    }
    FirstNonEmptyIs(groups, name, i);
  }

  lemma FirstNonEmptyIs(groups: seq<PropertyGroup>, name: string, i: nat)
    requires i < |groups| && GetPropertyValue(groups[i], name) != ""
    requires forall j :: 0 <= j < i ==> GetPropertyValue(groups[j], name) == ""
    ensures FirstNonEmpty(groups, name) == Some(GetPropertyValue(groups[i], name))
    decreases i
  {
    if i > 0 {
      FirstNonEmptyIs(groups[1..], name, i - 1);
    }
  }

  // ---------------------------------------------------------------------------------------
  // Setters

  /** What a setter leaves for the getter: the same group is selected again and holds the value. */
  lemma SetThenRead(t: Tree, name: string, value: string)
    ensures ReadProperty(SetProperty(t, name, value), name) == (SetProperty(t, name, value), value)
    ensures HolderIndex(SetProperty(t, name, value).propertyGroups, name).Some?
  {
    var (groups, i) := SelectGroup(t.propertyGroups, name);
    var groups' := SetProperty(t, name, value).propertyGroups;
    SetPropertyValueReads(groups[i], name, value, name);
    forall j | 0 <= j < i ensures !HasProperty(groups'[j], name) {
    }
    FirstHolderIs(groups', name, i);
  }

  lemma FirstHolderIs(groups: seq<PropertyGroup>, name: string, i: nat)
    requires i < |groups| && HasProperty(groups[i], name)
    requires forall j :: 0 <= j < i ==> !HasProperty(groups[j], name)
    ensures HolderIndex(groups, name) == Some(i)
  {
    var f := HolderIndex(groups, name);
    assert f.Some?;
    assert !(f.value < i) && !(i < f.value);
  }

  /** A non-empty value just set is what the ProjectGuid / DotNetVersion style getters return. */
  lemma SetThenFirstNonEmpty(t: Tree, name: string, value: string)
    requires value != ""
    ensures FirstNonEmpty(SetProperty(t, name, value).propertyGroups, name) == Some(value)
  {
    SetThenRead(t, name, value);
    ReadAgreesWithFirstNonEmpty(SetProperty(t, name, value), name);
  }

  /** Setting a property leaves every other property's reading, and the item groups, as they were. */
  lemma SetKeepsOthers(t: Tree, name: string, value: string, other: string)
    requires other != name
    ensures var t' := SetProperty(t, name, value);
            ReadProperty(t', other).1 == ReadProperty(t, other).1
            && FirstNonEmpty(t'.propertyGroups, other) == FirstNonEmpty(t.propertyGroups, other)
            && t'.itemGroups == t.itemGroups
  {
    var (groups, i) := SelectGroup(t.propertyGroups, name);
    var groups' := SetProperty(t, name, value).propertyGroups;
    SetPropertyValueReads(groups[i], name, value, other);
    SamePredicateSameHolder(groups, groups', other);
    SameValuesSameFirst(groups, groups', other);
    if t.propertyGroups != [] {
      assert groups == t.propertyGroups;
    } else {
      SameValuesSameFirst([], [], other);
      assert FirstNonEmpty(groups, other).None?;
    }
  }

  /** What a setter guarantees, gathered for the project-file classes. */
  lemma SetPropertyFacts(t: Tree, name: string, value: string)
    ensures ReadProperty(SetProperty(t, name, value), name) == (SetProperty(t, name, value), value)
    ensures value != "" ==> FirstNonEmpty(SetProperty(t, name, value).propertyGroups, name) == Some(value)
    ensures forall other :: other != name ==>
              ReadProperty(SetProperty(t, name, value), other).1 == ReadProperty(t, other).1
              && FirstNonEmpty(SetProperty(t, name, value).propertyGroups, other) == FirstNonEmpty(t.propertyGroups, other)
    ensures SetProperty(t, name, value).itemGroups == t.itemGroups
  {
    SetThenRead(t, name, value);
    if value != "" { SetThenFirstNonEmpty(t, name, value); }
    forall other | other != name
      ensures ReadProperty(SetProperty(t, name, value), other).1 == ReadProperty(t, other).1
      ensures FirstNonEmpty(SetProperty(t, name, value).propertyGroups, other) == FirstNonEmpty(t.propertyGroups, other)
    {
      SetKeepsOthers(t, name, value, other);
    }
  }

  /** What a getter guarantees, gathered for the project-file classes. */
  lemma ReadPropertyFacts(t: Tree, name: string)
    ensures t.propertyGroups != [] ==> ReadProperty(t, name).0 == t
    ensures ReadProperty(t, name).1 == match HolderIndex(t.propertyGroups, name)
                                       case None => ""
                                       case Some(i) => GetPropertyValue(t.propertyGroups[i], name)
    ensures ReadProperty(t, name).1 != "" ==> FirstNonEmpty(t.propertyGroups, name) == Some(ReadProperty(t, name).1)
  {
    ReadPropertyValue(t, name);
    ReadPropertyTree(t, name);
    if ReadProperty(t, name).1 != "" {
      ReadAgreesWithFirstNonEmpty(t, name);
    }
  }

  /** Setting the same value twice is setting it once. */
  lemma SetIdempotent(t: Tree, name: string, value: string)
    ensures SetProperty(SetProperty(t, name, value), name, value) == SetProperty(t, name, value)
  {
    var t' := SetProperty(t, name, value);
    SetThenRead(t, name, value);
    var (groups, i) := SelectGroup(t'.propertyGroups, name);
    var g := groups[i];
    var k := PropertyIndex(g.properties, name).value;
    assert g.properties[k] == Property(name, value);
    assert g.properties[k := Property(name, value)] == g.properties;
    assert SetPropertyValue(g, name, value) == g;
    assert groups[i := g] == groups;
  }

  /** The ProjectGuid getter after SetProjectGuid: the upper-cased GUID, braces stripped. */
  lemma SetProjectGuidThenRead(t: Tree, guid: string)
    requires guid != ""
    ensures ProjectGuidOf(SetProperty(t, ProjectGuidProperty, ToUpper(guid)).propertyGroups) == StripBraces(ToUpper(guid))
  {
    SetThenFirstNonEmpty(t, ProjectGuidProperty, ToUpper(guid));
  }

  // ---------------------------------------------------------------------------------------
  // ProjectTypes

  /** The number of ';' separators across the values. */
  function SeparatorCount(raws: seq<string>): nat
    decreases |raws|
  {
    if raws == [] then 0 else multiset(raws[0])[';'] + SeparatorCount(raws[1..])
  }

  /** One GUID per ';'-separated piece of every non-empty value. */
  lemma {:induction false} TypeGuidsCount(raws: seq<string>)
    ensures |TypeGuids(raws)| == |raws| + SeparatorCount(raws)
    decreases |raws|
  {
    if raws != [] {
      SplitCount(raws[0], ';');
      TypeGuidsCount(raws[1..]);
    }
  }

  /** ProjectTypes is never empty, and is the class library type exactly when no group lists a type. */
  lemma ProjectTypesCount(groups: seq<PropertyGroup>)
    ensures var raws := NonEmptyValues(groups, ProjectTypeGuidsProperty);
            |ProjectTypesOf(groups)| == (if raws == [] then 1 else |raws| + SeparatorCount(raws))
  {
    TypeGuidsCount(NonEmptyValues(groups, ProjectTypeGuidsProperty));
  }

  // ---------------------------------------------------------------------------------------
  // Items

  lemma {:induction false} ItemsNamedAppend(a: seq<Element>, b: seq<Element>, name: string)
    ensures ItemsNamed(a + b, name) == ItemsNamed(a, name) + ItemsNamed(b, name)
    decreases |a|
  {
    if a == [] {
      assert a + b == b;
    } else {
      var head := if a[0].name == name then [a[0]] else [];
      ItemsNamedAppend(a[1..], b, name);
      calc {
        ItemsNamed(a + b, name);
        { assert (a + b)[0] == a[0] && (a + b)[1..] == a[1..] + b; }
        head + ItemsNamed(a[1..] + b, name);
        head + (ItemsNamed(a[1..], name) + ItemsNamed(b, name));
        (head + ItemsNamed(a[1..], name)) + ItemsNamed(b, name);
      }
    }
  }

  lemma {:induction false} ItemsInAppend(a: seq<ItemGroup>, b: seq<ItemGroup>, name: string)
    ensures ItemsIn(a + b, name) == ItemsIn(a, name) + ItemsIn(b, name)
    decreases |a|
  {
    if a == [] {
      assert a + b == b;
    } else {
      var head := ItemsNamed(a[0].items, name);
      ItemsInAppend(a[1..], b, name);
      calc {
        ItemsIn(a + b, name);
        { assert (a + b)[0] == a[0] && (a + b)[1..] == a[1..] + b; }
        head + ItemsIn(a[1..] + b, name);
        head + (ItemsIn(a[1..], name) + ItemsIn(b, name));
        (head + ItemsIn(a[1..], name)) + ItemsIn(b, name);
      }
    }
  }

  /** The listing as the part before group i, group i's elements, and the part after. */
  lemma ItemsInSplit(groups: seq<ItemGroup>, i: nat, name: string)
    requires i < |groups|
    ensures ItemsIn(groups, name) == ItemsIn(groups[..i], name) + ItemsNamed(groups[i].items, name) + ItemsIn(groups[i + 1..], name)
  {
    assert groups == groups[..i] + groups[i..];
    ItemsInAppend(groups[..i], groups[i..], name);
    assert groups[i..][1..] == groups[i + 1..];
  }

  /** Appending an element to group i lists it among its name's elements and changes no other name's listing. */
  lemma AddToGroupListed(groups: seq<ItemGroup>, i: nat, e: Element, name: string)
    requires i < |groups|
    ensures e.name == name ==> multiset(ItemsIn(AddToGroup(groups, i, e), name)) == multiset(ItemsIn(groups, name)) + multiset{e}
    ensures e.name != name ==> ItemsIn(AddToGroup(groups, i, e), name) == ItemsIn(groups, name)
  {
    var before, middle, after := ItemsIn(groups[..i], name), ItemsNamed(groups[i].items, name), ItemsIn(groups[i + 1..], name);
    ItemsInSplit(groups, i, name);
    AddToGroupSplit(groups, i, e, name);
    SingleNamed(e, name);
    if e.name == name {
      calc {
        multiset(ItemsIn(AddToGroup(groups, i, e), name));
        multiset(before + (middle + [e]) + after);
        multiset(before) + multiset(middle) + multiset{e} + multiset(after);
        multiset(before + middle + after) + multiset{e};
      }
    } else {
      assert middle + [] == middle;
    }
  }

  /** The listing after appending to group i: the groups before it, group i's old listing and the new element's, the groups after it. */
  lemma AddToGroupSplit(groups: seq<ItemGroup>, i: nat, e: Element, name: string)
    requires i < |groups|
    ensures ItemsIn(AddToGroup(groups, i, e), name)
         == ItemsIn(groups[..i], name) + (ItemsNamed(groups[i].items, name) + ItemsNamed([e], name)) + ItemsIn(groups[i + 1..], name)
  {
    var groups' := AddToGroup(groups, i, e);
    ItemsInSplit(groups', i, name);
    assert groups'[..i] == groups[..i] && groups'[i + 1..] == groups[i + 1..];
    assert groups'[i].items == groups[i].items + [e];
    ItemsNamedAppend(groups[i].items, [e], name);
  }

  lemma SingleNamed(e: Element, name: string)
    ensures ItemsNamed([e], name) == if e.name == name then [e] else []
  {
    assert [e][1..] == [];
  }

  /** The same for a new group holding only the element, appended at the end. */
  lemma NewGroupListed(groups: seq<ItemGroup>, e: Element, name: string)
    ensures e.name == name ==> ItemsIn(groups + [ItemGroup([e])], name) == ItemsIn(groups, name) + [e]
    ensures e.name != name ==> ItemsIn(groups + [ItemGroup([e])], name) == ItemsIn(groups, name)
  {
    ItemsInAppend(groups, [ItemGroup([e])], name);
    SingleNamed(e, name);
    assert [ItemGroup([e])][1..] == [];
    assert ItemsIn([ItemGroup([e])], name) == ItemsNamed([e], name);
  }

  /** The element Add places is listed under its name once more; every other name lists as before. */
  lemma PlaceItemListed(t: Tree, name: string, includeValue: string, matches: (string, Element) -> bool, other: string)
    requires other != name
    ensures var placed := PlaceItem(t, name, includeValue, matches);
            multiset(AllItems(placed, name)) == multiset(AllItems(t, name)) + multiset{Element(name, includeValue)}
            && AllItems(placed, other) == AllItems(t, other)
            && placed.propertyGroups == t.propertyGroups
  {
    var e := Element(name, includeValue);
    match ItemTarget(t, name, includeValue, matches)
    case Some(i) =>
      AddToGroupListed(t.itemGroups, i, e, name);
      AddToGroupListed(t.itemGroups, i, e, other);
    case None =>
      NewGroupListed(t.itemGroups, e, name);
      NewGroupListed(t.itemGroups, e, other);
  }

  /** The sorted listing holds the added element too. */
  lemma PlacedItemSorted(t: Tree, name: string, includeValue: string, matches: (string, Element) -> bool)
    ensures Element(name, includeValue) in SortedItems(PlaceItem(t, name, includeValue, matches), name)
  {
    PlaceItemListed(t, name, includeValue, matches, name + "'");
    var listed := AllItems(PlaceItem(t, name, includeValue, matches), name);
    assert Element(name, includeValue) in multiset(listed);
    assert Element(name, includeValue) in multiset(SortBy(listed, IncludeOf));
  }

  lemma {:induction false} ItemsNamedRemove(items: seq<Element>, e: Element, name: string)
    requires e in items
    ensures e.name == name ==> multiset(ItemsNamed(RemoveElement(items, e), name)) == multiset(ItemsNamed(items, name)) - multiset{e}
    ensures e.name != name ==> ItemsNamed(RemoveElement(items, e), name) == ItemsNamed(items, name)
    decreases |items|
  {
    if items[0] != e {
      ItemsNamedRemove(items[1..], e, name);
    }
  }

  lemma {:induction false} RemoveFromGroupsAbsent(groups: seq<ItemGroup>, e: Element)
    requires e !in ItemsIn(groups, e.name)
    ensures RemoveFromGroups(groups, e) == groups
    decreases |groups|
  {
    if groups != [] {
      ItemsNamedMembers(groups[0].items, e.name);
      assert e !in ItemsNamed(groups[0].items, e.name);
      RemoveFromGroupsAbsent(groups[1..], e);
      assert [groups[0]] + groups[1..] == groups;
    }
  }

  lemma RemoveFromGroupsPresent(groups: seq<ItemGroup>, e: Element)
    requires e in ItemsIn(groups, e.name)
    ensures multiset(ItemsIn(RemoveFromGroups(groups, e), e.name)) == multiset(ItemsIn(groups, e.name)) - multiset{e}
  {
    RemoveFromGroupsListing(groups, e);
    RemoveElementCount(ItemsIn(groups, e.name), e);
  }

  lemma {:induction false} RemoveFromGroupsOther(groups: seq<ItemGroup>, e: Element, name: string)
    requires name != e.name
    ensures ItemsIn(RemoveFromGroups(groups, e), name) == ItemsIn(groups, name)
    decreases |groups|
  {
    if groups != [] {
      var rest := RemoveFromGroups(groups, e);
      if e in groups[0].items {
        ItemsNamedRemove(groups[0].items, e, name);
        assert rest[1..] == groups[1..];
      } else {
        RemoveFromGroupsOther(groups[1..], e, name);
        assert rest[0] == groups[0] && rest[1..] == RemoveFromGroups(groups[1..], e);
      }
    }
  }

  /** Only the first group holding the element changes, and in it only that element goes. */
  lemma {:induction false} RemoveFromGroupsFirstHolder(groups: seq<ItemGroup>, e: Element, i: nat)
    requires i < |groups| && e in groups[i].items
    requires forall j :: 0 <= j < i ==> e !in groups[j].items
    ensures RemoveFromGroups(groups, e) == groups[..i] + [ItemGroup(RemoveElement(groups[i].items, e))] + groups[i + 1..]
    decreases i
  {
    if i == 0 {
      assert groups[..0] == [] && groups[0 + 1..] == groups[1..];
    } else {
      var tail := groups[1..];
      var changed := [ItemGroup(RemoveElement(groups[i].items, e))];
      assert tail[i - 1] == groups[i];
      forall j | 0 <= j < i - 1 ensures e !in tail[j].items {
        assert tail[j] == groups[j + 1];
      }
      RemoveFromGroupsFirstHolder(tail, e, i - 1);
      assert e !in groups[0].items;
      assert RemoveFromGroups(groups, e) == [groups[0]] + RemoveFromGroups(tail, e);
      assert groups[..i] == [groups[0]] + tail[..i - 1];
      assert groups[i + 1..] == tail[i - 1 + 1..];
      calc {
        RemoveFromGroups(groups, e);
        [groups[0]] + (tail[..i - 1] + changed + tail[i - 1 + 1..]);
        ([groups[0]] + tail[..i - 1]) + changed + tail[i - 1 + 1..];
      }
    }
  }

  lemma RemoveElementCons(x: Element, rest: seq<Element>, e: Element)
    requires x != e
    ensures RemoveElement([x] + rest, e) == [x] + RemoveElement(rest, e)
  {
    assert ([x] + rest)[0] == x && ([x] + rest)[1..] == rest;
  }

  /** Removing from a concatenation removes from the part that holds the element first. */
  lemma RemoveElementAppend(a: seq<Element>, b: seq<Element>, e: Element)
    ensures e in a ==> RemoveElement(a + b, e) == RemoveElement(a, e) + b
    ensures e !in a ==> RemoveElement(a + b, e) == a + RemoveElement(b, e)
  {
    if e in a { RemoveElementAppendHolder(a, b, e); } else { RemoveElementAppendOther(a, b, e); }
  }

  lemma {:induction false} RemoveElementAppendHolder(a: seq<Element>, b: seq<Element>, e: Element)
    requires e in a
    ensures RemoveElement(a + b, e) == RemoveElement(a, e) + b
    decreases |a|
  {
    var x, tail := a[0], a[1..];
    assert a + b == [x] + (tail + b);
    assert a == [x] + tail;
    if x == e {
      assert (a + b)[0] == e && (a + b)[1..] == tail + b;
    } else {
      RemoveElementAppendHolder(tail, b, e);
      RemoveElementCons(x, tail + b, e);
      RemoveElementCons(x, tail, e);
      ConcatAssociative([x], RemoveElement(tail, e), b);
    }
  }

  lemma {:induction false} RemoveElementAppendOther(a: seq<Element>, b: seq<Element>, e: Element)
    requires e !in a
    ensures RemoveElement(a + b, e) == a + RemoveElement(b, e)
    decreases |a|
  {
    if a == [] {
      assert a + b == b;
    } else {
      var x, tail := a[0], a[1..];
      assert a + b == [x] + (tail + b);
      assert a == [x] + tail;
      assert x in a && x != e;
      assert forall y :: y in tail ==> y in a;
      RemoveElementAppendOther(tail, b, e);
      RemoveElementCons(x, tail + b, e);
      ConcatAssociative([x], tail, RemoveElement(b, e));
    }
  }

  /** Selecting by the element's name commutes with removing it. */
  lemma {:induction false} ItemsNamedRemoveCommutes(items: seq<Element>, e: Element)
    ensures ItemsNamed(RemoveElement(items, e), e.name) == RemoveElement(ItemsNamed(items, e.name), e)
    decreases |items|
  {
    if items != [] {
      var tail := items[1..];
      assert items == [items[0]] + tail;
      if items[0] == e {
        assert ItemsNamed(items, e.name) == [e] + ItemsNamed(tail, e.name);
        assert ([e] + ItemsNamed(tail, e.name))[1..] == ItemsNamed(tail, e.name);
      } else {
        ItemsNamedRemoveCommutes(tail, e);
        RemoveElementCons(items[0], tail, e);
        var head := if items[0].name == e.name then [items[0]] else [];
        assert ([items[0]] + RemoveElement(tail, e))[0] == items[0];
        assert ([items[0]] + RemoveElement(tail, e))[1..] == RemoveElement(tail, e);
        assert ItemsNamed(RemoveElement(items, e), e.name) == head + ItemsNamed(RemoveElement(tail, e), e.name);
        assert ItemsNamed(items, e.name) == head + ItemsNamed(tail, e.name);
        ItemsNamedMembers([items[0]], e.name);
        RemoveElementAppend(head, ItemsNamed(tail, e.name), e);
        assert RemoveElement(head, e) == head;
      }
    }
  }

  /** The listing after Remove is the old listing with that element's first occurrence taken out. */
  lemma {:induction false} RemoveFromGroupsListing(groups: seq<ItemGroup>, e: Element)
    ensures ItemsIn(RemoveFromGroups(groups, e), e.name) == RemoveElement(ItemsIn(groups, e.name), e)
    decreases |groups|
  {
    if groups != [] {
      var rest := RemoveFromGroups(groups, e);
      var first := ItemsNamed(groups[0].items, e.name);
      assert ItemsIn(groups, e.name) == first + ItemsIn(groups[1..], e.name);
      ItemsNamedMembers(groups[0].items, e.name);
      RemoveElementAppend(first, ItemsIn(groups[1..], e.name), e);
      if e in groups[0].items {
        assert e in first;
        ItemsNamedRemoveCommutes(groups[0].items, e);
        assert rest[0] == ItemGroup(RemoveElement(groups[0].items, e)) && rest[1..] == groups[1..];
        assert ItemsIn(rest, e.name) == ItemsNamed(rest[0].items, e.name) + ItemsIn(groups[1..], e.name);
      } else {
        assert e !in first;
        RemoveFromGroupsListing(groups[1..], e);
        assert rest[0] == groups[0] && rest[1..] == RemoveFromGroups(groups[1..], e);
        assert ItemsIn(rest, e.name) == first + ItemsIn(RemoveFromGroups(groups[1..], e), e.name);
      }
    }
  }

  /** Remove takes out exactly one element of that name and Include when there is one, and changes nothing otherwise. */
  lemma RemoveFirstEffect(t: Tree, name: string, includeValue: string, other: string)
    requires other != name
    ensures var e := Element(name, includeValue);
            var removed := RemoveFirst(t, name, includeValue);
            var listing := AllItems(t, name);
            (e in listing ==> multiset(AllItems(removed, name)) == multiset(listing) - multiset{e})
            && (e in listing ==> exists k :: 0 <= k < |listing| && listing[k] == e && e !in listing[..k]
                                             && AllItems(removed, name) == listing[..k] + listing[k + 1..])
            && (e !in listing ==> removed == t)
            && AllItems(removed, other) == AllItems(t, other)
  {
    var e := Element(name, includeValue);
    if e in AllItems(t, name) {
      RemoveFromGroupsPresent(t.itemGroups, e);
      RemoveFromGroupsListing(t.itemGroups, e);
      RemoveElementFirst(AllItems(t, name), e);
    } else {
      RemoveFromGroupsAbsent(t.itemGroups, e);
    }
    RemoveFromGroupsOther(t.itemGroups, e, other);
  }
}
