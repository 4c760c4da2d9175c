/**
 * What both CsProjFile classes share: the project item types they are
 * generic over, the item objects they hand out, and the ProjectTypes loop.
 *
 * ProjectItem and its subclasses are not part of this model. A type T is an
 * `ItemKind`: the name of the type (what a cast checks), the element name
 * `new T().Name` gives, and its Matches rule. An item object keeps its Include
 * and counts the Save calls it has received.
 */
module ProjectFiles {
  import opened Text
  import opened MSBuild

  /** A ProjectItem subclass: its type name, its element name, and Matches(include, element). */
  datatype ItemKind = ItemKind(typeName: string, name: string, matches: (string, Element) -> bool)

  /** An item object handed out by Add, All and Find. */
  class ProjectItem {
    const kind: ItemKind
    const includeValue: string
    /** How many times Save() wrote this item back into its element. */
    var saves: nat

    /** new T { Include = include }, or new T() followed by Read(element). */
    constructor (kind: ItemKind, includeValue: string)
      ensures this.kind == kind && this.includeValue == includeValue && saves == 0
    {
      this.kind := kind;
      this.includeValue := includeValue;
      saves := 0;
    }

    /** ProjectItem.Save: the item writes itself back. */
    method Save()
      modifies this
      ensures saves == old(saves) + 1
    {
      saves := saves + 1;
    }
  }

  /** A listing's Include values. */
  function Includes(listing: seq<Element>): set<string> {
    set e | e in listing :: e.includeValue
  }

  /** FirstOrDefault(x => x.Include == include) over enumerated items: the index of the first match, or |items|. */
  method FirstWithInclude(items: seq<ProjectItem>, includeValue: string) returns (k: nat)
    ensures k <= |items|
    ensures k < |items| ==> items[k].includeValue == includeValue
    ensures forall m :: 0 <= m < k ==> items[m].includeValue != includeValue
  {
    k := 0;
    while k < |items| && items[k].includeValue != includeValue
      invariant k <= |items|
      invariant forall m :: 0 <= m < k ==> items[m].includeValue != includeValue
    {
      k := k + 1;
    }
  }

  /** An Include none of the enumerated items carries is not among the listing's Includes. */
  lemma IncludesOfListing(listing: seq<Element>, items: seq<ProjectItem>, includeValue: string)
    requires |items| == |listing|
    requires forall k :: 0 <= k < |listing| ==> items[k].includeValue == listing[k].includeValue
    requires forall m :: 0 <= m < |items| ==> items[m].includeValue != includeValue
    ensures includeValue !in Includes(listing)
  {
    forall e | e in listing ensures e.includeValue != includeValue {
      var k :| 0 <= k < |listing| && listing[k] == e;
      assert items[k].includeValue != includeValue;
    }
  }

  /** Sorting the listing keeps its Include values. */
  lemma SortedSameIncludes(t: Tree, name: string)
    ensures Includes(SortedItems(t, name)) == Includes(AllItems(t, name))
  {
    var all := AllItems(t, name);
    var sorted := SortedItems(t, name);
    forall e ensures e in sorted <==> e in all {
      assert e in sorted <==> e in multiset(sorted);
    }
  }

  lemma {:induction false} TypeGuidsAppend(a: seq<string>, b: seq<string>)
    ensures TypeGuids(a + b) == TypeGuids(a) + TypeGuids(b)
    decreases |a|
  {
    if a == [] {
      assert a + b == b;
    } else {
      var head := GuidPieces(Split(a[0], ';'));
      TypeGuidsAppend(a[1..], b);
      TypeGuidsCons(a[0], a[1..]);
      TypeGuidsCons(a[0], a[1..] + b);
      assert [a[0]] + a[1..] == a;
      assert [a[0]] + (a[1..] + b) == a + b;
      calc {
        TypeGuids(a + b);
        TypeGuids([a[0]] + (a[1..] + b));
        head + TypeGuids(a[1..] + b);
        head + (TypeGuids(a[1..]) + TypeGuids(b));
        { ConcatAssociative(head, TypeGuids(a[1..]), TypeGuids(b)); }
        (head + TypeGuids(a[1..])) + TypeGuids(b);
        TypeGuids([a[0]] + a[1..]) + TypeGuids(b);
      }
    }
  }

  lemma TypeGuidsCons(raw: string, rest: seq<string>)
    ensures TypeGuids([raw] + rest) == GuidPieces(Split(raw, ';')) + TypeGuids(rest)
  {
    assert ([raw] + rest)[0] == raw && ([raw] + rest)[1..] == rest;
  }

  /** The GUIDs of one value's pieces, appended one by one. */
  method AppendGuidPieces(types: seq<string>, pieces: seq<string>) returns (r: seq<string>)
    ensures r == types + GuidPieces(pieces)
  {
    r := types;
    for j := 0 to |pieces|
      invariant r == types + GuidPieces(pieces[..j])
    {
      r := r + [StripBraces(pieces[j])];
      assert GuidPieces(pieces[..j + 1]) == GuidPieces(pieces[..j]) + [StripBraces(pieces[j])];
    }
    assert pieces[..|pieces|] == pieces;
  }

  lemma TypeGuidsSnoc(raws: seq<string>, i: nat)
    requires i < |raws|
    ensures TypeGuids(raws[..i + 1]) == TypeGuids(raws[..i]) + GuidPieces(Split(raws[i], ';'))
  {
    assert raws[..i + 1] == raws[..i] + [raws[i]];
    TypeGuidsAppend(raws[..i], [raws[i]]);
    assert TypeGuids([raws[i]]) == GuidPieces(Split(raws[i], ';')) + TypeGuids([]);
  }

  /** ProjectTypes(): the nested loop over the non-empty values and their ';' pieces, or the class library type. */
  method CollectProjectTypes(groups: seq<PropertyGroup>) returns (types: seq<string>)
    ensures types == ProjectTypesOf(groups)
    ensures |types| >= 1
  {
    var raws := NonEmptyValues(groups, ProjectTypeGuidsProperty);
    if raws == [] {
      return [ClassLibraryType];
    }
    types := [];
    for i := 0 to |raws|
      invariant types == TypeGuids(raws[..i])
    {
      types := AppendGuidPieces(types, Split(raws[i], ';'));
      TypeGuidsSnoc(raws, i);
    }
    assert raws[..|raws|] == raws;
  }
}
