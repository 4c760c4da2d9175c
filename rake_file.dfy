/**
 * RakeFileTransform: appends a template's rake fragment to the solution's
 * rakefile unless the file already holds it as a contiguous run of lines.
 *
 * File reading and writing are not part of this model: the existing file is
 * given as its lines (None when there is no file), the fragment as its lines
 * after substitution and SplitOnNewLine, and the result is the list of lines
 * written, or None when nothing is written.
 */
module RakeFile {
  import opened Wrappers
  import opened Text

  const TargetFile := "rakefile"
  const SourceFile := "rake.txt"

  /** The lines Alter writes (joined with Environment.NewLine), or None when it returns early. */
  function Transformed(existing: Option<seq<string>>, lines: seq<string>): Option<seq<string>> {
    var list := if existing.Some? then existing.value else [];
    if ContainsSequence(list, lines) then None else Some(list + [""] + lines)
  }

  /** The rakefile's lines after Alter: the written lines, else what was there. */
  function FileAfter(existing: Option<seq<string>>, lines: seq<string>): Option<seq<string>> {
    match Transformed(existing, lines)
    case None => existing
    case Some(written) => Some(written)
  }

  class RakeFileTransform {
    const text: string

    constructor (text: string)
      ensures this.text == text
    {
      this.text := text;
    }

    /** Alter: read or start the list, return if it holds the lines, else Add an empty line, AddRange the lines and write. */
    method Alter(existing: Option<seq<string>>, lines: seq<string>) returns (written: Option<seq<string>>)
      ensures written == Transformed(existing, lines)
      ensures written.Some? ==> !ContainsSequence(if existing.Some? then existing.value else [], lines)
    {
      var list: seq<string> := if existing.Some? then existing.value else [];
      if ContainsSequence(list, lines) {
        return None;
      }
      list := list + [""];
      list := list + lines;
      written := Some(list);
    }
  }

  /** A written file keeps the old lines as its prefix and ends with one empty line and the fragment. */
  lemma WrittenExtendsExisting(existing: seq<string>, lines: seq<string>)
    requires Transformed(Some(existing), lines).Some?
    ensures var w := Transformed(Some(existing), lines).value;
            |w| == |existing| + 1 + |lines| && w[..|existing|] == existing
            && w[|existing|] == "" && w[|existing| + 1..] == lines
  {
  }

  /** Without a rakefile the result is an empty line followed by the fragment (nothing at all for an empty fragment). */
  lemma MissingFileIsEmpty(lines: seq<string>)
    ensures Transformed(None, lines) == if lines == [] then None else Some([""] + lines)
  {
    if lines == [] {
      assert OccursAt([], lines, 0);
    } else {
      assert [] + [""] + lines == [""] + lines;
    }
  }

  /** After Alter the file holds the fragment. */
  lemma AfterHoldsFragment(existing: Option<seq<string>>, lines: seq<string>)
    ensures FileAfter(existing, lines).Some? || lines == []
    ensures FileAfter(existing, lines).Some? ==> ContainsSequence(FileAfter(existing, lines).value, lines)
  {
    var list := if existing.Some? then existing.value else [];
    match Transformed(existing, lines)
    case None =>
      if existing.None? {
        var i :| 0 <= i <= |list| - |lines| && OccursAt(list, lines, i);
      }
    case Some(w) =>
      assert OccursAt(w, lines, |list| + 1);
  }

  /** Applying the same fragment twice is applying it once. */
  lemma AlterIdempotent(existing: Option<seq<string>>, lines: seq<string>)
    ensures FileAfter(FileAfter(existing, lines), lines) == FileAfter(existing, lines)
  {
    AfterHoldsFragment(existing, lines);
    if FileAfter(existing, lines).None? {
      assert lines == [] && existing.None?;
      MissingFileIsEmpty(lines);
    }
  }

  /** Containment survives a later append, so a second fragment does not undo the first. */
  lemma ContainedStillContained(list: seq<string>, first: seq<string>, more: seq<string>)
    requires ContainsSequence(list, first)
    ensures ContainsSequence(list + more, first)
  {
    var i :| 0 <= i <= |list| - |first| && OccursAt(list, first, i);
    assert (list + more)[i..i + |first|] == list[i..i + |first|];
    assert OccursAt(list + more, first, i);
  }

  /** The solution's fragment and a project's fragment both end up in the rakefile. */
  lemma BothFragmentsKept(existing: Option<seq<string>>, first: seq<string>, second: seq<string>)
    requires first != [] && second != []
    ensures var after := FileAfter(FileAfter(existing, first), second);
            after.Some? && ContainsSequence(after.value, first) && ContainsSequence(after.value, second)
  {
    AfterHoldsFragment(existing, first);
    var middle := FileAfter(existing, first);
    AfterHoldsFragment(middle, second);
    match Transformed(middle, second)
    case None =>
    case Some(w) =>
      ContainedStillContained(middle.value, first, [""] + second);
      assert w == middle.value + ([""] + second);
  }
}
