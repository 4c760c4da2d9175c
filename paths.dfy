/**
 * File-name rules. FubuCore's and System.IO's path helpers are not part of
 * this model and are carried as functions in `PathOps`; only
 * Path.GetExtension is written out, because the ".sln" naming rule of
 * Solution.CreateNew and TemplatePlanBuilder depends on it.
 */
module Paths {
  import opened Text

  /** The path helpers the modelled code calls, left uninterpreted. */
  datatype PathOps = PathOps(
    appendPath: (string, string) -> string,        // FubuCore AppendPath (Path.Combine)
    parentDirectory: string -> string,             // FubuCore ParentDirectory
    pathRelativeTo: (string, string) -> string,    // FubuCore PathRelativeTo(path, root)
    fileNameWithoutExtension: string -> string)    // Path.GetFileNameWithoutExtension

  const SlnExtension := ".sln"

  /** The characters at which Path.GetExtension stops its backward scan on Windows: both directory separators and the volume separator. */
  predicate IsSeparator(c: char) {
    c == '/' || c == '\\' || c == ':'
  }

  /**
   * Path.GetExtension: from the last '.' of the last path segment to the
   * end, or "" when that segment has no '.' or ends with it.
   */
  function Extension(path: string): string
  {
    ExtensionBefore(path, |path|)
  }

  /** The scan of Path.GetExtension over path[..i], from its end back to a separator. */
  function ExtensionBefore(path: string, i: nat): string
    requires i <= |path|
    decreases i
  {
    if i == 0 then ""
    else if path[i - 1] == '.' then (if i == |path| then "" else path[i - 1..])
    else if IsSeparator(path[i - 1]) then ""
    else ExtensionBefore(path, i - 1)
  }

  /** The file name a solution gets: ".sln" is appended unless the extension already is exactly ".sln". */
  function SlnFileName(fileName: string): string {
    if Extension(fileName) != SlnExtension then fileName + SlnExtension else fileName
  }

  /** Appending ".sln" always produces a name whose extension is ".sln". */
  lemma ExtensionOfSln(fileName: string)
    ensures Extension(fileName + SlnExtension) == SlnExtension
  {
    var p := fileName + SlnExtension;
    var m := |fileName|;
    assert p[m] == '.' && p[m + 1] == 's' && p[m + 2] == 'l' && p[m + 3] == 'n';
    assert ExtensionBefore(p, m + 4) == ExtensionBefore(p, m + 3);
    assert ExtensionBefore(p, m + 3) == ExtensionBefore(p, m + 2);
    assert ExtensionBefore(p, m + 2) == ExtensionBefore(p, m + 1);
    assert p[m..] == SlnExtension;
  }

  /** The name chosen always ends in the ".sln" extension and keeps the requested name as its prefix. */
  lemma SlnFileNameHasSlnExtension(fileName: string)
    ensures Extension(SlnFileName(fileName)) == SlnExtension
    ensures StartsWith(SlnFileName(fileName), fileName)
  {
    if Extension(fileName) != SlnExtension { ExtensionOfSln(fileName); }
  }

  /** Naming a solution twice changes nothing more than naming it once. */
  lemma SlnFileNameIdempotent(fileName: string)
    ensures SlnFileName(SlnFileName(fileName)) == SlnFileName(fileName)
  {
    SlnFileNameHasSlnExtension(fileName);
  }

  /** The extension check is case-sensitive: "Foo.SLN" still gets ".sln" appended. */
  lemma UpperCaseExtensionIsExtended()
    ensures SlnFileName("Foo.SLN") == "Foo.SLN.sln"
  {
    var p := "Foo.SLN";
    assert ExtensionBefore(p, 7) == ExtensionBefore(p, 6) == ExtensionBefore(p, 5)
        == ExtensionBefore(p, 4) == ".SLN";
  }
}
