/**
 * ProjectDirectory: a project-relative directory a template asks for, stored
 * with every '\' turned into '/', and compared by runtime type and that
 * normalised path. Creating the directory and scanning a template for
 * directories are file-system work and are not part of this model.
 */
module ProjectDirectories {
  import opened Wrappers
  import opened Text

  /** The runtime type name of ProjectDirectory itself (a subclass would carry its own). */
  const ProjectDirectoryType := "ProjectDirectory"

  /** A ProjectDirectory object: its runtime type and its stored path. */
  datatype ProjectDirectory = ProjectDirectory(typeName: string, relativePath: string)

  /** relativePath.Replace("\\", "/"). */
  function Normalize(path: string): string {
    ReplaceChar(path, '\\', '/')
  }

  /** new ProjectDirectory(relativePath). */
  function NewProjectDirectory(relativePath: string): (d: ProjectDirectory)
    ensures d.typeName == ProjectDirectoryType
    ensures '\\' !in d.relativePath
    ensures |d.relativePath| == |relativePath|
    ensures forall i :: 0 <= i < |relativePath| && relativePath[i] != '\\' ==> d.relativePath[i] == relativePath[i]
  {
    ProjectDirectory(ProjectDirectoryType, Normalize(relativePath))
  }

  /** Equals(object): false for null, otherwise the same runtime type and the same stored path. */
  predicate Equals(d: ProjectDirectory, other: Option<ProjectDirectory>) {
    other.Some? && other.value.typeName == d.typeName && other.value.relativePath == d.relativePath
  }

  /** GetHashCode: the string hash of the stored path (String.GetHashCode is a parameter). */
  function HashCode(d: ProjectDirectory, stringHash: string -> int): int {
    stringHash(d.relativePath)
  }

  /** A path without backslashes is stored unchanged. */
  lemma NormalizeKeepsPlainPath(path: string)
    requires '\\' !in path
    ensures Normalize(path) == path
  {
  }

  /** Normalising twice is normalising once. */
  lemma NormalizeIdempotent(path: string)
    ensures Normalize(Normalize(path)) == Normalize(path)
  {
    var once := Normalize(path);
    assert '\\' !in once by {
      forall i | 0 <= i < |once| ensures once[i] != '\\' {
      }
    }
    NormalizeKeepsPlainPath(once);
  }

  /** Two constructed directories are equal exactly when their paths normalise alike. */
  lemma EqualsIffSameNormalized(p: string, q: string)
    ensures Equals(NewProjectDirectory(p), Some(NewProjectDirectory(q))) <==> Normalize(p) == Normalize(q)
  {
  }

  /** So "a\b" equals "a/b". */
  lemma BackslashEqualsSlash()
    ensures Equals(NewProjectDirectory("a\\b"), Some(NewProjectDirectory("a/b")))
  {
    assert Normalize("a\\b") == "a/b";
    NormalizeKeepsPlainPath("a/b");
  }

  /** Equals is an equivalence on objects, and never holds for null. */
  lemma EqualsIsEquivalence(a: ProjectDirectory, b: ProjectDirectory, c: ProjectDirectory)
    ensures Equals(a, Some(a))
    ensures Equals(a, Some(b)) ==> Equals(b, Some(a))
    ensures Equals(a, Some(b)) && Equals(b, Some(c)) ==> Equals(a, Some(c))
    ensures !Equals(a, None)
  {
  }

  /** Equal objects have equal hash codes, whatever the string hash. */
  lemma EqualsThenSameHash(a: ProjectDirectory, b: ProjectDirectory, stringHash: string -> int)
    requires Equals(a, Some(b))
    ensures HashCode(a, stringHash) == HashCode(b, stringHash)
  {
  }
}
