/** Values shared by the whole model: optional values, results and file paths. */
module Common {

  datatype Option<+T> = None | Some(value: T)

  /** The value of an operation, or the exception it raises */
  datatype Result<+T, +E> = Ok(value: T) | Err(error: E)

  /** One component of a path; pathlib never produces an empty component */
  type Name = s: string | s != "" witness "x"

  /** A path as its list of components; [] is the root of the file tree */
  type Path = seq<Name>

  /** A path that can name a file: anything but the root */
  type FilePath = p: Path | p != [] witness ["x"]

  /** pathlib's Path.parent; the parent of the root is the root */
  function Parent(p: Path): Path
  {
    if p == [] then [] else p[..|p| - 1]
  }

  /** pathlib's Path.name: the last component, or "" for the root */
  function FileName(p: Path): string
  {
    if p == [] then "" else p[|p| - 1]
  }

  /** The name of a path that is not the root */
  function BaseName(p: FilePath): Name
  {
    p[|p| - 1]
  }

  /** pathlib's `/` with a string: joining "" leaves the path as it is */
  function Join(p: Path, name: string): Path
  {
    if name == "" then p else p + [name]
  }

  /** `a` is `b` itself or one of its ancestors */
  predicate IsPrefix(a: Path, b: Path)
  {
    |a| <= |b| && b[..|a|] == a
  }

  /** `p` and all of its ancestors, the root included */
  function Ancestors(p: Path): (r: set<Path>)
    ensures forall q :: q in r <==> IsPrefix(q, p)
  {
    var r := set i | 0 <= i <= |p| :: p[..i];
    assert forall q :: IsPrefix(q, p) ==> q == p[..|q|];
    r
  }
}
