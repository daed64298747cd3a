/** Filesystem paths as sequences of components, in the manner of Rust's `PathBuf`. */
module Paths {
  import opened Text

  /** A path is its list of components; an absolute path starts with the root component. */
  type Path = seq<string>

  const Root: string := "/"

  predicate IsAbsolute(p: Path)
  {
    |p| > 0 && p[0] == Root
  }

  /** `PathBuf::pop` succeeds exactly when the path has a parent: it is neither
      the empty path nor the bare root. */
  predicate HasParent(p: Path)
  {
    |p| > 0 && p != [Root]
  }

  /** The path `pop` leaves behind: the last component dropped. */
  function Parent(p: Path): Path
    requires HasParent(p)
  {
    p[..|p| - 1]
  }

  /** The length of the last ancestor reached by popping: the bare root for an
      absolute path, the empty path otherwise. */
  function RootLength(p: Path): nat
  {
    if IsAbsolute(p) then 1 else 0
  }

  /** `PathBuf::join`: an absolute right-hand side replaces the left-hand side. */
  function Join(dir: Path, rest: Path): Path
  {
    if IsAbsolute(rest) then rest else dir + rest
  }

  /** The textual form of a path, components separated by `/`. */
  function PathString(p: Path): string
  {
    if IsAbsolute(p) then Root + JoinWith(p[1..], "/") else JoinWith(p, "/")
  }

  /** Component-wise lexicographic order on paths. */
  predicate PathLess(a: Path, b: Path)
  {
    if |a| == 0 then |b| > 0
    else |b| > 0 && (StrLess(a[0], b[0]) || (a[0] == b[0] && PathLess(a[1..], b[1..])))
  }

  lemma {:induction false} PathLessIrreflexive(a: Path)
    ensures !PathLess(a, a)
  {
    if |a| > 0 {
      StrLessIrreflexive(a[0]);
      PathLessIrreflexive(a[1..]);
    }
  }

  lemma {:induction false} PathLessAsymmetric(a: Path, b: Path)
    ensures !(PathLess(a, b) && PathLess(b, a))
  {
    if |a| > 0 && |b| > 0 {
      StrLessAsymmetric(a[0], b[0]);
      if a[0] == b[0] {
        PathLessAsymmetric(a[1..], b[1..]);
      }
    }
  }

  lemma {:induction false} PathLessTransitive(a: Path, b: Path, c: Path)
    requires PathLess(a, b) && PathLess(b, c)
    ensures PathLess(a, c)
  {
    if |a| > 0 {
      if StrLess(a[0], b[0]) && StrLess(b[0], c[0]) {
        StrLessTransitive(a[0], b[0], c[0]);
      } else if a[0] == b[0] && b[0] == c[0] {
        PathLessTransitive(a[1..], b[1..], c[1..]);
      }
    }
  }

  lemma {:induction false} PathLessTotal(a: Path, b: Path)
    ensures a == b || PathLess(a, b) || PathLess(b, a)
  {
    if |a| > 0 && |b| > 0 {
      StrLessTotal(a[0], b[0]);
      if a[0] == b[0] {
        PathLessTotal(a[1..], b[1..]);
        assert a == [a[0]] + a[1..] && b == [b[0]] + b[1..];
      }
    }
  }
}
