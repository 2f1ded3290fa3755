/** Points, path commands and paths of a shape outline, and the application of a
    coordinate transform to a path. The transform itself is kept abstract: any
    total map on points. */
module Geometry {

  /** A point; `real` stands in for the source's `double`. */
  datatype Point = Point(x: real, y: real)

  /** The minimal set of path commands the traversal engine reduces every shape to.
      A cubic Bézier stores its end point first, then its two control points. */
  datatype Command =
    | MoveTo(p: Point)
    | LineTo(p: Point)
    | BezierTo(p: Point, c1: Point, c2: Point)
    | CloseSubpath

  /** A path is its commands in drawing order. */
  type Path = seq<Command>

  /** A coordinate transform, seen only through its action on points. */
  type Transform = Point -> Point

  /** The transform that applies `f` first and `g` second. */
  function Compose(g: Transform, f: Transform): Transform
  {
    p => g(f(p))
  }

  /** Maps every coordinate a command carries; `CloseSubpath` carries none. */
  function TransformCommand(t: Transform, c: Command): (r: Command)
    ensures r.MoveTo? == c.MoveTo? && r.LineTo? == c.LineTo?
    ensures r.BezierTo? == c.BezierTo? && r.CloseSubpath? == c.CloseSubpath?
    ensures !c.CloseSubpath? ==> r.p == t(c.p)
    ensures c.BezierTo? ==> r.c1 == t(c.c1) && r.c2 == t(c.c2)
  {
    match c
    case MoveTo(p) => MoveTo(t(p))
    case LineTo(p) => LineTo(t(p))
    case BezierTo(p, c1, c2) => BezierTo(t(p), t(c1), t(c2))
    case CloseSubpath => CloseSubpath
  }

  /** Transforms a path command by command, keeping the drawing order. */
  function TransformPath(t: Transform, path: Path): (r: Path)
    ensures |r| == |path|
    ensures forall i :: 0 <= i < |path| ==> r[i] == TransformCommand(t, path[i])
  {
    if path == [] then [] else [TransformCommand(t, path[0])] + TransformPath(t, path[1..])
  }

  /** Transforming by `f` and then by `g` is transforming once by their composition. */
  lemma TransformCompose(g: Transform, f: Transform, path: Path)
    ensures TransformPath(g, TransformPath(f, path)) == TransformPath(Compose(g, f), path)
  {
  }

  /** Transforming a whole path at once is the same as transforming each part as it
      was appended. */
  lemma TransformAppend(t: Transform, a: Path, b: Path)
    ensures TransformPath(t, a + b) == TransformPath(t, a) + TransformPath(t, b)
  {
  }
}
