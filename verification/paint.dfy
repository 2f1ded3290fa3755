/** Paint values the traversal engine delivers for the `fill` and `stroke`
    attributes, and the log severity chosen for a value the shape context does
    not support. */
module Paint {

  /** What may follow an IRI in a paint value, used when the IRI cannot be resolved. */
  datatype Fallback =
    | NoFallback
    | FallbackNone
    | FallbackCurrentColor
    | FallbackColor(rgb: int)

  /** The ICC part that may follow a colour. */
  datatype Icc = NoIcc | SkippedIcc | IccValue(profile: string)

  /** A paint value, one alternative per argument list the engine can deliver.
      A colour is its packed colour integer, with its ICC part if any. */
  datatype Paint =
    | NoPaint
    | CurrentColor
    | Inherit
    | Color(rgb: int, icc: Icc)
    | Iri(iri: string, fallback: Fallback)
    | FragmentIri(id: string, fallback: Fallback)

  /** The kinds of argument the engine passes to a paint `set` event after the
      attribute tag. */
  datatype Arg =
    | NoneTag
    | CurrentColorTag
    | InheritTag
    | ColorInt
    | SkipIccColor
    | IccColorValue
    | IriFragmentTag
    | IriString

  function FallbackArgs(f: Fallback): seq<Arg>
  {
    match f
    case NoFallback => []
    case FallbackNone => [NoneTag]
    case FallbackCurrentColor => [CurrentColorTag]
    case FallbackColor(_) => [ColorInt]
  }

  /** The argument list of the `set` event that delivers `p`. */
  function ArgsOf(p: Paint): seq<Arg>
  {
    match p
    case NoPaint => [NoneTag]
    case CurrentColor => [CurrentColorTag]
    case Inherit => [InheritTag]
    case Color(_, NoIcc) => [ColorInt]
    case Color(_, SkippedIcc) => [ColorInt, SkipIccColor]
    case Color(_, IccValue(_)) => [ColorInt, IccColorValue]
    case Iri(_, f) => [IriString] + FallbackArgs(f)
    case FragmentIri(_, f) => [IriFragmentTag, IriString] + FallbackArgs(f)
  }

  /** The debug-level overload accepts a colour integer, optionally followed by a
      skipped ICC colour (its parameter has a default). */
  predicate DebugOverloadViable(args: seq<Arg>)
  {
    args == [ColorInt] || args == [ColorInt, SkipIccColor]
  }

  /** The two log levels the shape context uses. */
  datatype Severity = Debug | Warn

  /** The attributes a paint value can be set on. */
  datatype PaintAttribute = Fill | Stroke

  /** Severity of the log line for a paint value handled only by logging: a plain
      colour, with or without a skipped ICC part, is expected and only worth a debug
      line; everything else warns. */
  function UnsupportedSeverity(p: Paint): Severity
  {
    match p
    case Color(_, IccValue(_)) => Warn
    case Color(_, _) => Debug
    case _ => Warn
  }

  /** The severity is the overload resolution of the source: the debug line is
      chosen exactly when the debug-level overload accepts the value's argument
      list, and the variadic overload warns otherwise. */
  lemma SeverityFollowsOverload(p: Paint)
    ensures UnsupportedSeverity(p) == Debug <==> DebugOverloadViable(ArgsOf(p))
    ensures UnsupportedSeverity(p) == Warn <==> !DebugOverloadViable(ArgsOf(p))
  {
    match p
    case Iri(_, _) => assert ArgsOf(p)[0] == IriString;
    case FragmentIri(_, _) => assert ArgsOf(p)[0] == IriFragmentTag;
    case _ =>
  }
}
