/**
 * The marker nodes of codenode/nodes/depth_change.py and codenode/nodes/indentation.py.
 * Each Python class becomes one constructor; the abstract base classes, whose method
 * raises NotImplementedError, are kept as constructors of their own so that a bare
 * `DepthChange()` or `Indentation()` placed in a tree is still representable.
 */
module Markers {
  import opened Wrappers

  datatype DepthChange =
    | AbstractDepthChange
    | RelativeDepthChange(offset: int)
    | AbsoluteDepthChange(value: int)

  datatype Indentation =
    | AbstractIndentation
    | RelativeIndentation(offset: int)
    | AbsoluteIndentation(value: int)
    | CurrentIndentation

  /** The exception `raise NotImplementedError` produces: no arguments. */
  const NotImplemented := Exception(NotImplementedError, [])

  /** `DepthChange.new_depth_for`: the depth that follows the current one. */
  function NewDepthFor(change: DepthChange, depth: int): (r: Result<int, Exception>)
    ensures r.Failure? <==> change.AbstractDepthChange?
    ensures r.Failure? ==> r.error == NotImplemented
  {
    match change
    case AbstractDepthChange => Failure(NotImplemented)
    case RelativeDepthChange(offset) => Success(depth + offset)
    case AbsoluteDepthChange(value) => Success(value)
  }

  /** `Indentation.indents_for`: how many indents the marker emits at the current depth. */
  function IndentsFor(indentation: Indentation, depth: int): (r: Result<int, Exception>)
    ensures r.Failure? <==> indentation.AbstractIndentation?
    ensures r.Failure? ==> r.error == NotImplemented
  {
    match indentation
    case AbstractIndentation => Failure(NotImplemented)
    case RelativeIndentation(offset) => Success(depth + offset)
    case AbsoluteIndentation(value) => Success(value)
    case CurrentIndentation => Success(depth)
  }

  /** A relative change moves the depth by its offset. */
  lemma RelativeMovesByOffset(offset: int, depth: int)
    ensures NewDepthFor(RelativeDepthChange(offset), depth) == Success(depth + offset)
    ensures NewDepthFor(RelativeDepthChange(offset), depth).value - depth == offset
  {
  }

  /** An absolute change ignores the current depth. */
  lemma AbsoluteIgnoresDepth(value: int, d1: int, d2: int)
    ensures NewDepthFor(AbsoluteDepthChange(value), d1) == NewDepthFor(AbsoluteDepthChange(value), d2)
    ensures NewDepthFor(AbsoluteDepthChange(value), d1) == Success(value)
  {
  }

  /** Relative(a) then Relative(b) is Relative(a + b); Relative(n) then Relative(-n) is the identity. */
  lemma RelativeCompose(a: int, b: int, depth: int)
    ensures NewDepthFor(RelativeDepthChange(b), NewDepthFor(RelativeDepthChange(a), depth).value)
         == NewDepthFor(RelativeDepthChange(a + b), depth)
    ensures NewDepthFor(RelativeDepthChange(-a), NewDepthFor(RelativeDepthChange(a), depth).value)
         == Success(depth)
  {
  }

  /** Applying an absolute change twice is the same as applying it once. */
  lemma AbsoluteIdempotent(value: int, depth: int)
    ensures NewDepthFor(AbsoluteDepthChange(value), NewDepthFor(AbsoluteDepthChange(value), depth).value)
         == NewDepthFor(AbsoluteDepthChange(value), depth)
  {
  }

  /** Current indentation emits the depth; Relative(0) behaves like Current; Absolute ignores depth. */
  lemma IndentationVariants(offset: int, value: int, depth: int, other: int)
    ensures IndentsFor(CurrentIndentation, depth) == Success(depth)
    ensures IndentsFor(RelativeIndentation(0), depth) == IndentsFor(CurrentIndentation, depth)
    ensures IndentsFor(RelativeIndentation(offset), depth) == Success(depth + offset)
    ensures IndentsFor(AbsoluteIndentation(value), depth) == IndentsFor(AbsoluteIndentation(value), other)
    ensures IndentsFor(AbsoluteIndentation(value), depth) == Success(value)
  {
  }
}
