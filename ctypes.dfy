/** The compiler's internal type representation: `CType` and `BaseType`. */
module CTypes {

  datatype BaseType =
    | Char | Int | UnsignedInt | Long | UnsignedLong | LongLong | UnsignedLongLong
    | Short | UnsignedShort
    | SizeT | SSizeT
    | Void
    | Custom(name: string)   // an opaque tagged or unknown type, by its spelling

  /** A pointer node owns its target; `T**` is `Pointer(Pointer(Base(T), c0), c1)`. */
  datatype CType = Base(base: BaseType) | Pointer(target: CType, isConst: bool)

  /** The base type under all pointer levels. */
  function BaseOf(t: CType): BaseType {
    match t
    case Base(b) => b
    case Pointer(target, _) => BaseOf(target)
  }

  /** The const flags of the pointer levels, innermost level first. */
  function Levels(t: CType): seq<bool> {
    match t
    case Base(_) => []
    case Pointer(target, c) => Levels(target) + [c]
  }

  /**
   * Wraps `t` in one pointer node per flag, the first flag innermost: the
   * functional reading of the `for` loop that ends `CType::parse`.
   */
  function WrapPointers(t: CType, levels: seq<bool>): CType
    decreases |levels|
  {
    if levels == [] then t else WrapPointers(Pointer(t, levels[0]), levels[1..])
  }

  lemma {:induction false} WrapPointersSnoc(t: CType, levels: seq<bool>, c: bool)
    ensures WrapPointers(t, levels + [c]) == Pointer(WrapPointers(t, levels), c)
    decreases |levels|
  {
    if levels == [] {
      assert levels + [c] == [c];
      assert [c][1..] == [];
    } else {
      assert (levels + [c])[1..] == levels[1..] + [c];
      WrapPointersSnoc(Pointer(t, levels[0]), levels[1..], c);
    }
  }

  /** Wrapping adds exactly the given levels, in order, and keeps the base. */
  lemma {:induction false} WrapPointersLevels(t: CType, levels: seq<bool>)
    ensures Levels(WrapPointers(t, levels)) == Levels(t) + levels
    ensures BaseOf(WrapPointers(t, levels)) == BaseOf(t)
    decreases |levels|
  {
    if levels == [] {
      assert Levels(t) + levels == Levels(t);
    } else {
      WrapPointersLevels(Pointer(t, levels[0]), levels[1..]);
      assert Levels(t) + [levels[0]] + levels[1..] == Levels(t) + levels;
    }
  }

  /** Every type is its base wrapped in its levels: the two views are inverse. */
  lemma {:induction false} WrapPointersOfLevels(t: CType)
    ensures WrapPointers(Base(BaseOf(t)), Levels(t)) == t
  {
    match t
    case Base(_) =>
    case Pointer(target, c) =>
      WrapPointersOfLevels(target);
      WrapPointersSnoc(Base(BaseOf(target)), Levels(target), c);
  }

  /** A type with no pointer level is its base. */
  lemma NoLevelsIsBase(t: CType)
    ensures Levels(t) == [] <==> t == Base(BaseOf(t))
  {
    match t
    case Base(_) =>
    case Pointer(_, _) =>
  }
}
