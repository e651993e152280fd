/**
 * The type mapper: a C type becomes the Rust type of the wrapper's
 * parameter (`to_rust_type`) and an expression that turns that parameter
 * into the machine word passed to the syscall (`to_syscall_arg`).
 */
module TypeMapper {
  import opened Options
  import opened CTypes

  /** The Rust types the mapper emits. */
  datatype RustType =
    | I8 | I16 | I32 | I64 | U16 | U32 | U64 | Usize | Isize
    | UnitType        // `()`
    | ImplAsRefBytes  // `impl AsRef<[u8]>`
    | ConstU8Ptr      // `*const u8`
    | MutU8Ptr        // `*mut u8`

  /** The syscall argument built from the parameter called `name`. */
  datatype ArgExpr =
    | Plain(name: string)          // `name`
    | CastUsize(name: string)      // `name as usize`
    | BufferAddress(name: string)  // `name.as_ref().as_ptr() as usize`

  /**
   * The width in bits and the signedness of an integer type, and whether
   * it is defined as pointer-sized (`size_t`, `usize`) rather than of a
   * fixed width that merely equals the pointer width on this target.
   */
  datatype IntLayout = IntLayout(bits: nat, signed: bool, pointerSized: bool)

  /** The C layout of the integer base kinds on x86-64 Linux (LP64, signed `char`). */
  function CLayout(b: BaseType): Option<IntLayout> {
    match b
    case Char => Some(IntLayout(8, true, false))
    case Short => Some(IntLayout(16, true, false))
    case UnsignedShort => Some(IntLayout(16, false, false))
    case Int => Some(IntLayout(32, true, false))
    case UnsignedInt => Some(IntLayout(32, false, false))
    case Long | LongLong => Some(IntLayout(64, true, false))
    case UnsignedLong | UnsignedLongLong => Some(IntLayout(64, false, false))
    case SSizeT => Some(IntLayout(64, true, true))
    case SizeT => Some(IntLayout(64, false, true))
    case Void | Custom(_) => None
  }

  /** The layout of Rust's integer types on a 64-bit target. */
  function RustLayout(r: RustType): Option<IntLayout> {
    match r
    case I8 => Some(IntLayout(8, true, false))
    case I16 => Some(IntLayout(16, true, false))
    case U16 => Some(IntLayout(16, false, false))
    case I32 => Some(IntLayout(32, true, false))
    case U32 => Some(IntLayout(32, false, false))
    case I64 => Some(IntLayout(64, true, false))
    case U64 => Some(IntLayout(64, false, false))
    case Isize => Some(IntLayout(64, true, true))
    case Usize => Some(IntLayout(64, false, true))
    case _ => None
  }

  /** No two Rust types share a layout, so a layout names one Rust integer type. */
  lemma RustLayoutInjective(r: RustType, r': RustType)
    requires RustLayout(r).Some? && RustLayout(r) == RustLayout(r')
    ensures r == r'
  {
  }

  /**
   * `BaseType::to_rust_type`: every integer kind keeps its C width,
   * signedness and pointer-sizedness, `void` is `()`, and an opaque custom
   * type is a `usize` word.
   */
  function BaseToRustType(b: BaseType): (r: RustType)
    ensures CLayout(b).Some? ==> RustLayout(r) == CLayout(b)
    ensures r == UnitType <==> b == Void
    ensures b.Custom? ==> r == Usize
  {
    match b
    case Char => I8
    case Int => I32
    case UnsignedInt => U32
    case Long => I64
    case UnsignedLong => U64
    case LongLong => I64
    case UnsignedLongLong => U64
    case Short => I16
    case UnsignedShort => U16
    case SizeT => Usize
    case SSizeT => Isize
    case Void => UnitType
    case Custom(_) => Usize
  }

  /** `BaseType::to_syscall_arg`: `size_t` passes unchanged, every other kind is cast to `usize`. */
  function BaseToSyscallArg(b: BaseType, name: string): (e: ArgExpr)
    ensures e.name == name
    ensures e.Plain? <==> b == SizeT
    ensures !e.BufferAddress?
  {
    match b
    case SizeT => Plain(name)
    case SSizeT => CastUsize(name)
    case _ => CastUsize(name)
  }

  /** Whether the pointer's direct target is `char`: a byte buffer. */
  predicate IsCharPointer(t: CType) {
    t.Pointer? && t.target == Base(Char)
  }

  /**
   * `CType::to_rust_type`: a direct `char` pointer is `impl AsRef<[u8]>`
   * whatever its const flag; any other pointer is `*const u8` when const
   * and `*mut u8` otherwise; a base type maps by its kind.
   */
  function CTypeToRustType(t: CType): (r: RustType)
    ensures r == ImplAsRefBytes <==> IsCharPointer(t)
    ensures r == ConstU8Ptr <==> t.Pointer? && !IsCharPointer(t) && t.isConst
    ensures r == MutU8Ptr <==> t.Pointer? && !IsCharPointer(t) && !t.isConst
    ensures t.Base? ==> r == BaseToRustType(t.base)
  {
    match t
    case Base(b) => BaseToRustType(b)
    case Pointer(target, isConst) =>
      if target == Base(Char) then ImplAsRefBytes
      else if isConst then ConstU8Ptr
      else MutU8Ptr
  }

  /**
   * `CType::to_syscall_arg`: a direct `char` pointer passes the address of
   * its byte view, any other pointer and every base kind but `size_t` is
   * cast to `usize`, and `size_t` passes unchanged.
   */
  function CTypeToSyscallArg(t: CType, name: string): (e: ArgExpr)
    ensures e.name == name
    ensures e.BufferAddress? <==> IsCharPointer(t)
    ensures e.Plain? <==> t == Base(SizeT)
  {
    match t
    case Base(b) => BaseToSyscallArg(b, name)
    case Pointer(target, _) =>
      if target == Base(Char) then BufferAddress(name) else CastUsize(name)
  }

  /**
   * Whether Rust accepts an `as` cast between `r` and a machine integer
   * (`usize` or `isize`), in either direction: integers and raw pointers.
   */
  predicate CastsWithWord(r: RustType) {
    RustLayout(r).Some? || r == ConstU8Ptr || r == MutU8Ptr
  }

  /** The Rust type of an argument expression whose parameter has type `r`, if it type-checks. */
  function ArgExprType(e: ArgExpr, r: RustType): Option<RustType> {
    match e
    case Plain(_) => Some(r)
    case CastUsize(_) => if CastsWithWord(r) then Some(Usize) else None
    case BufferAddress(_) => if r == ImplAsRefBytes then Some(Usize) else None
  }

  /**
   * The two mappings agree: the argument expression built for a parameter,
   * read at the parameter's Rust type, is a `usize` word, for every C type
   * except plain `void`, whose `() as usize` Rust refuses.
   */
  lemma ArgumentIsMachineWord(t: CType, name: string)
    ensures ArgExprType(CTypeToSyscallArg(t, name), CTypeToRustType(t)) == Some(Usize)
            <==> t != Base(Void)
  {
    match t
    case Base(b) =>
      if b != Void && b != SizeT {
        assert CLayout(b).Some? || b.Custom?;
      }
    case Pointer(_, _) =>
  }

  /**
   * The wrapper casts the `isize` the syscall primitive returns to the
   * mapped return type; Rust accepts that for every C type except plain `void` and a
   * direct `char` pointer, whose `impl AsRef<[u8]>` is no cast target.
   */
  lemma ReturnCastAccepted(t: CType)
    ensures CastsWithWord(CTypeToRustType(t)) <==> t != Base(Void) && !IsCharPointer(t)
  {
    match t
    case Base(b) =>
      if b != Void {
        assert CLayout(b).Some? || b.Custom?;
      }
    case Pointer(_, _) =>
  }

  /** The pointer const flag changes the parameter type at most, never the argument. */
  lemma ConstNeverChangesArgument(target: CType, name: string)
    ensures CTypeToSyscallArg(Pointer(target, true), name) == CTypeToSyscallArg(Pointer(target, false), name)
    ensures CTypeToRustType(Pointer(target, true)) == CTypeToRustType(Pointer(target, false))
            <==> target == Base(Char)
  {
  }
}
