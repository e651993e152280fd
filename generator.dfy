/**
 * The wrapper generator: `generate_syscall_wrapper` turns one parsed
 * declaration into an `unsafe fn` that marshals its arguments into
 * machine words and calls the `syscallN` primitive of its arity, and
 * `wrap_syscall` does so for every declaration of the macro input.
 * The emitted function is kept abstract: its name, typed parameters,
 * primitive, syscall number, argument expressions and return type.
 */
module Generator {
  import opened Options
  import opened Tokens
  import opened CTypes
  import opened TypeMapper
  import opened DeclParser

  /** The `syscall0` .. `syscall6` primitives of the `syscaller` crate, by arity. */
  datatype Primitive = Syscall0 | Syscall1 | Syscall2 | Syscall3 | Syscall4 | Syscall5 | Syscall6

  /** The number of syscall arguments a primitive takes after the syscall number. */
  function Arity(p: Primitive): nat {
    match p
    case Syscall0 => 0
    case Syscall1 => 1
    case Syscall2 => 2
    case Syscall3 => 3
    case Syscall4 => 4
    case Syscall5 => 5
    case Syscall6 => 6
  }

  /** The most arguments a syscall primitive takes. */
  const MaxArguments: nat := 6

  /** The message of the `compile_error!` emitted for a declaration with too many parameters. */
  const TooManyArguments: string := "Syscalls with more than 6 arguments are not supported"

  /** The arity `match`: the primitive that takes exactly `n` arguments, if there is one. */
  function SelectPrimitive(n: nat): (p: Option<Primitive>)
    ensures p.Some? <==> n <= MaxArguments
    ensures p.Some? ==> Arity(p.value) == n
  {
    if n == 0 then Some(Syscall0)
    else if n == 1 then Some(Syscall1)
    else if n == 2 then Some(Syscall2)
    else if n == 3 then Some(Syscall3)
    else if n == 4 then Some(Syscall4)
    else if n == 5 then Some(Syscall5)
    else if n == 6 then Some(Syscall6)
    else None
  }

  /** One parameter of the wrapper's signature: `name: ty`. */
  datatype RustParam = RustParam(name: string, ty: RustType)

  /** What is emitted for one declaration. */
  datatype Item =
    | Wrapper(name: string, params: seq<RustParam>, primitive: Primitive, sysno: nat,
              args: seq<ArgExpr>, returnType: RustType)
      // `pub unsafe fn name(params) -> returnType { primitive(sysno, args) as returnType }`
    | CompileError(message: string)
      // `compile_error!(message);`

  /** The wrapper parameter for a declared parameter: its name at its mapped Rust type. */
  function WrapperParam(p: CParameter): (r: RustParam)
    ensures r.name == p.name
  {
    RustParam(p.name, CTypeToRustType(p.cType))
  }

  /** The syscall argument for a declared parameter. */
  function SyscallArg(p: CParameter): (e: ArgExpr)
    ensures e.name == p.name
  {
    CTypeToSyscallArg(p.cType, p.name)
  }

  /**
   * `generate_syscall_wrapper`: more than six parameters give only the
   * compile error; otherwise a wrapper with the declared name, one typed
   * parameter and one marshalled argument per declared parameter in
   * declaration order, the primitive of exactly that arity, the declared
   * syscall number, and the mapped return type.
   */
  function GenerateSyscallWrapper(d: SyscallInput): (item: Item)
    ensures item.CompileError? <==> |d.args| > MaxArguments
    ensures item.CompileError? ==> item.message == TooManyArguments
    ensures item.Wrapper? ==>
              && item.name == d.name
              && item.sysno == d.number
              && Arity(item.primitive) == |d.args| == |item.params| == |item.args|
              && item.returnType == CTypeToRustType(d.returnType)
              && (forall i :: 0 <= i < |d.args| ==>
                    item.params[i] == WrapperParam(d.args[i]) && item.args[i] == SyscallArg(d.args[i]))
  {
    match SelectPrimitive(|d.args|)
    case None => CompileError(TooManyArguments)
    case Some(primitive) =>
      Wrapper(d.name,
              seq(|d.args|, i requires 0 <= i < |d.args| => WrapperParam(d.args[i])),
              primitive,
              d.number,
              seq(|d.args|, i requires 0 <= i < |d.args| => SyscallArg(d.args[i])),
              CTypeToRustType(d.returnType))
  }

  /**
   * `wrap_syscall`: the input's parse error is what the macro expands to;
   * otherwise one item per declaration, in input order.
   */
  function WrapSyscall(toks: seq<Token>): (r: Result<seq<Item>>)
    ensures ParseSyscallInputs(toks).Err? ==> r == Err(ParseSyscallInputs(toks).error)
    ensures ParseSyscallInputs(toks).Ok? ==>
              r.Ok? && |r.value| == |ParseSyscallInputs(toks).value|
              && forall i :: 0 <= i < |r.value| ==>
                   r.value[i] == GenerateSyscallWrapper(ParseSyscallInputs(toks).value[i])
  {
    match ParseSyscallInputs(toks)
    case Err(e) => Err(e)
    case Ok(ds) => Ok(seq(|ds|, i requires 0 <= i < |ds| => GenerateSyscallWrapper(ds[i])))
  }
}
