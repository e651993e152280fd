/**
 * What the generator promises about its output: every argument refers to
 * the parameter at its own position and is a machine word, the result
 * cast is accepted, and printed declarations come back as wrappers in
 * order, from the macro's tokens to the emitted items.
 */
module GeneratorFacts {
  import opened Options
  import opened Tokens
  import opened CTypes
  import opened TypeMapper
  import opened DeclParser
  import opened Punctuated
  import opened TypeParserFacts
  import opened DeclParserFacts
  import opened Generator

  /**
   * In a wrapper, the i-th syscall argument is built from the i-th
   * parameter and is a `usize` at that parameter's type unless the
   * parameter is plain `void`; the result cast to the return type is
   * accepted unless that is plain `void` or a direct `char` pointer.
   */
  lemma WrapperWellTyped(d: SyscallInput)
    requires GenerateSyscallWrapper(d).Wrapper?
    ensures var item := GenerateSyscallWrapper(d);
            forall i :: 0 <= i < |d.args| ==>
              && item.args[i].name == item.params[i].name == d.args[i].name
              && (ArgExprType(item.args[i], item.params[i].ty) == Some(Usize) <==> d.args[i].cType != Base(Void))
    ensures CastsWithWord(GenerateSyscallWrapper(d).returnType)
            <==> d.returnType != Base(Void) && !IsCharPointer(d.returnType)
  {
    var item := GenerateSyscallWrapper(d);
    forall i | 0 <= i < |d.args|
      ensures ArgExprType(item.args[i], item.params[i].ty) == Some(Usize) <==> d.args[i].cType != Base(Void)
    {
      ArgumentIsMachineWord(d.args[i].cType, d.args[i].name);
    }
    ReturnCastAccepted(d.returnType);
  }

  /**
   * The macro end to end: declarations printed with commas between them
   * expand to one item per declaration, in the same order, each the
   * wrapper (or compile error) generated for that declaration.
   */
  lemma WrapSyscallRoundTrip(ds: seq<SyscallInput>)
    requires forall i :: 0 <= i < |ds| ==> PrintableDecl(ds[i])
    ensures var r := WrapSyscall(Joined(DeclTokens, ds));
            r.Ok? && |r.value| == |ds|
            && forall i :: 0 <= i < |ds| ==> r.value[i] == GenerateSyscallWrapper(ds[i])
  {
    ParseSyscallInputsRoundTrip(ds);
  }

  /** A list of two or more printed elements is the first, a comma, and the rest. */
  lemma JoinedCons<T>(render: T -> seq<Token>, x: T, xs: seq<T>)
    requires xs != []
    ensures Joined(render, [x] + xs) == render(x) + [Punct(',')] + Joined(render, xs)
  {
    assert ([x] + xs)[1..] == xs;
  }

  /** A parameter whose type is written as one word. */
  lemma OneWordParam(b: BaseType, w: string, name: string)
    requires CanonicalWords(b) == [w]
    ensures ParamTokens(CParameter(Base(b), name)) == [Ident(w), Ident(name)]
  {
    assert WordTokens([w]) == [Ident(w)];
    assert StarTokens(Levels(Base(b))) == [];
  }

  /** A parameter of type `void *`. */
  lemma VoidPointerParam(name: string)
    ensures ParamTokens(CParameter(Pointer(Base(Void), false), name)) == [Ident("void"), Punct('*'), Ident(name)]
  {
    assert WordTokens(["void"]) == [Ident("void")];
    assert StarTokens([false]) == [Punct('*')];
  }

  /** A declaration, printed, with one-word return type. */
  lemma OneWordDecl(d: SyscallInput, w: string)
    requires d.returnType.Base? && CanonicalWords(d.returnType.base) == [w]
    ensures Joined(DeclTokens, [d])
            == [IntLit(d.number), Punct(':'), Ident(w), Ident(d.name), Group(Paren, Joined(ParamTokens, d.args))]
  {
    assert WordTokens([w]) == [Ident(w)];
    assert StarTokens(Levels(d.returnType)) == [];
  }

  /** `1: ssize_t read(int fd, void *buf, size_t count)` */
  const ReadTokens: seq<Token> :=
    [IntLit(1), Punct(':'), Ident("ssize_t"), Ident("read"),
     Group(Paren, [Ident("int"), Ident("fd"), Punct(','),
                   Ident("void"), Punct('*'), Ident("buf"), Punct(','),
                   Ident("size_t"), Ident("count")])]

  /** The declaration `ReadTokens` prints. */
  const ReadDecl: SyscallInput :=
    SyscallInput(1, Base(SSizeT), "read",
                 [CParameter(Base(Int), "fd"), CParameter(Pointer(Base(Void), false), "buf"),
                  CParameter(Base(SizeT), "count")])

  /** Three printed elements. */
  lemma JoinedThree<T>(render: T -> seq<Token>, x: T, y: T, z: T)
    ensures Joined(render, [x, y, z]) == render(x) + [Punct(',')] + render(y) + [Punct(',')] + render(z)
  {
    JoinedCons(render, x, [y, z]);
    assert [x] + [y, z] == [x, y, z];
    JoinedCons(render, y, [z]);
    assert [y] + [z] == [y, z];
  }

  lemma ReadPrintable()
    ensures PrintableDecl(ReadDecl)
  {
    assert PrintableParam(ReadDecl.args[0]);
    assert PrintableParam(ReadDecl.args[1]);
    assert PrintableParam(ReadDecl.args[2]);
  }

  lemma ReadPrinted()
    ensures Joined(DeclTokens, [ReadDecl]) == ReadTokens
  {
    var fd := CParameter(Base(Int), "fd");
    var buf := CParameter(Pointer(Base(Void), false), "buf");
    var count := CParameter(Base(SizeT), "count");
    OneWordParam(Int, "int", "fd");
    VoidPointerParam("buf");
    OneWordParam(SizeT, "size_t", "count");
    JoinedThree(ParamTokens, fd, buf, count);
    assert Joined(ParamTokens, ReadDecl.args) == ReadTokens[4].inner;
    OneWordDecl(ReadDecl, "ssize_t");
  }

  /** A declaration with three parameters becomes a `syscall3` wrapper over them, in order. */
  lemma ThreeArgumentWrapper(d: SyscallInput)
    requires |d.args| == 3
    ensures GenerateSyscallWrapper(d)
            == Wrapper(d.name, [WrapperParam(d.args[0]), WrapperParam(d.args[1]), WrapperParam(d.args[2])],
                       Syscall3, d.number, [SyscallArg(d.args[0]), SyscallArg(d.args[1]), SyscallArg(d.args[2])],
                       CTypeToRustType(d.returnType))
  {
  }

  /** A single printed declaration expands to the one item generated for it. */
  lemma SingleDeclaration(d: SyscallInput)
    requires PrintableDecl(d)
    ensures WrapSyscall(Joined(DeclTokens, [d])) == Ok([GenerateSyscallWrapper(d)])
  {
    ParseSyscallInputsRoundTrip([d]);
    var r := WrapSyscall(Joined(DeclTokens, [d]));
    assert r.value == [r.value[0]];
  }

  /** The wrapper generated for `read`. */
  lemma ReadGenerated()
    ensures GenerateSyscallWrapper(ReadDecl)
            == Wrapper("read",
                       [RustParam("fd", I32), RustParam("buf", MutU8Ptr), RustParam("count", Usize)],
                       Syscall3, 1,
                       [CastUsize("fd"), CastUsize("buf"), Plain("count")],
                       Isize)
  {
    ThreeArgumentWrapper(ReadDecl);
  }

  /**
   * `read` becomes `read(fd: i32, buf: *mut u8, count: usize) -> isize`,
   * calling `syscall3(1, fd as usize, buf as usize, count) as isize`.
   */
  lemma ReadWrapper()
    ensures WrapSyscall(ReadTokens)
            == Ok([Wrapper("read",
                           [RustParam("fd", I32), RustParam("buf", MutU8Ptr), RustParam("count", Usize)],
                           Syscall3, 1,
                           [CastUsize("fd"), CastUsize("buf"), Plain("count")],
                           Isize)])
  {
    ReadPrintable();
    ReadPrinted();
    SingleDeclaration(ReadDecl);
    ReadGenerated();
  }

  /**
   * A printed declaration with more than six parameters still parses, and
   * the macro expands it to the compile error alone, with no wrapper.
   */
  lemma TooManyArgumentsEndToEnd(d: SyscallInput)
    requires PrintableDecl(d) && |d.args| > MaxArguments
    ensures WrapSyscall(Joined(DeclTokens, [d])) == Ok([CompileError(TooManyArguments)])
  {
    SingleDeclaration(d);
  }
}
