/**
 * What the declaration parsers guarantee: declarations printed in the
 * source syntax parse back to themselves, in order and with any number of
 * parameters, and the malformed shapes fail with the expected error.
 */
module DeclParserFacts {
  import opened Tokens
  import opened CTypes
  import opened TypeParser
  import opened TypeParserFacts
  import opened Punctuated
  import opened DeclParser

  /**
   * A parameter the printer can write: a printable base, and a name that
   * is no type keyword and is not taken as the tag of a type ending in
   * `union`.
   */
  predicate PrintableParam(p: CParameter) {
    PrintableBase(BaseOf(p.cType)) && FollowsType(p.cType, p.name)
  }

  predicate PrintableDecl(d: SyscallInput) {
    d.number < U32Limit && PrintableBase(BaseOf(d.returnType)) && FollowsType(d.returnType, d.name)
    && forall i :: 0 <= i < |d.args| ==> PrintableParam(d.args[i])
  }

  /** `<type> name` */
  function ParamTokens(p: CParameter): seq<Token> {
    CTypeTokens(p.cType) + [Ident(p.name)]
  }

  /** `N : <type> name ( <params> )` */
  function DeclTokens(d: SyscallInput): seq<Token> {
    [IntLit(d.number), Punct(':')] + CTypeTokens(d.returnType)
    + [Ident(d.name), Group(Paren, Joined(ParamTokens, d.args))]
  }

  /** `CParameter::parse` once its type and name have been read. */
  lemma ParameterStep(toks: seq<Token>, pos: nat, t: CType, afterType: nat, name: string)
    requires pos <= |toks| && ParseCType(toks, pos) == Ok((t, afterType))
    requires afterType < |toks| && toks[afterType] == Ident(name)
    ensures ParseParameter(toks, pos) == Ok((CParameter(t, name), afterType + 1))
  {
  }

  /** The type and the name of a printed parameter, read off where it sits. */
  lemma ParamParts(toks: seq<Token>, pos: nat, p: CParameter)
    requires PrintableParam(p)
    requires pos + |ParamTokens(p)| <= |toks| && forall k :: 0 <= k < |ParamTokens(p)| ==> toks[pos + k] == ParamTokens(p)[k]
    ensures |ParamTokens(p)| == |CTypeTokens(p.cType)| + 1
    ensures forall k :: 0 <= k < |CTypeTokens(p.cType)| ==> toks[pos + k] == CTypeTokens(p.cType)[k]
    ensures toks[pos + |CTypeTokens(p.cType)|] == Ident(p.name)
  {
    var ct := CTypeTokens(p.cType);
    assert ParamTokens(p) == ct + [Ident(p.name)];
    SplitAt(toks, pos, ct, [Ident(p.name)]);
    assert toks[pos + |ct| + 0] == [Ident(p.name)][0];
  }

  /** A printed parameter parses back where it sits. */
  lemma ParamAt(toks: seq<Token>, pos: nat, p: CParameter)
    requires PrintableParam(p)
    requires pos + |ParamTokens(p)| <= |toks| && forall k :: 0 <= k < |ParamTokens(p)| ==> toks[pos + k] == ParamTokens(p)[k]
    ensures ParseParameter(toks, pos) == Ok((p, pos + |ParamTokens(p)|))
  {
    ParamParts(toks, pos, p);
    CTypeRoundTrip(toks, pos, p.cType);
    ParameterStep(toks, pos, p.cType, pos + |CTypeTokens(p.cType)|, p.name);
  }

  /** A printed parameter on its own parses back to itself. */
  lemma ParamReadsItself(p: CParameter)
    requires PrintableParam(p)
    ensures ParseParameter(ParamTokens(p), 0) == Ok((p, |ParamTokens(p)|))
  {
    var toks := ParamTokens(p);
    assert forall k :: 0 <= k < |toks| ==> toks[0 + k] == toks[k];
    ParamAt(toks, 0, p);
  }

  /** `CParameter::parse` reads back every printable parameter, wherever it is printed. */
  lemma ParamsReadBack(toks: seq<Token>, ps: seq<CParameter>)
    requires forall i :: 0 <= i < |ps| ==> PrintableParam(ps[i])
    ensures ReadsBack(ParseParameter, ParamTokens, toks, ps)
  {
    forall i: int, p: nat | 0 <= i < |ps|
      ensures ReadsAt(ParseParameter, ParamTokens, toks, ps[i], p)
    {
      var n := |ParamTokens(ps[i])|;
      if p + n <= |toks| && forall k :: 0 <= k < n ==> toks[p + k] == ParamTokens(ps[i])[k] {
        ParamAt(toks, p, ps[i]);
      }
    }
  }

  /** Parameters printed as the inside of the parentheses parse back, in order and however many. */
  lemma ParamListRoundTrip(ps: seq<CParameter>)
    requires forall i :: 0 <= i < |ps| ==> PrintableParam(ps[i])
    ensures ParseTerminated(ParseParameter, Joined(ParamTokens, ps), 0, []) == Ok(ps)
  {
    var toks := Joined(ParamTokens, ps);
    ParamsReadBack(toks, ps);
    assert toks[0..] == toks;
    TerminatedRoundTrip(ParseParameter, ParamTokens, toks, 0, ps, []);
    assert [] + ps == ps;
  }

  /**
   * The parts `SyscallInput::parse` reads, found at `pos`: the number, the
   * `:`, a return type ending at `afterType`, the name, and a parenthesised
   * group whose parameter list parses to `d.args`.
   */
  ghost predicate DeclPartsAt(toks: seq<Token>, pos: nat, d: SyscallInput, afterType: nat) {
    pos + 2 <= |toks| && toks[pos] == IntLit(d.number) && toks[pos + 1] == Punct(':')
    && ParseCType(toks, pos + 2) == Ok((d.returnType, afterType))
    && afterType + 1 < |toks| && toks[afterType] == Ident(d.name)
    && toks[afterType + 1].Group? && toks[afterType + 1].delim == Paren
    && ParseTerminated(ParseParameter, toks[afterType + 1].inner, 0, []) == Ok(d.args)
  }

  /** `SyscallInput::parse` once each of its parts has been read. */
  lemma DeclStep(toks: seq<Token>, pos: nat, d: SyscallInput, afterType: nat)
    requires DeclPartsAt(toks, pos, d, afterType) && d.number < U32Limit
    ensures ParseSyscallInput(toks, pos) == Ok((d, afterType + 2))
  {
  }

  /** The parts of a printed declaration, read off where it sits. */
  lemma DeclHead(toks: seq<Token>, pos: nat, d: SyscallInput)
    requires pos + |DeclTokens(d)| <= |toks| && forall k :: 0 <= k < |DeclTokens(d)| ==> toks[pos + k] == DeclTokens(d)[k]
    ensures |DeclTokens(d)| == |CTypeTokens(d.returnType)| + 4
    ensures toks[pos] == IntLit(d.number) && toks[pos + 1] == Punct(':')
    ensures forall k :: 0 <= k < |CTypeTokens(d.returnType)| ==> toks[pos + 2 + k] == CTypeTokens(d.returnType)[k]
    ensures toks[pos + 2 + |CTypeTokens(d.returnType)|] == Ident(d.name)
  {
    var front := [IntLit(d.number), Punct(':')];
    var ct := CTypeTokens(d.returnType);
    var back := [Ident(d.name), Group(Paren, Joined(ParamTokens, d.args))];
    assert DeclTokens(d) == front + ct + back;
    SplitAt(toks, pos, front + ct, back);
    SplitAt(toks, pos, front, ct);
    assert toks[pos + 0] == front[0] && toks[pos + 1] == front[1];
    assert toks[pos + |front + ct| + 0] == back[0];
  }

  /** The parenthesised group that ends a printed declaration. */
  lemma DeclGroup(toks: seq<Token>, pos: nat, d: SyscallInput)
    requires pos + |DeclTokens(d)| <= |toks| && forall k :: 0 <= k < |DeclTokens(d)| ==> toks[pos + k] == DeclTokens(d)[k]
    ensures |DeclTokens(d)| == |CTypeTokens(d.returnType)| + 4
    ensures toks[pos + 2 + |CTypeTokens(d.returnType)| + 1] == Group(Paren, Joined(ParamTokens, d.args))
  {
    var front := [IntLit(d.number), Punct(':')];
    var ct := CTypeTokens(d.returnType);
    var back := [Ident(d.name), Group(Paren, Joined(ParamTokens, d.args))];
    assert DeclTokens(d) == front + ct + back;
    SplitAt(toks, pos, front + ct, back);
    assert toks[pos + |front + ct| + 1] == back[1];
  }

  /** The return type of a printed declaration reads back where it sits. */
  lemma DeclReturnType(toks: seq<Token>, pos: nat, d: SyscallInput)
    requires PrintableBase(BaseOf(d.returnType)) && FollowsType(d.returnType, d.name)
    requires pos + |DeclTokens(d)| <= |toks| && forall k :: 0 <= k < |DeclTokens(d)| ==> toks[pos + k] == DeclTokens(d)[k]
    ensures ParseCType(toks, pos + 2) == Ok((d.returnType, pos + 2 + |CTypeTokens(d.returnType)|))
  {
    DeclHead(toks, pos, d);
    TypeBeforeName(toks, pos + 2, d.returnType, d.name);
  }

  /** A printed type followed by a name it may precede reads back as itself. */
  lemma TypeBeforeName(toks: seq<Token>, start: nat, t: CType, name: string)
    requires PrintableBase(BaseOf(t)) && FollowsType(t, name)
    requires start + |CTypeTokens(t)| < |toks| && toks[start + |CTypeTokens(t)|] == Ident(name)
    requires forall k :: 0 <= k < |CTypeTokens(t)| ==> toks[start + k] == CTypeTokens(t)[k]
    ensures ParseCType(toks, start) == Ok((t, start + |CTypeTokens(t)|))
  {
    assert EndsType(toks, start + |CTypeTokens(t)|, t);
    CTypeRoundTrip(toks, start, t);
  }

  /** The parameters of a printed declaration read back from its group. */
  lemma DeclParams(toks: seq<Token>, pos: nat, d: SyscallInput)
    requires PrintableDecl(d)
    requires pos + |DeclTokens(d)| <= |toks| && forall k :: 0 <= k < |DeclTokens(d)| ==> toks[pos + k] == DeclTokens(d)[k]
    ensures pos + 3 + |CTypeTokens(d.returnType)| < |toks|
    ensures toks[pos + 2 + |CTypeTokens(d.returnType)| + 1].Group?
            && toks[pos + 2 + |CTypeTokens(d.returnType)| + 1].delim == Paren
            && ParseTerminated(ParseParameter, toks[pos + 2 + |CTypeTokens(d.returnType)| + 1].inner, 0, []) == Ok(d.args)
  {
    DeclGroup(toks, pos, d);
    ParamListRoundTrip(d.args);
  }

  /** The single tokens of a printed declaration: number, `:` and name. */
  lemma DeclTokensAt(toks: seq<Token>, pos: nat, d: SyscallInput)
    requires pos + |DeclTokens(d)| <= |toks| && forall k :: 0 <= k < |DeclTokens(d)| ==> toks[pos + k] == DeclTokens(d)[k]
    ensures |DeclTokens(d)| == |CTypeTokens(d.returnType)| + 4
    ensures toks[pos] == IntLit(d.number) && toks[pos + 1] == Punct(':')
    ensures toks[pos + 2 + |CTypeTokens(d.returnType)|] == Ident(d.name)
  {
    DeclHead(toks, pos, d);
  }

  /** The parts of a printed declaration, each read back where it sits. */
  lemma DeclParts(toks: seq<Token>, pos: nat, d: SyscallInput)
    requires PrintableDecl(d)
    requires pos + |DeclTokens(d)| <= |toks| && forall k :: 0 <= k < |DeclTokens(d)| ==> toks[pos + k] == DeclTokens(d)[k]
    ensures |DeclTokens(d)| == |CTypeTokens(d.returnType)| + 4
    ensures DeclPartsAt(toks, pos, d, pos + 2 + |CTypeTokens(d.returnType)|)
  {
    DeclTokensAt(toks, pos, d);
    DeclReturnType(toks, pos, d);
    DeclParams(toks, pos, d);
  }

  /** A printed declaration parses back where it sits. */
  lemma DeclAt(toks: seq<Token>, pos: nat, d: SyscallInput)
    requires PrintableDecl(d)
    requires pos + |DeclTokens(d)| <= |toks| && forall k :: 0 <= k < |DeclTokens(d)| ==> toks[pos + k] == DeclTokens(d)[k]
    ensures ParseSyscallInput(toks, pos) == Ok((d, pos + |DeclTokens(d)|))
  {
    DeclParts(toks, pos, d);
    DeclStep(toks, pos, d, pos + 2 + |CTypeTokens(d.returnType)|);
  }

  /** `SyscallInput::parse` reads back every printable declaration, wherever it is printed. */
  lemma DeclsReadBack(toks: seq<Token>, ds: seq<SyscallInput>)
    requires forall i :: 0 <= i < |ds| ==> PrintableDecl(ds[i])
    ensures ReadsBack(ParseSyscallInput, DeclTokens, toks, ds)
  {
    forall i: int, p: nat | 0 <= i < |ds|
      ensures ReadsAt(ParseSyscallInput, DeclTokens, toks, ds[i], p)
    {
      var n := |DeclTokens(ds[i])|;
      if p + n <= |toks| && forall k :: 0 <= k < n ==> toks[p + k] == DeclTokens(ds[i])[k] {
        DeclAt(toks, p, ds[i]);
      }
    }
  }

  /**
   * Declarations written in the source syntax parse back to the same
   * declarations, in the same order; the parser puts no bound on the number
   * of declarations or of parameters.
   */
  lemma ParseSyscallInputsRoundTrip(ds: seq<SyscallInput>)
    requires forall i :: 0 <= i < |ds| ==> PrintableDecl(ds[i])
    ensures ParseSyscallInputs(Joined(DeclTokens, ds)) == Ok(ds)
  {
    var toks := Joined(DeclTokens, ds);
    DeclsReadBack(toks, ds);
    assert toks[0..] == toks;
    TerminatedRoundTrip(ParseSyscallInput, DeclTokens, toks, 0, ds, []);
    assert [] + ds == ds;
  }

  /** `unsigned char` is not a table spelling: it prints as its two words. */
  lemma UnsignedCharPrintable()
    ensures CanonicalWords(Custom("unsigned char")) == ["unsigned", "char"]
    ensures PrintableBase(Custom("unsigned char"))
  {
    var ws := ["unsigned", "char"];
    assert JoinWords(ws) == "unsigned char";
    assert "unsigned char" !in SpellingTable;
    assert AllRunWords(ws);
    CustomRunPrintable("unsigned char", ws);
  }

  /** `buf` is a parameter name, no type keyword. */
  lemma BufIsName()
    ensures "buf" !in TypeKeywords
  {
  }

  /** A parameter `w0 w1 *name`: a two-word base behind one non-const pointer. */
  lemma TwoWordPointerParam(b: BaseType, w0: string, w1: string, name: string)
    requires CanonicalWords(b) == [w0, w1] && PrintableBase(b) && name !in TypeKeywords
    ensures ParamTokens(CParameter(Pointer(Base(b), false), name)) == [Ident(w0), Ident(w1), Punct('*'), Ident(name)]
    ensures PrintableParam(CParameter(Pointer(Base(b), false), name))
  {
    assert Levels(Pointer(Base(b), false)) == [false] && BaseOf(Pointer(Base(b), false)) == b;
    assert WordTokens([w0, w1]) == [Ident(w0), Ident(w1)];
    assert StarTokens([false]) == [Punct('*')];
    assert CTypeTokens(Pointer(Base(b), false)) == [Ident(w0), Ident(w1)] + [Punct('*')];
  }

  /**
   * `unsigned char *buf`, outside the table, is the pointer to
   * `Custom("unsigned char")`, and printing it gives the same tokens.
   */
  lemma UnsignedCharParam()
    ensures ParseParameter([Ident("unsigned"), Ident("char"), Punct('*'), Ident("buf")], 0)
            == Ok((CParameter(Pointer(Base(Custom("unsigned char")), false), "buf"), 4))
  {
    BufIsName();
    UnsignedCharPrintable();
    TwoWordPointerParam(Custom("unsigned char"), "unsigned", "char", "buf");
    ParamReadsItself(CParameter(Pointer(Base(Custom("unsigned char")), false), "buf"));
  }

  /** A declaration with no `:` after its number fails there. */
  lemma MissingColon()
    ensures ParseSyscallInputs([IntLit(7), Ident("void"), Ident("foo"), Group(Paren, [])])
            == Err(Expected(Colon, 1))
  {
  }

  /** A return type that starts with no type keyword fails as a missing type specifier. */
  lemma UnknownReturnType()
    ensures ParseSyscallInputs([IntLit(7), Punct(':'), Ident("bogustype"), Ident("x"), Group(Paren, [])])
            == Err(ExpectedTypeSpecifier)
  {
    var toks := [IntLit(7), Punct(':'), Ident("bogustype"), Ident("x"), Group(Paren, [])];
    assert "bogustype" !in TypeKeywords;
    ParseBaseTypeOutcome(toks, 2);
  }

  /** A number beyond `u32` fails, after the rest of the declaration has parsed. */
  lemma NumberBeyondU32()
    ensures ParseSyscallInputs([IntLit(U32Limit), Punct(':'), Ident("void"), Ident("f"), Group(Paren, [])])
            == Err(NumberTooLarge(0))
  {
    var toks := [IntLit(U32Limit), Punct(':'), Ident("void"), Ident("f"), Group(Paren, [])];
    CTypeRoundTrip(toks, 2, Base(Void));
    assert ParseTerminated(ParseParameter, [], 0, []) == Ok([]);
  }

  /**
   * Inside the parentheses, `union foo *p` reads as the parameter `foo` of
   * type `union`, and the `*` stands where a comma should.
   */
  lemma UnionParamNeedsComma()
    ensures ParseTerminated(ParseParameter, [Ident("union"), Ident("foo"), Punct('*'), Ident("p")], 0, [])
            == Err(Expected(Comma, 2))
  {
    var inner := [Ident("union"), Ident("foo"), Punct('*'), Ident("p")];
    UnionTagBeforeStar();
    assert ScanPointerLevels(inner, 1, false, []) == (1, []);
    assert ParseCType(inner, 0) == Ok((Base(Custom("union")), 1));
    assert ParseParameter(inner, 0) == Ok((CParameter(Base(Custom("union")), "foo"), 2));
  }

  /** The same declaration fails as a whole with the parameter list's error. */
  lemma UnionWithOrdinaryTag()
    ensures ParseSyscallInputs([IntLit(1), Punct(':'), Ident("int"), Ident("f"),
                                Group(Paren, [Ident("union"), Ident("foo"), Punct('*'), Ident("p")])])
            == Err(Expected(Comma, 2))
  {
    var inner := [Ident("union"), Ident("foo"), Punct('*'), Ident("p")];
    var toks := [IntLit(1), Punct(':'), Ident("int"), Ident("f"), Group(Paren, inner)];
    CTypeRoundTrip(toks, 2, Base(Int));
    UnionParamNeedsComma();
    assert ParseSyscallInput(toks, 0) == Err(Expected(Comma, 2));
  }
}
