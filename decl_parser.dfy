/**
 * The declaration parsers: `CParameter::parse`, `SyscallInput::parse` and
 * `SyscallInputs::parse`, over the type parser. A declaration reads
 * `N : <type> name ( <type> name, ... )`; declarations, and the
 * parameters inside the parentheses, are lists in the sense of the
 * `Punctuated` module.
 */
module DeclParser {
  import opened Tokens
  import opened CTypes
  import opened TypeParser
  import opened Punctuated

  datatype CParameter = CParameter(cType: CType, name: string)

  datatype SyscallInput = SyscallInput(number: nat, returnType: CType, name: string, args: seq<CParameter>)

  /** Syscall numbers are read as `u32`. */
  const U32Limit: nat := 0x1_0000_0000

  /** `input.parse::<Ident>()`. */
  function ParseIdent(toks: seq<Token>, pos: nat): Result<(string, nat)> {
    if PeekIdent(toks, pos) then Ok((toks[pos].text, pos + 1)) else Err(Expected(Identifier, pos))
  }

  /** `CParameter::parse`: a C type, then the parameter name. */
  function ParseParameter(toks: seq<Token>, pos: nat): (r: Result<(CParameter, nat)>)
    requires pos <= |toks|
    ensures r.Ok? ==> pos < r.value.1 <= |toks|
  {
    match ParseCType(toks, pos)
    case Err(e) => Err(e)
    case Ok((t, afterType)) =>
      match ParseIdent(toks, afterType)
      case Err(e) => Err(e)
      case Ok((name, end)) => Ok((CParameter(t, name), end))
  }

  /**
   * `SyscallInput::parse`: an integer literal, `:`, the return type, the
   * name and a parenthesised list of parameters read by `parse_terminated`.
   * The number is range-checked as a `u32` last, once everything else has
   * parsed.
   */
  function ParseSyscallInput(toks: seq<Token>, pos: nat): (r: Result<(SyscallInput, nat)>)
    requires pos <= |toks|
    ensures r.Ok? ==> pos < r.value.1 <= |toks| && r.value.0.number < U32Limit
  {
    if !(pos < |toks| && toks[pos].IntLit?) then Err(Expected(IntegerLiteral, pos))
    else if !PeekPunct(toks, pos + 1, ':') then Err(Expected(Colon, pos + 1))
    else
      match ParseCType(toks, pos + 2)
      case Err(e) => Err(e)
      case Ok((returnType, afterType)) =>
        match ParseIdent(toks, afterType)
        case Err(e) => Err(e)
        case Ok((name, afterName)) =>
          if !(afterName < |toks| && toks[afterName].Group? && toks[afterName].delim == Paren) then
            Err(Expected(Parenthesized, afterName))
          else
            match ParseTerminated(ParseParameter, toks[afterName].inner, 0, [])
            case Err(e) => Err(e)
            case Ok(args) =>
              var number := toks[pos].value;
              if number < U32Limit then Ok((SyscallInput(number, returnType, name, args), afterName + 1))
              else Err(NumberTooLarge(pos))
  }

  /** `SyscallInputs::parse`: the whole macro input, declarations read by `parse_terminated`. */
  function ParseSyscallInputs(toks: seq<Token>): Result<seq<SyscallInput>> {
    ParseTerminated(ParseSyscallInput, toks, 0, [])
  }
}
