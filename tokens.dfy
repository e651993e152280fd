/**
 * The token stream a `wrap_syscall!` invocation hands to the signature
 * compiler, reduced to the tokens the compiler distinguishes.
 *
 * Token classification (fixed here, used everywhere): every word arrives
 * already classified. A word the parsing library refuses to read as an
 * identifier (one of `RustKeywords`: `const`, `struct`, `enum`, `fn`,
 * `type`, ...) is a `Keyword`; every other word, `union` and `signed`
 * included, is an `Ident`. `peek(Ident)` and `parse::<Ident>()` accept only
 * `Ident`; `peek(Token![const])` accepts only `Keyword("const")`.
 */
module Tokens {

  datatype Delimiter = Paren | Bracket | Brace

  datatype Token =
    | Ident(text: string)                         // a word usable as an identifier
    | Keyword(text: string)                       // a Rust keyword
    | Punct(ch: char)                             // one punctuation character: '*', ':', ','
    | IntLit(value: nat)                          // an unsuffixed decimal integer literal
    | Group(delim: Delimiter, inner: seq<Token>)  // a delimited token tree

  /** The words that arrive as `Keyword`: Rust's strict and reserved keywords, and `_`. */
  const RustKeywords: set<string> := {
    "_", "abstract", "as", "async", "await", "become", "box", "break",
    "const", "continue", "crate", "do", "dyn", "else", "enum", "extern",
    "false", "final", "fn", "for", "if", "impl", "in", "let", "loop",
    "macro", "match", "mod", "move", "mut", "override", "priv", "pub",
    "ref", "return", "Self", "self", "static", "struct", "super", "trait",
    "true", "try", "type", "typeof", "unsafe", "unsized", "use", "virtual",
    "where", "while", "yield"
  }

  /** A token sequence as the lexer delivers it: every word classified by `RustKeywords`. */
  ghost predicate WellClassified(toks: seq<Token>) {
    forall t :: t in toks ==>
      (t.Ident? ==> t.text !in RustKeywords) && (t.Keyword? ==> t.text in RustKeywords)
  }

  /** `peek(Ident)` at `pos`: never consumes anything. */
  predicate PeekIdent(toks: seq<Token>, pos: nat) {
    pos < |toks| && toks[pos].Ident?
  }

  /** `peek(Token![c])` for a one-character punctuation token. */
  predicate PeekPunct(toks: seq<Token>, pos: nat, c: char) {
    pos < |toks| && toks[pos] == Punct(c)
  }

  /** `peek(Token![kw])` for a keyword token such as `const`. */
  predicate PeekKeyword(toks: seq<Token>, pos: nat, kw: string) {
    pos < |toks| && toks[pos] == Keyword(kw)
  }

  /** What a failing `parse` expected to find. */
  datatype Expectation = Identifier | IntegerLiteral | Colon | Comma | Parenthesized

  /**
   * Parse failures. Positions index the token sequence being parsed (the
   * top-level stream, or the inside of a parenthesised argument list);
   * `|toks|` stands for "unexpected end of input".
   */
  datatype ParseError =
    | ExpectedTypeSpecifier             // reported at the call site, with no token
    | Expected(what: Expectation, at: nat)
    | NumberTooLarge(at: nat)           // the syscall number does not fit in a u32

  datatype Result<T> = Ok(value: T) | Err(error: ParseError)
}
