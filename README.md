# syscaller signature compiler, in Dafny

This project models the signature compiler behind the `wrap_syscall!`
procedural macro of the syscaller crates (`syscaller-wrap-macro/src/lib.rs`).
The macro reads declarations such as `1: ssize_t read(int fd, void *buf, size_t count)`
and emits one `unsafe fn` wrapper per declaration. Each wrapper marshals its
arguments into machine words and calls the `syscallN` primitive of matching
arity. The model has four parts, each with the properties the compiler
promises:

- **Type-grammar parser** (`TypeParser`, `TypeParserFacts`).
  - `parse_base_type` collects type keywords and an optional tag, then
    resolves the joined words against a fixed table. `looks_like_param_name`
    decides whether a word after `struct`/`union`/`enum` is a tag.
    `CType::parse` reads a leading `const`, the base type and the
    `*`/`*const` levels, and builds the pointer chain.
  - Both loops are methods (`ParseBaseTypeLoop`, `ParseCTypeLoop`) proved
    equal to the functions `ParseBaseType` and `ParseCType`. Everything else
    uses those functions.
  - The lemmas cover where `parse_base_type` stops, when it fails, how the
    `*` loop assigns const flags to levels, and that a printed type parses
    back to itself.
- **Declaration parsers** (`Punctuated`, `DeclParser`, `DeclParserFacts`).
  - These model `CParameter::parse`, `SyscallInput::parse` and
    `SyscallInputs::parse`.
  - `Punctuated::parse_terminated` is one generic function with a generic
    round-trip lemma. Both the parameter list and the declaration list
    instantiate it.
  - The lemmas show that printed declarations parse back to the same
    declarations, in order. A type prints when its base is a kind of the
    table or a `Custom` run of type keywords, and every base the parser
    produces prints, except one whose words hold the tag `signed`.
    Examples cover the error paths.
- **Type mapper** (`TypeMapper`).
  - This models `to_rust_type` and `to_syscall_arg` on `BaseType` and
    `CType`.
  - The mapping preserves C integer width and signedness (LP64), and maps
    `size_t`/`ssize_t` exactly to the pointer-sized `usize`/`isize`. Every
    argument expression has type `usize` at the parameter's Rust type,
    except for plain `void`.
- **Wrapper generator** (`Generator`, `GeneratorFacts`).
  - This models `generate_syscall_wrapper` (arity dispatch, typed
    parameters, marshalled arguments, return type) and `wrap_syscall` (one
    item per declaration, in order).
  - The lemmas cover the whole macro, from tokens to emitted items,
    including the `read` example and the seven-parameter compile error.
  - The parser accepts a declaration with any number of parameters. Only
    the arity `match` of the generator refuses more than six, with a
    `compile_error!` in place of the wrapper
    (`GeneratorFacts.TooManyArgumentsEndToEnd`).

Tokens arrive already classified, as `tokens.dfy` states: a word that Rust
reserves (`const`, `struct`, `enum`, ...) is a `Keyword`. Every other word
is an `Ident`, including `union` and `signed`. `peek(Ident)` matches only
`Ident`. This is the parsing library's behaviour, and the model follows it.

### Where the code does not do what it evidently intends

The model follows the code as written:

- **`struct foo *p` does not parse.** The comment on `BaseType::Custom`
  (`lib.rs:86`) names `struct foo` as a custom type, and `parse_base_type`
  lists `struct` and `enum` among its type keywords (`lib.rs:143-145`). But
  the loop only looks at words that `input.peek(Ident)` accepts
  (`lib.rs:127`), and the parsing library refuses Rust keywords such as
  `struct` and `enum` as identifiers. The type fails with "Expected type
  specifier" (`TypeParserFacts.StructPointerRejected`,
  `TypeParserFacts.StructOrEnumRejected`).
- **An ordinary tag is never taken.** After `struct`/`union`/`enum`, the
  next word joins the type only when no `*` follows it and
  `looks_like_param_name` rejects it (`lib.rs:149-153`). That function
  rejects only its own list of type words (`lib.rs:188-202`), so a tag such
  as `foo`, which a C reader takes as the name of the union, is never part
  of the type. `union foo *p` reads `foo` as the parameter name and then
  fails at the `*` (`DeclParserFacts.UnionParamNeedsComma`).
- **Two table spellings are unreachable.** "signed int" and "signed long"
  (`lib.rs:165-167`) can never be looked up, because `signed` is not a type
  keyword (`TypeParserFacts.SignedSpellingsUnreachable`).
- **Keyword runs outside the table become `Custom`.** Any run of type
  keywords missing from the table, such as `unsigned char`, resolves to
  `Custom` (`lib.rs:176`). It then maps to `usize`, and behind a pointer to
  `*mut u8`, not to a byte buffer (`DeclParserFacts.UnsignedCharParam`,
  `TypeMapper.CTypeToRustType`).

## Model

| member | source | states |
|---|---|---|
| CTypes.WrapPointersLevels | syscaller-wrap-macro/src/lib.rs:281-286 | Wrapping a type in pointer levels adds exactly those levels, first level innermost, in order, and keeps the base type. |
| CTypes.WrapPointersOfLevels | syscaller-wrap-macro/src/lib.rs:60-64 | Every C type is its base type wrapped in its own levels: the chain view and the level-list view are inverse. |
| TypeParser.ResolveBaseTypeTable | syscaller-wrap-macro/src/lib.rs:162-181 | Resolution fails, with "Expected type specifier", exactly on the empty string. Exactly the non-empty strings outside the table become `Custom`, keeping the string. A table spelling resolves to the kind the table gives it. |
| TypeParser.ScanWords | syscaller-wrap-macro/src/lib.rs:127-161 | The word loop never moves backwards and stays within the input. It consumes exactly one token per word collected. |
| TypeParser.ParseBaseTypeLoop | syscaller-wrap-macro/src/lib.rs:123-182 | The cursor loop that fills `type_words`, then the table lookup, returns exactly what `ParseBaseType` specifies. |
| TypeParser.ParseCTypeLoop | syscaller-wrap-macro/src/lib.rs:251-290 | The leading-`const` check, the `*` loop and the wrapping `for` loop together return exactly what `ParseCType` specifies. |
| TypeParserFacts.BaseTypeWords | syscaller-wrap-macro/src/lib.rs:127-161 | `parse_base_type` consumes only identifier words, one token each, in order, and never a `*`. Each word is a type keyword, or a tag that follows `struct`/`union`/`enum`, is one of `looks_like_param_name`'s words and has no `*` after it. It stops at the first identifier that is not a type keyword, without consuming it. |
| TypeParserFacts.ConsumedWordsClassified | syscaller-wrap-macro/src/lib.rs:127-156 | On a classified token stream, every word consumed is one of `char short int long void size_t ssize_t unsigned union signed`. `struct`, `enum` and `const` never are. |
| TypeParserFacts.ParseBaseTypeOutcome | syscaller-wrap-macro/src/lib.rs:123-182 | `parse_base_type` fails exactly when no type keyword starts the input, and then with "Expected type specifier". Otherwise it consumes at least one token, and the result is the table's kind for the joined words or `Custom` of the joined words. |
| TypeParserFacts.JoinWordsEmpty | syscaller-wrap-macro/src/lib.rs:162 | Joining non-empty words with spaces gives the empty string exactly when there are no words. |
| TypeParserFacts.SignedSpellingsUnreachable | syscaller-wrap-macro/src/lib.rs:165-167 | The joined words are never "signed int" or "signed long", so those two table entries are never looked up. |
| TypeParserFacts.StructOrEnumRejected | syscaller-wrap-macro/src/lib.rs:127-147 | A type that starts with the keyword `struct` or `enum` fails with "Expected type specifier", both in `parse_base_type` and in `CType::parse`. |
| TypeParserFacts.StructPointerRejected | syscaller-wrap-macro/src/lib.rs:143 | `struct foo *p` fails with "Expected type specifier". |
| TypeParserFacts.UnionTakesKeywordTag | syscaller-wrap-macro/src/lib.rs:149-156 | After `union`, a word from `looks_like_param_name`'s list with no `*` after it is taken as the tag: `union signed x` gives `Custom("union signed")` and stops before `x`. |
| TypeParserFacts.UnionTagBeforeStar | syscaller-wrap-macro/src/lib.rs:151 | After `union`, a word followed by `*` is not a tag: `union foo *p` gives `Custom("union")` and stops at `foo`. |
| TypeParserFacts.UnionOrdinaryTag | syscaller-wrap-macro/src/lib.rs:184-207 | After `union`, a word that looks like a parameter name is not a tag: `union foo bar` gives `Custom("union")` and stops at `foo`. |
| TypeParserFacts.ScanPointerLevelsExact | syscaller-wrap-macro/src/lib.rs:267-280 | The `*` loop consumes exactly the written stars and their `const`s, and stops where no `*` follows. It appends one flag per star: that star's own `const`, or-ed with the pending leading `const` for the first star only. |
| TypeParserFacts.ScanPointerLevelsShape | syscaller-wrap-macro/src/lib.rs:267-280 | From the start of the loop: the consumed tokens are a pointer suffix, and level i is const exactly when a `const` follows the i-th `*`, or when i is 0 and a leading `const` was read. |
| TypeParserFacts.ParseCTypeShape | syscaller-wrap-macro/src/lib.rs:251-290 | A parsed type has the base that `parse_base_type` read, and nothing after it starts with `*`. It has one pointer node per `*`, the first `*` innermost. Level i is const exactly when a `const` follows the i-th `*`, or when i is 0 and the type began with `const`. With no `*` the result is the plain base type, and a leading `const` is dropped. |
| TypeParserFacts.CanonicalResolves | syscaller-wrap-macro/src/lib.rs:163-175 | The canonical words of every kind in the table, joined with spaces, resolve back to that kind. |
| TypeParserFacts.StarsRoundTrip | syscaller-wrap-macro/src/lib.rs:267-280 | Printed pointer levels, followed by a token that stops the loop, are read back as exactly those const flags, consuming exactly the printed tokens. |
| TypeParserFacts.ScanWordsKeywords | syscaller-wrap-macro/src/lib.rs:127-161 | A run of type keywords, followed by a token that neither continues it nor is taken as a tag, is collected exactly, word for word, whichever of its words the loop takes as tags. |
| TypeParserFacts.CustomRunPrintable | syscaller-wrap-macro/src/lib.rs:162-177 | A run of type keywords other than `struct`/`enum` whose joined spelling is not in the table names a `Custom` that is printed as exactly that run. |
| TypeParserFacts.BaseTypeRoundTrip | syscaller-wrap-macro/src/lib.rs:123-182 | The words of a printable base, followed by a token that neither continues them nor is taken as a tag, parse back to that base and consume exactly those words. A base is printable when it is a kind of the table (canonical spelling) or a `Custom` run of type keywords outside the table. |
| TypeParserFacts.CTypeRoundTrip | syscaller-wrap-macro/src/lib.rs:251-290 | A printed C type with a printable base parses back to the same type, wherever it stands, and consumes exactly its printed tokens. It must be followed by the end or by a name that is no type keyword and, after a type ending in `union`, is not one of `looks_like_param_name`'s words. |
| TypeParserFacts.ParsedBasePrintable | syscaller-wrap-macro/src/lib.rs:123-182 | On a classified token stream, every base `parse_base_type` returns is printable unless its words hold the tag `signed`. A `Custom` one is printed as exactly the words that were read. So the round trips cover every such parse result. |
| TypeMapper.BaseToRustType | syscaller-wrap-macro/src/lib.rs:92-112 | Each integer kind maps to the Rust integer of the same width, signedness and pointer-sizedness; no two Rust integers share those, so `size_t` is `usize`, `ssize_t` is `isize`, and `long`/`long long` are the fixed-width `i64`. `()` is exactly the mapping of `void`. A custom type maps to `usize`. |
| TypeMapper.BaseToSyscallArg | syscaller-wrap-macro/src/lib.rs:114-120 | The argument names the parameter. It is passed unchanged exactly for `size_t`, and is otherwise `name as usize`. |
| TypeMapper.CTypeToRustType | syscaller-wrap-macro/src/lib.rs:215-230 | `impl AsRef<[u8]>` exactly for a pointer whose direct target is `char`, whatever its const flag. `*const u8` exactly for the other const pointers, `*mut u8` exactly for the other non-const pointers. A base type maps by its kind. |
| TypeMapper.CTypeToSyscallArg | syscaller-wrap-macro/src/lib.rs:237-248 | The argument names the parameter. It takes the address of the byte view exactly for a direct `char` pointer, is passed unchanged exactly for plain `size_t`, and is otherwise `name as usize`. |
| TypeMapper.ArgumentIsMachineWord | syscaller-wrap-macro/src/lib.rs:237-248 | Read at the parameter's mapped Rust type, the argument expression is a `usize` exactly when the C type is not plain `void`. |
| TypeMapper.ReturnCastAccepted | syscaller-wrap-macro/src/lib.rs:363 | Rust accepts the cast of the `isize` that the `syscallN` primitive returns to the mapped return type exactly when the return type is neither plain `void` nor a direct `char` pointer. |
| TypeMapper.ConstNeverChangesArgument | syscaller-wrap-macro/src/lib.rs:218-248 | The pointer const flag never changes the argument expression. It changes the parameter type exactly when the target is not `char`. |
| Punctuated.TerminatedRoundTrip | syscaller-wrap-macro/src/lib.rs:13 | For any element parser that reads back each printed element, `parse_terminated` reads comma-joined printed elements back, however many, in order. |
| DeclParser.ParseParameter | syscaller-wrap-macro/src/lib.rs:297-303 | A parsed parameter consumes at least one token and stays within the input. |
| DeclParser.ParseSyscallInput | syscaller-wrap-macro/src/lib.rs:41-58 | A parsed declaration consumes at least one token, stays within the input, and has a syscall number below 2^32. |
| DeclParserFacts.ParamAt | syscaller-wrap-macro/src/lib.rs:297-303 | A printed parameter with a printable base parses back to itself wherever it stands, consuming exactly its tokens. |
| DeclParserFacts.UnsignedCharParam | syscaller-wrap-macro/src/lib.rs:297-303 | `unsigned char *buf` parses to the parameter `buf` of type pointer to `Custom("unsigned char")`, consuming all four tokens. |
| DeclParserFacts.ParamListRoundTrip | syscaller-wrap-macro/src/lib.rs:49-50 | Printable parameters printed as the inside of the parentheses parse back to the same parameters, in order, however many there are. |
| DeclParserFacts.DeclAt | syscaller-wrap-macro/src/lib.rs:41-58 | A printed declaration whose types have printable bases parses back to itself wherever it stands, consuming exactly its tokens. |
| DeclParserFacts.ParseSyscallInputsRoundTrip | syscaller-wrap-macro/src/lib.rs:11-16 | Declarations whose types have printable bases, printed in the macro's syntax and separated by commas, parse back to the same declarations, in order. Neither the number of declarations nor the number of parameters is bounded. |
| DeclParserFacts.MissingColon | syscaller-wrap-macro/src/lib.rs:44 | `7 void foo()` fails at the missing `:`. |
| DeclParserFacts.UnknownReturnType | syscaller-wrap-macro/src/lib.rs:45 | `7: bogustype x()` fails with "Expected type specifier". |
| DeclParserFacts.NumberBeyondU32 | syscaller-wrap-macro/src/lib.rs:52 | A syscall number of 2^32 fails the `u32` conversion, after the rest of the declaration has parsed. |
| DeclParserFacts.UnionParamNeedsComma | syscaller-wrap-macro/src/lib.rs:49-50 | Inside the parentheses, `union foo *p` reads the parameter `foo` of type `union`, then fails because the `*` stands where a comma should. |
| DeclParserFacts.UnionWithOrdinaryTag | syscaller-wrap-macro/src/lib.rs:41-58 | A declaration whose parameter list holds `union foo *p` fails as a whole, with that list's error. |
| Generator.SelectPrimitive | syscaller-wrap-macro/src/lib.rs:327-340 | A primitive is chosen exactly for 0 to 6 arguments, and its arity equals the argument count. |
| Generator.GenerateSyscallWrapper | syscaller-wrap-macro/src/lib.rs:305-367 | Exactly a declaration with more than six parameters gives the compile error with the fixed message, and no function. Every other declaration gives a wrapper with: the declared name; one typed parameter per declared parameter, in order; the primitive whose arity equals the parameter count; the declared syscall number; one marshalled argument per parameter, in the same order; the mapped return type. |
| Generator.WrapSyscall | syscaller-wrap-macro/src/lib.rs:18-30 | A parse error of the input is the macro's output. Otherwise there is one item per parsed declaration, in order. |
| GeneratorFacts.WrapperWellTyped | syscaller-wrap-macro/src/lib.rs:305-324 | In a wrapper, the i-th argument is built from the i-th parameter. It is a `usize` at that parameter's type unless the parameter is plain `void`. The result cast is accepted unless the return type is plain `void` or a direct `char` pointer. |
| GeneratorFacts.WrapSyscallRoundTrip | syscaller-wrap-macro/src/lib.rs:18-30 | From tokens to output: printed declarations whose types have printable bases expand to one item per declaration, in input order, each the item generated for its declaration. |
| GeneratorFacts.SingleDeclaration | syscaller-wrap-macro/src/lib.rs:18-30 | A single printed declaration whose types have printable bases expands to exactly the one item generated for it. |
| GeneratorFacts.ThreeArgumentWrapper | syscaller-wrap-macro/src/lib.rs:305-367 | A declaration with three parameters becomes a `syscall3` wrapper whose parameters and arguments are those of its parameters, in order. |
| GeneratorFacts.ReadWrapper | syscaller-wrap-macro/src/lib.rs:305-367 | `1: ssize_t read(int fd, void *buf, size_t count)` becomes `read(fd: i32, buf: *mut u8, count: usize) -> isize`, which calls `syscall3(1, fd as usize, buf as usize, count)` and casts the result to `isize`. |
| GeneratorFacts.TooManyArgumentsEndToEnd | syscaller-wrap-macro/src/lib.rs:335-339 | A printed declaration with printable types and more than six parameters still parses, and expands to the compile error alone. |

## Left out

- The `syscaller` crate (`syscall0` to `syscall6`: register placement and the trap instruction) is foreign code. It appears only as the `Primitive` names, with their arities.
- `proc_macro` and `quote!` token-stream construction, spans and `parse_quote!` are not modelled. Neither are the emitted doc comment, `#[inline(always)]` and the `unsafe` block. The output is the abstract `Item` datatype, which holds the name, typed parameters, primitive, syscall number, arguments and return type.
- The parsing library's machinery (`fork`, `peek2`, `parenthesized!`, `Punctuated`, cursors) is modelled only by its observable contract, over a sequence of pre-classified tokens. `WellClassified` is an assumption about the lexer, not something the model checks.
- Integer literal lexing (`LitInt`, suffixes, non-decimal forms) is not modelled. A literal is a `nat`, and `base10_parse::<u32>` is the check against 2^32.
- Error values keep only what a caller can tell apart: the kind of error and the index of the token where it arose. The index counts within the group being parsed. Error message text and spans are not modelled.
- `def.syscall_number as usize` widens a `u32` without loss, so the syscall number stays a `nat`.
- Whether rustc accepts the emitted code is not part of the generator. The lemmas `TypeMapper.ArgumentIsMachineWord` and `TypeMapper.ReturnCastAccepted` only state which casts Rust accepts. For example, a `void` parameter produces `() as usize`, which Rust rejects, and the generator emits it anyway.
- Duplicate parameter names are not rejected, as in the source.
- TypeParserFacts.CTypeRoundTrip: does not cover a `Custom` base whose words hold the tag `signed`, such as `union signed`. On classified tokens `signed` is consumed only as the tag of `union`, and only when no `*` follows it (`lib.rs:151`), so a pointer to such a base has no spelling at all: a pointer to `Custom("union signed")` is never produced. A plain `union signed` base, with no pointer level, does read back (`union signed x` gives `Custom("union signed")`, `TypeParserFacts.UnionTakesKeywordTag`), but the round trip leaves it out too, because its printed words end in a tag rather than a keyword run. `TypeParserFacts.ParsedBasePrintable` shows that this is the only kind of parse result the round trips leave out. A name that `looks_like_param_name` rejects (`signed`) after a type ending in `union` is read as its tag, so that pairing is excluded too.
- TypeParserFacts.BaseTypeRoundTrip: the same `signed`-tag gap as `TypeParserFacts.CTypeRoundTrip`.
- DeclParserFacts.ParamAt: covers parameters with printable bases only; the same `signed`-tag gap as `TypeParserFacts.CTypeRoundTrip`.
- DeclParserFacts.ParamListRoundTrip: the same `signed`-tag gap, through `DeclParserFacts.ParamAt`.
- DeclParserFacts.DeclAt: the same `signed`-tag gap, for the return type and each parameter.
- DeclParserFacts.ParseSyscallInputsRoundTrip: the same `signed`-tag gap, through `DeclParserFacts.DeclAt`.
- GeneratorFacts.WrapSyscallRoundTrip: the same `signed`-tag gap, through `DeclParserFacts.ParseSyscallInputsRoundTrip`.
- GeneratorFacts.SingleDeclaration: the same `signed`-tag gap, through `DeclParserFacts.ParseSyscallInputsRoundTrip`.
- GeneratorFacts.TooManyArgumentsEndToEnd: the same `signed`-tag gap, through `GeneratorFacts.SingleDeclaration`.
