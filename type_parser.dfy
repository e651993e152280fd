/**
 * The type-grammar parser: `parse_base_type`, `looks_like_param_name` and
 * `CType::parse`. Each is given as a specification function that the rest
 * of the model and the lemmas use, and the two loops of the source are
 * methods proved to compute exactly those functions.
 */
module TypeParser {
  import opened Tokens
  import opened CTypes

  /** The words `parse_base_type` consumes as part of a type. */
  const TypeKeywords: set<string> := {
    "char", "short", "int", "long", "void", "size_t", "ssize_t", "unsigned",
    "struct", "union", "enum"
  }

  /** The keywords after which one more identifier may be taken as a tag. */
  const TagIntroducers: set<string> := {"struct", "union", "enum"}

  /** The words `looks_like_param_name` says are not parameter names. */
  const NonParamWords: set<string> := {
    "const", "char", "int", "unsigned", "signed", "long", "short", "void",
    "size_t", "ssize_t", "struct", "union", "enum"
  }

  /**
   * `looks_like_param_name`: a forked read of an identifier at `pos`; true
   * when there is none, otherwise true unless the word is in `NonParamWords`.
   */
  predicate LooksLikeParamName(toks: seq<Token>, pos: nat) {
    if PeekIdent(toks, pos) then toks[pos].text !in NonParamWords else true
  }

  /** After consuming `word`, whether the identifier at `pos` is taken as its tag. */
  predicate TakesTag(toks: seq<Token>, pos: nat, word: string) {
    word in TagIntroducers && PeekIdent(toks, pos) && !PeekPunct(toks, pos + 1, '*')
    && !LooksLikeParamName(toks, pos)
  }

  /**
   * The word-collecting loop of `parse_base_type`, with the words gathered
   * so far in `words`: the cursor where it stops and all words collected.
   */
  function ScanWords(toks: seq<Token>, pos: nat, words: seq<string>): (r: (nat, seq<string>))
    requires pos <= |toks|
    ensures pos <= r.0 <= |toks|
    ensures |r.1| - |words| == r.0 - pos
    decreases |toks| - pos
  {
    if PeekIdent(toks, pos) && toks[pos].text in TypeKeywords then
      var word := toks[pos].text;
      if TakesTag(toks, pos + 1, word) then
        ScanWords(toks, pos + 2, words + [word, toks[pos + 1].text])
      else
        ScanWords(toks, pos + 1, words + [word])
    else
      (pos, words)
  }

  /** `type_words.join(" ")`. */
  function JoinWords(words: seq<string>): string {
    if words == [] then ""
    else if |words| == 1 then words[0]
    else words[0] + " " + JoinWords(words[1..])
  }

  /**
   * The resolution table at the end of `parse_base_type`: each spelling and
   * the kind it names. The longer and alternative spellings are listed
   * first, the shortest spelling of each kind last.
   */
  const SpellingTable: map<string, BaseType> := map[
    "signed int" := Int,
    "unsigned" := UnsignedInt,
    "long int" := Long, "signed long" := Long,
    "unsigned long int" := UnsignedLong,
    "long long int" := LongLong,
    "unsigned long long int" := UnsignedLongLong,
    "short int" := Short,
    "unsigned short int" := UnsignedShort,
    "char" := Char,
    "int" := Int,
    "unsigned int" := UnsignedInt,
    "long" := Long,
    "unsigned long" := UnsignedLong,
    "long long" := LongLong,
    "unsigned long long" := UnsignedLongLong,
    "short" := Short,
    "unsigned short" := UnsignedShort,
    "void" := Void,
    "size_t" := SizeT,
    "ssize_t" := SSizeT
  ]

  /**
   * The lookup in the resolution table: a table spelling gives its kind,
   * any other non-empty string is `Custom`, and the empty string is the
   * "Expected type specifier" error.
   */
  function ResolveBaseType(typeStr: string): Result<BaseType> {
    if typeStr in SpellingTable then Ok(SpellingTable[typeStr])
    else if typeStr != "" then Ok(Custom(typeStr))
    else Err(ExpectedTypeSpecifier)
  }

  /** The table names only kinds of its own: none of its entries is `Custom`. */
  lemma TableHasNoCustom(typeStr: string)
    requires typeStr in SpellingTable
    ensures !SpellingTable[typeStr].Custom?
  {
  }

  /**
   * Resolution fails, with "Expected type specifier", exactly on the empty
   * string, and is total on the others: exactly the strings outside the
   * table become `Custom` (keeping the string as their name), and a table
   * spelling resolves to the kind the table gives it.
   */
  lemma ResolveBaseTypeTable(typeStr: string)
    ensures var r := ResolveBaseType(typeStr);
            (r.Err? <==> typeStr == "") && (r.Err? ==> r.error == ExpectedTypeSpecifier)
            && (r.Ok? && r.value.Custom? <==> typeStr != "" && typeStr !in SpellingTable)
            && (r.Ok? && r.value.Custom? ==> r.value.name == typeStr)
            && (r.Ok? && !r.value.Custom? ==> typeStr in SpellingTable && SpellingTable[typeStr] == r.value)
  {
    if typeStr in SpellingTable {
      TableHasNoCustom(typeStr);
    }
  }

  /** `parse_base_type`: the base kind and the cursor after the last word taken. */
  function ParseBaseType(toks: seq<Token>, pos: nat): (r: Result<(BaseType, nat)>)
    requires pos <= |toks|
    ensures r.Ok? ==> pos <= r.value.1 <= |toks|
  {
    var (end, words) := ScanWords(toks, pos, []);
    match ResolveBaseType(JoinWords(words))
    case Ok(b) => Ok((b, end))
    case Err(e) => Err(e)
  }

  /**
   * The `*` loop of `CType::parse`: each star, with the `const` that may
   * follow it, adds one level; the pending leading `const` joins the first
   * level only.
   */
  function ScanPointerLevels(toks: seq<Token>, pos: nat, pendingConst: bool, levels: seq<bool>)
    : (r: (nat, seq<bool>))
    requires pos <= |toks|
    ensures pos <= r.0 <= |toks|
    decreases |toks| - pos
  {
    if PeekPunct(toks, pos, '*') then
      var ptrConst := PeekKeyword(toks, pos + 1, "const");
      var next := if ptrConst then pos + 2 else pos + 1;
      ScanPointerLevels(toks, next, false, levels + [ptrConst || pendingConst])
    else
      (pos, levels)
  }

  /** `CType::parse`: one C type and the cursor just after it. */
  function ParseCType(toks: seq<Token>, pos: nat): (r: Result<(CType, nat)>)
    requires pos <= |toks|
    ensures r.Ok? ==> pos <= r.value.1 <= |toks|
  {
    var leadingConst := PeekKeyword(toks, pos, "const");
    var start := if leadingConst then pos + 1 else pos;
    match ParseBaseType(toks, start)
    case Err(e) => Err(e)
    case Ok((b, afterBase)) =>
      var (end, levels) := ScanPointerLevels(toks, afterBase, leadingConst, []);
      Ok((WrapPointers(Base(b), levels), end))
  }

  /** `parse_base_type` as the source writes it: a cursor loop filling `typeWords`. */
  method ParseBaseTypeLoop(toks: seq<Token>, pos: nat) returns (r: Result<(BaseType, nat)>)
    requires pos <= |toks|
    ensures r == ParseBaseType(toks, pos)
  {
    var typeWords: seq<string> := [];
    var cursor := pos;
    while PeekIdent(toks, cursor)
      invariant pos <= cursor <= |toks|
      invariant ScanWords(toks, cursor, typeWords) == ScanWords(toks, pos, [])
      decreases |toks| - cursor
    {
      var word := toks[cursor].text;
      ghost var before := typeWords;
      if word in TypeKeywords {
        cursor := cursor + 1;
        typeWords := typeWords + [word];
        if word in TagIntroducers && PeekIdent(toks, cursor) && !PeekPunct(toks, cursor + 1, '*')
           && !LooksLikeParamName(toks, cursor)
        {
          typeWords := typeWords + [toks[cursor].text];
          assert typeWords == before + [word, toks[cursor].text];
          cursor := cursor + 1;
        }
      } else {
        break;
      }
    }
    var typeStr := JoinWords(typeWords);
    var resolved := ResolveBaseType(typeStr);
    if resolved.Ok? {
      r := Ok((resolved.value, cursor));
    } else {
      r := Err(resolved.error);
    }
  }

  /**
   * `CType::parse` as the source writes it: a leading `const`, the base
   * type, a loop collecting `pointerLevels`, then a loop wrapping the base.
   */
  method ParseCTypeLoop(toks: seq<Token>, pos: nat) returns (r: Result<(CType, nat)>)
    requires pos <= |toks|
    ensures r == ParseCType(toks, pos)
  {
    var isConst := false;
    var cursor := pos;
    if PeekKeyword(toks, cursor, "const") {
      cursor := cursor + 1;
      isConst := true;
    }
    var baseResult := ParseBaseTypeLoop(toks, cursor);
    if baseResult.Err? {
      return Err(baseResult.error);
    }
    var afterBase := baseResult.value.1;
    var current := Base(baseResult.value.0);
    cursor := afterBase;
    var pointerLevels: seq<bool> := [];
    while PeekPunct(toks, cursor, '*')
      invariant afterBase <= cursor <= |toks|
      invariant ScanPointerLevels(toks, cursor, isConst, pointerLevels)
                == ScanPointerLevels(toks, afterBase, PeekKeyword(toks, pos, "const"), [])
      decreases |toks| - cursor
    {
      cursor := cursor + 1;
      var ptrConst := false;
      if PeekKeyword(toks, cursor, "const") {
        cursor := cursor + 1;
        ptrConst := true;
      }
      pointerLevels := pointerLevels + [ptrConst || isConst];
      isConst := false;
    }
    for i := 0 to |pointerLevels|
      invariant WrapPointers(current, pointerLevels[i..]) == WrapPointers(Base(baseResult.value.0), pointerLevels)
    {
      assert pointerLevels[i..][1..] == pointerLevels[i + 1..];
      current := Pointer(current, pointerLevels[i]);
    }
    r := Ok((current, cursor));
  }
}
