/**
 * What the type-grammar parser guarantees: which tokens `parse_base_type`
 * consumes and where it stops, when resolution fails, how the `*` loop
 * builds the pointer chain, and that printing a type and parsing it back
 * gives the type again.
 */
module TypeParserFacts {
  import opened Tokens
  import opened CTypes
  import opened TypeParser

  /**
   * The words that can ever be consumed: the type keywords the token
   * classification lets through as identifiers (`struct` and `enum` are
   * keywords, so never), plus `signed`, reachable only as a tag.
   */
  const ConsumableWords: set<string> := RunWords + {"signed"}

  /**
   * The k-th word of a run read from `pos` on: it is the identifier token
   * at its place, and is a type keyword, or else a tag: it follows a tag
   * introducer, `looks_like_param_name` rejects it, and no `*` follows it.
   */
  ghost predicate WordTakenAt(toks: seq<Token>, pos: nat, ws: seq<string>, k: nat)
    requires k < |ws| && pos + |ws| <= |toks|
  {
    toks[pos + k].Ident? && toks[pos + k].text == ws[k]
    && (ws[k] in TypeKeywords
        || (k > 0 && ws[k - 1] in TagIntroducers && ws[k] in NonParamWords
            && !PeekPunct(toks, pos + k + 1, '*')))
  }

  /** `ws` is a run of words read from `pos` on, one token per word. */
  ghost predicate WordRun(toks: seq<Token>, pos: nat, ws: seq<string>) {
    pos + |ws| <= |toks| && forall k: nat :: k < |ws| ==> WordTakenAt(toks, pos, ws, k)
  }

  /** Where `parse_base_type` stops: not at an identifier that is a type keyword. */
  predicate StopsWordLoop(toks: seq<Token>, pos: nat) {
    !(PeekIdent(toks, pos) && toks[pos].text in TypeKeywords)
  }

  /** A run stays a run when words taken under the loop's rules are appended. */
  lemma ExtendWordRun(toks: seq<Token>, start: nat, acc: seq<string>, more: seq<string>)
    requires WordRun(toks, start, acc) && start + |acc| + |more| <= |toks|
    requires forall k: nat :: |acc| <= k < |acc| + |more| ==> WordTakenAt(toks, start, acc + more, k)
    ensures WordRun(toks, start, acc + more)
  {
    var ws := acc + more;
    forall k: nat | k < |ws| ensures WordTakenAt(toks, start, ws, k) {
      if k < |acc| {
        assert WordTakenAt(toks, start, acc, k);
        assert ws[k] == acc[k] && (k > 0 ==> ws[k - 1] == acc[k - 1]);
      }
    }
  }

  lemma {:induction false} ScanWordsRun(toks: seq<Token>, start: nat, pos: nat, acc: seq<string>)
    requires start <= pos <= |toks| && pos == start + |acc| && WordRun(toks, start, acc)
    ensures var (end, ws) := ScanWords(toks, pos, acc);
            WordRun(toks, start, ws) && end == start + |ws| && |acc| <= |ws| && ws[..|acc|] == acc
            && StopsWordLoop(toks, end)
    decreases |toks| - pos
  {
    if PeekIdent(toks, pos) && toks[pos].text in TypeKeywords {
      var word := toks[pos].text;
      if TakesTag(toks, pos + 1, word) {
        var acc' := acc + [word, toks[pos + 1].text];
        assert WordTakenAt(toks, start, acc', |acc| + 0);
        assert WordTakenAt(toks, start, acc', |acc| + 1);
        ExtendWordRun(toks, start, acc, [word, toks[pos + 1].text]);
        ScanWordsRun(toks, start, pos + 2, acc');
        var ws := ScanWords(toks, pos + 2, acc').1;
        assert ws[..|acc|] == ws[..|acc'|][..|acc|];
      } else {
        var acc' := acc + [word];
        assert WordTakenAt(toks, start, acc', |acc| + 0);
        ExtendWordRun(toks, start, acc, [word]);
        ScanWordsRun(toks, start, pos + 1, acc');
        var ws := ScanWords(toks, pos + 1, acc').1;
        assert ws[..|acc|] == ws[..|acc'|][..|acc|];
      }
    }
  }

  /**
   * `parse_base_type` consumes only identifier words, one token per word
   * and in order (so never a `*`), each a type keyword or a tag taken under
   * the three tag conditions; it stops at the first identifier that is not
   * a type keyword, without consuming it.
   */
  lemma BaseTypeWords(toks: seq<Token>, pos: nat)
    requires pos <= |toks|
    ensures var (end, ws) := ScanWords(toks, pos, []);
            WordRun(toks, pos, ws) && end == pos + |ws| && StopsWordLoop(toks, end)
  {
    ScanWordsRun(toks, pos, pos, []);
  }

  /**
   * On a stream the lexer classified, every word taken is one of
   * `ConsumableWords`: `struct`, `enum` and `const` never are.
   */
  lemma ConsumedWordsClassified(toks: seq<Token>, pos: nat)
    requires pos <= |toks| && WellClassified(toks)
    ensures var ws := ScanWords(toks, pos, []).1;
            forall k :: 0 <= k < |ws| ==> ws[k] in ConsumableWords
  {
    BaseTypeWords(toks, pos);
    var ws := ScanWords(toks, pos, []).1;
    forall k | 0 <= k < |ws| ensures ws[k] in ConsumableWords {
      assert WordTakenAt(toks, pos, ws, k);
      assert toks[pos + k] in toks;
    }
  }

  lemma {:induction false} JoinWordsEmpty(ws: seq<string>)
    requires forall k :: 0 <= k < |ws| ==> ws[k] != ""
    ensures JoinWords(ws) == "" <==> ws == []
  {
    if |ws| > 1 {
      assert |JoinWords(ws)| >= |ws[0]|;
    }
  }

  /**
   * `parse_base_type` fails exactly when no type keyword starts the input,
   * and then with "Expected type specifier"; otherwise it consumes at least
   * one token and resolves the joined words by the table.
   */
  lemma ParseBaseTypeOutcome(toks: seq<Token>, pos: nat)
    requires pos <= |toks|
    ensures ParseBaseType(toks, pos).Err? <==> StopsWordLoop(toks, pos)
    ensures ParseBaseType(toks, pos).Err? ==> ParseBaseType(toks, pos).error == ExpectedTypeSpecifier
    ensures ParseBaseType(toks, pos).Ok? ==>
              var (b, end) := ParseBaseType(toks, pos).value;
              var ws := ScanWords(toks, pos, []).1;
              pos < end && (b.Custom? ==> b.name == JoinWords(ws))
              && (!b.Custom? ==> JoinWords(ws) in SpellingTable && SpellingTable[JoinWords(ws)] == b)
  {
    BaseTypeWords(toks, pos);
    var (end, ws) := ScanWords(toks, pos, []);
    forall k | 0 <= k < |ws| ensures ws[k] != "" {
      assert WordTakenAt(toks, pos, ws, k);
    }
    JoinWordsEmpty(ws);
    ResolveBaseTypeTable(JoinWords(ws));
    if !StopsWordLoop(toks, pos) {
      assert end > pos;
    }
  }

  /** The joined string starts with the first word, then a space or its end. */
  lemma JoinWordsHead(ws: seq<string>)
    requires ws != []
    ensures |ws[0]| <= |JoinWords(ws)| && JoinWords(ws)[..|ws[0]|] == ws[0]
    ensures |ws| == 1 ==> JoinWords(ws) == ws[0]
    ensures |ws| > 1 ==> |ws[0]| < |JoinWords(ws)| && JoinWords(ws)[|ws[0]|] == ' '
  {
    if |ws| > 1 {
      var rest := JoinWords(ws[1..]);
      assert JoinWords(ws) == ws[0] + " " + rest;
      assert (ws[0] + " " + rest)[..|ws[0]|] == ws[0];
    }
  }

  /** No type keyword is a word of `signed int` or `signed long` that ends at a space or at the end. */
  lemma NoKeywordStartsSigned(w: string, s: string)
    requires w in TypeKeywords && (s == "signed int" || s == "signed long")
    ensures !(|w| <= |s| && s[..|w|] == w && (|w| == |s| || s[|w|] == ' '))
  {
    if |w| <= |s| && s[..|w|] == w {
      assert w[0] == s[0] == 's' && w[1] == s[1] == 'i' && w[2] == s[2] == 'g';
    }
  }

  /**
   * The table's `signed int` and `signed long` are never looked up:
   * `signed` is not a type keyword, so no collected run of words starts
   * with it.
   */
  lemma SignedSpellingsUnreachable(toks: seq<Token>, pos: nat)
    requires pos <= |toks|
    ensures var s := JoinWords(ScanWords(toks, pos, []).1);
            s != "signed int" && s != "signed long"
  {
    BaseTypeWords(toks, pos);
    var ws := ScanWords(toks, pos, []).1;
    if ws != [] {
      assert WordTakenAt(toks, pos, ws, 0);
      JoinWordsHead(ws);
      var s := JoinWords(ws);
      if s == "signed int" || s == "signed long" {
        NoKeywordStartsSigned(ws[0], s);
      }
    }
  }

  /** A `struct` or `enum` keyword never starts a type: the classification refuses it. */
  lemma StructOrEnumRejected(toks: seq<Token>, pos: nat)
    requires pos < |toks| && (toks[pos] == Keyword("struct") || toks[pos] == Keyword("enum"))
    ensures ParseBaseType(toks, pos) == Err(ExpectedTypeSpecifier)
    ensures ParseCType(toks, pos) == Err(ExpectedTypeSpecifier)
  {
    ParseBaseTypeOutcome(toks, pos);
  }

  /** The tokens of a pointer suffix: a `*` per level, followed by `const` when the flag is set. */
  function StarTokens(post: seq<bool>): seq<Token> {
    if post == [] then []
    else [Punct('*')] + (if post[0] then [Keyword("const")] else []) + StarTokens(post[1..])
  }

  /** The `const` flags written after the stars that start at `pos`. */
  function StarConsts(toks: seq<Token>, pos: nat): seq<bool>
    requires pos <= |toks|
    decreases |toks| - pos
  {
    if PeekPunct(toks, pos, '*') then
      var ptrConst := PeekKeyword(toks, pos + 1, "const");
      [ptrConst] + StarConsts(toks, if ptrConst then pos + 2 else pos + 1)
    else []
  }

  /** The level flags for the written `const`s, the pending one joining level 0. */
  function LevelFlags(post: seq<bool>, pending: bool): seq<bool> {
    seq(|post|, i requires 0 <= i < |post| => post[i] || (i == 0 && pending))
  }

  /** The level flags of one more written level, in front. */
  lemma LevelFlagsCons(c: bool, post: seq<bool>, pending: bool)
    ensures LevelFlags([c] + post, pending) == [c || pending] + LevelFlags(post, false)
  {
  }

  /** Moving one level flag from the pending flags onto the accumulated ones. */
  lemma FlagsStep(acc: seq<bool>, c: bool, post: seq<bool>, pending: bool)
    ensures acc + [c || pending] + LevelFlags(post, false) == acc + LevelFlags([c] + post, pending)
  {
    LevelFlagsCons(c, post, pending);
  }

  /** Adjacent windows of `s` concatenate. */
  lemma SliceConcat<T>(s: seq<T>, a: nat, b: nat, c: nat)
    requires a <= b <= c <= |s|
    ensures s[a..c] == s[a..b] + s[b..c]
  {
  }

  /** A `*`, with its `const` when there is one, in front of a pointer suffix. */
  lemma StarStep(toks: seq<Token>, pos: nat, next: nat, end: nat, c: bool, post: seq<bool>)
    requires pos <= next <= end <= |toks|
    requires toks[pos..next] == [Punct('*')] + (if c then [Keyword("const")] else [])
    requires toks[next..end] == StarTokens(post)
    ensures toks[pos..end] == StarTokens([c] + post)
  {
    assert ([c] + post)[1..] == post;
    SliceConcat(toks, pos, next, end);
  }

  lemma {:induction false} ScanPointerLevelsExact(toks: seq<Token>, pos: nat, pending: bool, acc: seq<bool>)
    requires pos <= |toks|
    ensures var (end, levels) := ScanPointerLevels(toks, pos, pending, acc);
            var post := StarConsts(toks, pos);
            levels == acc + LevelFlags(post, pending) && toks[pos..end] == StarTokens(post)
            && !PeekPunct(toks, end, '*')
    decreases |toks| - pos
  {
    var (end, levels) := ScanPointerLevels(toks, pos, pending, acc);
    var post := StarConsts(toks, pos);
    if PeekPunct(toks, pos, '*') {
      var ptrConst := PeekKeyword(toks, pos + 1, "const");
      var next := if ptrConst then pos + 2 else pos + 1;
      var acc' := acc + [ptrConst || pending];
      ScanPointerLevelsExact(toks, next, false, acc');
      var post' := StarConsts(toks, next);
      assert post == [ptrConst] + post';
      FlagsStep(acc, ptrConst, post', pending);
      StarStep(toks, pos, next, end, ptrConst, post');
    } else {
      assert LevelFlags(post, pending) == [];
    }
  }

  /**
   * `toks[from..end]` is a pointer suffix for `levels`: one `*` per level,
   * each optionally followed by `const`; level i is const iff a `const`
   * follows the i-th `*`, or i is 0 and `lead` holds.
   */
  ghost predicate PointerSuffix(toks: seq<Token>, from: nat, end: nat, levels: seq<bool>, lead: bool) {
    from <= end <= |toks|
    && var post := StarConsts(toks, from);
       |post| == |levels| && toks[from..end] == StarTokens(post)
       && forall i :: 0 <= i < |post| ==> levels[i] == (post[i] || (i == 0 && lead))
  }

  /** The level flags of the `const`s written after the stars make a pointer suffix. */
  lemma FlagsMakeSuffix(toks: seq<Token>, pos: nat, end: nat, levels: seq<bool>, pending: bool)
    requires pos <= end <= |toks|
    requires toks[pos..end] == StarTokens(StarConsts(toks, pos))
    requires levels == LevelFlags(StarConsts(toks, pos), pending)
    ensures PointerSuffix(toks, pos, end, levels, pending)
  {
  }

  /** The `*` loop consumes exactly a pointer suffix and stops before any further `*`. */
  lemma ScanPointerLevelsShape(toks: seq<Token>, pos: nat, pending: bool)
    requires pos <= |toks|
    ensures var (end, levels) := ScanPointerLevels(toks, pos, pending, []);
            !PeekPunct(toks, end, '*') && PointerSuffix(toks, pos, end, levels, pending)
  {
    ScanPointerLevelsExact(toks, pos, pending, []);
    var (end, levels) := ScanPointerLevels(toks, pos, pending, []);
    var post := StarConsts(toks, pos);
    assert [] + LevelFlags(post, pending) == LevelFlags(post, pending);
    FlagsMakeSuffix(toks, pos, end, levels, pending);
  }

  /**
   * `CType::parse`: the pointer chain has one level per `*` consumed after
   * the base type, the first `*` innermost; level i is const iff a `const`
   * follows the i-th `*`, or i is 0 and a leading `const` was read. With no
   * `*` the result is the plain base type, a leading `const` dropped.
   */
  lemma ParseCTypeShape(toks: seq<Token>, pos: nat)
    requires pos <= |toks|
    requires ParseCType(toks, pos).Ok?
    ensures var (t, end) := ParseCType(toks, pos).value;
            var lead := PeekKeyword(toks, pos, "const");
            var baseResult := ParseBaseType(toks, if lead then pos + 1 else pos);
            baseResult.Ok? && BaseOf(t) == baseResult.value.0 && !PeekPunct(toks, end, '*')
            && (Levels(t) == [] <==> t == Base(baseResult.value.0))
            && PointerSuffix(toks, baseResult.value.1, end, Levels(t), lead)
  {
    var lead := PeekKeyword(toks, pos, "const");
    var (b, afterBase) := ParseBaseType(toks, if lead then pos + 1 else pos).value;
    var (end, levels) := ScanPointerLevels(toks, afterBase, lead, []);
    var t := WrapPointers(Base(b), levels);
    assert ParseCType(toks, pos) == Ok((t, end));
    ScanPointerLevelsShape(toks, afterBase, lead);
    WrapPointersLevels(Base(b), levels);
    assert Levels(t) == levels;
    NoLevelsIsBase(t);
  }

  /** The type keywords that take no tag. */
  const PlainKeywords: set<string> := TypeKeywords - TagIntroducers

  /**
   * The type keywords the lexer delivers as identifiers: all of them but
   * `struct` and `enum`. A run of these words that is not a table spelling
   * resolves to `Custom` of the words joined by spaces.
   */
  const RunWords: set<string> := TypeKeywords - {"struct", "enum"}

  /** The words of `s` between its spaces: the inverse of `JoinWords`. */
  function SplitWords(s: string): (ws: seq<string>)
    ensures ws != []
    decreases |s|
  {
    if s == "" then [""]
    else
      var rest := SplitWords(s[1..]);
      if s[0] == ' ' then [""] + rest else [[s[0]] + rest[0]] + rest[1..]
  }

  /** A word with no space extends the first word of what follows it. */
  lemma {:induction false} SplitWordsFront(a: string, s: string)
    requires ' ' !in a
    ensures SplitWords(a + s) == [a + SplitWords(s)[0]] + SplitWords(s)[1..]
    decreases |a|
  {
    if a == "" {
      assert a + s == s;
      assert a + SplitWords(s)[0] == SplitWords(s)[0];
    } else {
      assert (a + s)[1..] == a[1..] + s;
      assert ' ' !in a[1..] by {
        assert forall i :: 0 <= i < |a[1..]| ==> a[1..][i] == a[i + 1];
      }
      SplitWordsFront(a[1..], s);
      assert [a[0]] + (a[1..] + SplitWords(s)[0]) == a + SplitWords(s)[0];
    }
  }

  /** Splitting words joined by spaces, none of which holds a space, gives the words back. */
  lemma {:induction false} SplitJoin(ws: seq<string>)
    requires ws != [] && forall k :: 0 <= k < |ws| ==> ' ' !in ws[k]
    ensures SplitWords(JoinWords(ws)) == ws
    decreases |ws|
  {
    if |ws| == 1 {
      SplitWordsFront(ws[0], "");
      assert ws[0] + "" == ws[0];
    } else {
      var rest := JoinWords(ws[1..]);
      assert JoinWords(ws) == ws[0] + (" " + rest);
      assert (" " + rest)[1..] == rest;
      SplitJoin(ws[1..]);
      assert SplitWords(" " + rest) == [""] + ws[1..];
      SplitWordsFront(ws[0], " " + rest);
      assert ws[0] + "" == ws[0];
    }
  }

  /** One more character in front of the first word is one more character in front of the joined string. */
  lemma JoinWordsFront(c: char, ws: seq<string>)
    requires ws != []
    ensures JoinWords([[c] + ws[0]] + ws[1..]) == [c] + JoinWords(ws)
  {
    var ws' := [[c] + ws[0]] + ws[1..];
    if |ws| > 1 {
      assert ws'[1..] == ws[1..];
    }
  }

  /** Joining the words of any string with spaces gives the string back. */
  lemma {:induction false} JoinSplit(s: string)
    ensures JoinWords(SplitWords(s)) == s
    decreases |s|
  {
    if s != "" {
      var rest := SplitWords(s[1..]);
      JoinSplit(s[1..]);
      if s[0] == ' ' {
        assert ([""] + rest)[1..] == rest;
        assert JoinWords([""] + rest) == "" + " " + JoinWords(rest);
      } else {
        JoinWordsFront(s[0], rest);
      }
      assert s == [s[0]] + s[1..];
    }
  }

  /** Every word is one of `RunWords`. */
  predicate AllRunWords(ws: seq<string>) {
    forall k :: 0 <= k < |ws| ==> ws[k] in RunWords
  }

  lemma RunWordsSpaceFree(w: string)
    requires w in RunWords
    ensures ' ' !in w
  {
  }

  /**
   * A base type the printer can write so that it reads back: a kind of the
   * table, or a `Custom` whose words are identifiers of `RunWords` and
   * whose spelling is not in the table.
   */
  predicate PrintableBase(b: BaseType) {
    !b.Custom? || (b.name !in SpellingTable && AllRunWords(SplitWords(b.name)))
  }

  /** A run of `RunWords` outside the table names a printable `Custom`, written with those words. */
  lemma CustomRunPrintable(name: string, ws: seq<string>)
    requires ws != [] && AllRunWords(ws) && name == JoinWords(ws) && name !in SpellingTable
    ensures SplitWords(name) == ws && PrintableBase(Custom(name))
  {
    forall k | 0 <= k < |ws| ensures ' ' !in ws[k] {
      RunWordsSpaceFree(ws[k]);
    }
    SplitJoin(ws);
  }

  /** The words a base type is written with: the canonical keyword spelling of a kind of the table, the words of a custom name. */
  function CanonicalWords(b: BaseType): (ws: seq<string>)
  {
    match b
    case Char => ["char"]
    case Int => ["int"]
    case UnsignedInt => ["unsigned", "int"]
    case Long => ["long"]
    case UnsignedLong => ["unsigned", "long"]
    case LongLong => ["long", "long"]
    case UnsignedLongLong => ["unsigned", "long", "long"]
    case Short => ["short"]
    case UnsignedShort => ["unsigned", "short"]
    case Void => ["void"]
    case SizeT => ["size_t"]
    case SSizeT => ["ssize_t"]
    case Custom(name) => SplitWords(name)
  }

  function WordTokens(ws: seq<string>): seq<Token> {
    seq(|ws|, i requires 0 <= i < |ws| => Ident(ws[i]))
  }

  /**
   * The tokens of a type: the words of its base, then one `*` per level,
   * followed by `const` on const levels.
   */
  function CTypeTokens(t: CType): seq<Token>
  {
    WordTokens(CanonicalWords(BaseOf(t))) + StarTokens(Levels(t))
  }

  /**
   * Whether the printed type ends with a tag introducer, so that a word
   * `looks_like_param_name` rejects, written right after it, is taken as
   * its tag.
   */
  predicate OpenTag(t: CType) {
    var ws := CanonicalWords(BaseOf(t));
    Levels(t) == [] && ws[|ws| - 1] in TagIntroducers
  }

  /** Whether `name` may follow the printed type `t` without being read as part of it. */
  predicate FollowsType(t: CType, name: string) {
    name !in TypeKeywords && !(OpenTag(t) && name in NonParamWords)
  }

  /** The canonical words of a kind of the table are type keywords that take no tag. */
  lemma CanonicalPlain(b: BaseType)
    requires !b.Custom?
    ensures CanonicalWords(b) != []
    ensures forall k :: 0 <= k < |CanonicalWords(b)| ==> CanonicalWords(b)[k] in PlainKeywords
  {
  }

  /** The one-word kinds resolve back from their word. */
  lemma OneWordResolves(b: BaseType)
    requires b in {Char, Int, Long, Short, Void, SizeT, SSizeT}
    ensures ResolveBaseType(JoinWords(CanonicalWords(b))) == Ok(b)
  {
  }

  /** The two-word kinds resolve back from their words joined by a space. */
  lemma TwoWordsResolve(b: BaseType)
    requires b in {UnsignedInt, UnsignedLong, LongLong, UnsignedShort}
    ensures ResolveBaseType(JoinWords(CanonicalWords(b))) == Ok(b)
  {
    match b {
      case UnsignedInt => assert JoinWords(["unsigned", "int"]) == "unsigned int";
      case UnsignedLong => assert JoinWords(["unsigned", "long"]) == "unsigned long";
      case LongLong => assert JoinWords(["long", "long"]) == "long long";
      case UnsignedShort => assert JoinWords(["unsigned", "short"]) == "unsigned short";
    }
  }

  /** `unsigned long long` resolves back from its three words. */
  lemma ThreeWordsResolve()
    ensures ResolveBaseType(JoinWords(CanonicalWords(UnsignedLongLong))) == Ok(UnsignedLongLong)
  {
    assert JoinWords(["long", "long"]) == "long long";
    assert JoinWords(["unsigned", "long", "long"]) == "unsigned long long";
  }

  /** The canonical words of a kind of the table resolve back to that kind. */
  lemma CanonicalResolves(b: BaseType)
    requires !b.Custom?
    ensures ResolveBaseType(JoinWords(CanonicalWords(b))) == Ok(b)
  {
    if b in {Char, Int, Long, Short, Void, SizeT, SSizeT} {
      OneWordResolves(b);
    } else if b == UnsignedLongLong {
      ThreeWordsResolve();
    } else {
      TwoWordsResolve(b);
    }
  }

  /** A printable base is written with a non-empty run of `RunWords`, and resolves back to itself. */
  lemma PrintableResolves(b: BaseType)
    requires PrintableBase(b)
    ensures CanonicalWords(b) != []
    ensures forall k :: 0 <= k < |CanonicalWords(b)| ==> CanonicalWords(b)[k] in RunWords
    ensures ResolveBaseType(JoinWords(CanonicalWords(b))) == Ok(b)
  {
    if b.Custom? {
      JoinSplit(b.name);
      assert SplitWords(b.name)[0] in RunWords;
    } else {
      CanonicalPlain(b);
      CanonicalResolves(b);
    }
  }

  /** After the last word of a run, no tag is taken. */
  predicate NoTagAfter(toks: seq<Token>, end: nat, ws: seq<string>) {
    ws != [] ==> !TakesTag(toks, end, ws[|ws| - 1])
  }

  /** From `pos` on, `toks` holds the words `ws` as identifiers, each a type keyword. */
  predicate KeywordsAt(toks: seq<Token>, pos: nat, ws: seq<string>) {
    pos + |ws| <= |toks| && forall k :: 0 <= k < |ws| ==> toks[pos + k] == Ident(ws[k]) && ws[k] in TypeKeywords
  }

  /** A tail of a run of type keywords, as the tokens from `pos + d` on. */
  lemma KeywordsFrom(toks: seq<Token>, pos: nat, ws: seq<string>, d: nat)
    requires KeywordsAt(toks, pos, ws) && d <= |ws|
    ensures KeywordsAt(toks, pos + d, ws[d..])
    ensures d < |ws| ==> toks[pos + d] == Ident(ws[d]) && ws[d] in TypeKeywords
  {
    forall k | 0 <= k < |ws[d..]|
      ensures toks[pos + d + k] == Ident(ws[d..][k]) && ws[d..][k] in TypeKeywords
    {
      assert toks[pos + (d + k)] == Ident(ws[d + k]);
    }
    if d < |ws| {
      assert toks[pos + d] == Ident(ws[d]);
    }
  }

  /**
   * One turn of the word loop inside a run of type keywords, when the first
   * word takes the second as its tag: both are consumed, and the rest of
   * the run is still a run with the same end.
   */
  lemma TagTurn(toks: seq<Token>, pos: nat, ws: seq<string>, acc: seq<string>)
    requires KeywordsAt(toks, pos, ws) && |ws| >= 2 && TakesTag(toks, pos + 1, ws[0])
    requires NoTagAfter(toks, pos + |ws|, ws)
    ensures KeywordsAt(toks, pos + 2, ws[2..]) && pos + 2 + |ws[2..]| == pos + |ws|
    ensures NoTagAfter(toks, pos + 2 + |ws[2..]|, ws[2..])
    ensures ScanWords(toks, pos, acc) == ScanWords(toks, pos + 2, acc + [ws[0], ws[1]])
    ensures acc + [ws[0], ws[1]] + ws[2..] == acc + ws
  {
    KeywordsFrom(toks, pos, ws, 0);
    KeywordsFrom(toks, pos, ws, 1);
    KeywordsFrom(toks, pos, ws, 2);
    var rest := ws[2..];
    assert rest != [] ==> rest[|rest| - 1] == ws[|ws| - 1];
  }

  /**
   * One turn of the word loop inside a run of type keywords, when the first
   * word takes no tag: it alone is consumed, and the rest of the run is
   * still a run with the same end.
   */
  lemma WordTurn(toks: seq<Token>, pos: nat, ws: seq<string>, acc: seq<string>)
    requires KeywordsAt(toks, pos, ws) && ws != []
    requires |ws| == 1 || !TakesTag(toks, pos + 1, ws[0])
    requires NoTagAfter(toks, pos + |ws|, ws)
    ensures KeywordsAt(toks, pos + 1, ws[1..]) && pos + 1 + |ws[1..]| == pos + |ws|
    ensures NoTagAfter(toks, pos + 1 + |ws[1..]|, ws[1..])
    ensures ScanWords(toks, pos, acc) == ScanWords(toks, pos + 1, acc + [ws[0]])
    ensures acc + [ws[0]] + ws[1..] == acc + ws
  {
    KeywordsFrom(toks, pos, ws, 0);
    KeywordsFrom(toks, pos, ws, 1);
    var rest := ws[1..];
    assert rest != [] ==> rest[|rest| - 1] == ws[|ws| - 1];
  }

  /**
   * A run of type keywords, written as identifiers and followed by a token
   * that neither continues the run nor is taken as a tag, is collected
   * exactly: whichever words the loop reads as tags inside the run are
   * words of the run.
   */
  lemma {:induction false} ScanWordsKeywords(toks: seq<Token>, pos: nat, ws: seq<string>, acc: seq<string>)
    requires KeywordsAt(toks, pos, ws)
    requires StopsWordLoop(toks, pos + |ws|) && NoTagAfter(toks, pos + |ws|, ws)
    ensures ScanWords(toks, pos, acc) == (pos + |ws|, acc + ws)
    decreases |ws|
  {
    if ws == [] {
      assert acc + ws == acc;
    } else if |ws| >= 2 && TakesTag(toks, pos + 1, ws[0]) {
      TagTurn(toks, pos, ws, acc);
      ScanWordsKeywords(toks, pos + 2, ws[2..], acc + [ws[0], ws[1]]);
    } else {
      WordTurn(toks, pos, ws, acc);
      ScanWordsKeywords(toks, pos + 1, ws[1..], acc + [ws[0]]);
    }
  }

  /** Where `s` reads `x + y` from `pos` on, it reads `x` from `pos` and `y` right after. */
  lemma SplitAt<T>(s: seq<T>, pos: nat, x: seq<T>, y: seq<T>)
    requires pos + |x + y| <= |s| && forall k :: 0 <= k < |x + y| ==> s[pos + k] == (x + y)[k]
    ensures forall k :: 0 <= k < |x| ==> s[pos + k] == x[k]
    ensures forall k :: 0 <= k < |y| ==> s[pos + |x| + k] == y[k]
  {
    forall k | 0 <= k < |x| ensures s[pos + k] == x[k] {
      assert s[pos + k] == (x + y)[k];
    }
    forall k | 0 <= k < |y| ensures s[pos + |x| + k] == y[k] {
      assert s[pos + (|x| + k)] == (x + y)[|x| + k];
    }
  }

  /** Whether the `*` loop of `CType::parse` stops at `pos` after a level without `const`. */
  predicate StopsStarLoop(toks: seq<Token>, pos: nat) {
    pos == |toks| || (pos < |toks| && toks[pos] != Punct('*') && toks[pos] != Keyword("const"))
  }

  /** Printed pointer levels, followed by a token that stops the loop, are read back exactly. */
  lemma {:induction false} StarsRoundTrip(toks: seq<Token>, pos: nat, post: seq<bool>, acc: seq<bool>)
    requires pos + |StarTokens(post)| <= |toks|
    requires forall k :: 0 <= k < |StarTokens(post)| ==> toks[pos + k] == StarTokens(post)[k]
    requires StopsStarLoop(toks, pos + |StarTokens(post)|)
    ensures ScanPointerLevels(toks, pos, false, acc) == (pos + |StarTokens(post)|, acc + post)
    decreases |post|
  {
    if post == [] {
      assert acc + post == acc;
    } else {
      var all := StarTokens(post);
      var head := [Punct('*')] + (if post[0] then [Keyword("const")] else []);
      var more := StarTokens(post[1..]);
      var next := pos + |head|;
      assert all == head + more;
      assert toks[pos + 0] == all[0];
      if post[0] || more != [] {
        assert toks[pos + 1] == all[1];
      }
      forall k | 0 <= k < |more| ensures toks[next + k] == more[k] {
        assert toks[pos + (|head| + k)] == all[|head| + k];
      }
      StarsRoundTrip(toks, next, post[1..], acc + [post[0]]);
      assert acc + [post[0]] + post[1..] == acc + post;
    }
  }

  /**
   * The words of a printable base, followed by a token that neither
   * continues them nor is taken as a tag, parse back to the base.
   */
  lemma BaseTypeRoundTrip(toks: seq<Token>, pos: nat, b: BaseType)
    requires PrintableBase(b)
    requires pos + |CanonicalWords(b)| <= |toks|
    requires forall k :: 0 <= k < |CanonicalWords(b)| ==> toks[pos + k] == WordTokens(CanonicalWords(b))[k]
    requires StopsWordLoop(toks, pos + |CanonicalWords(b)|)
    requires NoTagAfter(toks, pos + |CanonicalWords(b)|, CanonicalWords(b))
    ensures ParseBaseType(toks, pos) == Ok((b, pos + |CanonicalWords(b)|))
  {
    var cw := CanonicalWords(b);
    PrintableResolves(b);
    forall k | 0 <= k < |cw| ensures toks[pos + k] == Ident(cw[k]) && cw[k] in TypeKeywords {
      assert toks[pos + k] == WordTokens(cw)[k];
    }
    assert KeywordsAt(toks, pos, cw);
    ScanWordsKeywords(toks, pos, cw, []);
    assert [] + cw == cw;
  }

  /** Where a printed type ends: at the end of the input, or before a name that may follow it. */
  predicate EndsType(toks: seq<Token>, end: nat, t: CType) {
    end == |toks| || (end < |toks| && toks[end].Ident? && FollowsType(t, toks[end].text))
  }

  /**
   * Where the words of a printed type end, the word loop stops and takes no
   * tag: a `*` follows, or the name that may follow the type, or nothing.
   */
  lemma WordsEnd(toks: seq<Token>, afterBase: nat, t: CType)
    requires afterBase <= |toks|
    requires Levels(t) != [] ==> afterBase < |toks| && toks[afterBase] == Punct('*')
    requires Levels(t) == [] ==> EndsType(toks, afterBase, t)
    ensures StopsWordLoop(toks, afterBase)
    ensures NoTagAfter(toks, afterBase, CanonicalWords(BaseOf(t)))
  {
  }

  /** Every base is written with at least one word. */
  lemma CanonicalNonEmpty(b: BaseType)
    ensures CanonicalWords(b) != []
  {
    if b.Custom? {
      assert CanonicalWords(b) == SplitWords(b.name);
    }
  }

  /** The tokens of a printed type, found at `pos`: its words, then its stars. */
  lemma TypeTokensAt(toks: seq<Token>, pos: nat, t: CType)
    requires pos + |CTypeTokens(t)| <= |toks|
    requires forall k :: 0 <= k < |CTypeTokens(t)| ==> toks[pos + k] == CTypeTokens(t)[k]
    ensures |CTypeTokens(t)| == |CanonicalWords(BaseOf(t))| + |StarTokens(Levels(t))|
    ensures forall k :: 0 <= k < |CanonicalWords(BaseOf(t))| ==> toks[pos + k] == WordTokens(CanonicalWords(BaseOf(t)))[k]
    ensures var stars := StarTokens(Levels(t));
            forall k :: 0 <= k < |stars| ==> toks[pos + |CanonicalWords(BaseOf(t))| + k] == stars[k]
  {
    SplitAt(toks, pos, WordTokens(CanonicalWords(BaseOf(t))), StarTokens(Levels(t)));
  }

  /**
   * The words of a printed type read back as its base, with its stars
   * right after them and a token that stops the `*` loop after those.
   */
  lemma TypeBaseAt(toks: seq<Token>, pos: nat, t: CType)
    requires PrintableBase(BaseOf(t))
    requires pos + |CTypeTokens(t)| <= |toks|
    requires forall k :: 0 <= k < |CTypeTokens(t)| ==> toks[pos + k] == CTypeTokens(t)[k]
    requires EndsType(toks, pos + |CTypeTokens(t)|, t)
    ensures !PeekKeyword(toks, pos, "const")
    ensures ParseBaseType(toks, pos) == Ok((BaseOf(t), pos + |CanonicalWords(BaseOf(t))|))
    ensures |CTypeTokens(t)| == |CanonicalWords(BaseOf(t))| + |StarTokens(Levels(t))|
    ensures var stars := StarTokens(Levels(t));
            forall k :: 0 <= k < |stars| ==> toks[pos + |CanonicalWords(BaseOf(t))| + k] == stars[k]
    ensures StopsStarLoop(toks, pos + |CTypeTokens(t)|)
  {
    var b := BaseOf(t);
    var cw := CanonicalWords(b);
    var stars := StarTokens(Levels(t));
    var afterBase := pos + |cw|;
    TypeTokensAt(toks, pos, t);
    CanonicalNonEmpty(b);
    assert toks[pos + 0] == WordTokens(cw)[0];
    if stars != [] {
      assert toks[afterBase + 0] == stars[0];
    } else {
      assert Levels(t) == [];
    }
    WordsEnd(toks, afterBase, t);
    BaseTypeRoundTrip(toks, pos, b);
  }

  /**
   * Printing a type with a printable base and parsing it back, wherever it
   * stands and followed by a parameter name or nothing, gives the same type
   * and consumes exactly the printed tokens.
   */
  lemma CTypeRoundTrip(toks: seq<Token>, pos: nat, t: CType)
    requires PrintableBase(BaseOf(t))
    requires pos + |CTypeTokens(t)| <= |toks|
    requires forall k :: 0 <= k < |CTypeTokens(t)| ==> toks[pos + k] == CTypeTokens(t)[k]
    requires EndsType(toks, pos + |CTypeTokens(t)|, t)
    ensures ParseCType(toks, pos) == Ok((t, pos + |CTypeTokens(t)|))
  {
    TypeBaseAt(toks, pos, t);
    var afterBase := pos + |CanonicalWords(BaseOf(t))|;
    StarsRoundTrip(toks, afterBase, Levels(t), []);
    assert [] + Levels(t) == Levels(t);
    WrapPointersOfLevels(t);
  }

  /** What a run of `RunWords` resolves to prints, a `Custom` one as exactly that run. */
  lemma ResolvedRunPrintable(ws: seq<string>)
    requires AllRunWords(ws) && ResolveBaseType(JoinWords(ws)).Ok?
    ensures PrintableBase(ResolveBaseType(JoinWords(ws)).value)
    ensures ResolveBaseType(JoinWords(ws)).value.Custom? ==> CanonicalWords(ResolveBaseType(JoinWords(ws)).value) == ws
  {
    var b := ResolveBaseType(JoinWords(ws)).value;
    ResolveBaseTypeTable(JoinWords(ws));
    if b.Custom? {
      CustomRunPrintable(b.name, ws);
      assert CanonicalWords(b) == SplitWords(b.name);
    }
  }

  /** Consumable words other than `signed` are `RunWords`. */
  lemma ConsumableRun(ws: seq<string>)
    requires forall k :: 0 <= k < |ws| ==> ws[k] in ConsumableWords
    requires "signed" !in ws
    ensures AllRunWords(ws)
  {
    forall k | 0 <= k < |ws| ensures ws[k] in RunWords {
      assert ws[k] in ws;
    }
  }

  /**
   * Every base the parser produces from a classified stream, unless its
   * words hold a `signed` tag, is printable; a `Custom` one is printed with
   * exactly the words that were read.
   */
  lemma ParsedBasePrintable(toks: seq<Token>, pos: nat)
    requires pos <= |toks| && WellClassified(toks) && ParseBaseType(toks, pos).Ok?
    requires "signed" !in ScanWords(toks, pos, []).1
    ensures PrintableBase(ParseBaseType(toks, pos).value.0)
    ensures ParseBaseType(toks, pos).value.0.Custom?
            ==> CanonicalWords(ParseBaseType(toks, pos).value.0) == ScanWords(toks, pos, []).1
  {
    ConsumedWordsClassified(toks, pos);
    var ws := ScanWords(toks, pos, []).1;
    ConsumableRun(ws);
    ResolvedRunPrintable(ws);
  }

  /** `struct foo *p` does not parse: `struct` is a keyword, not an identifier. */
  lemma StructPointerRejected()
    ensures ParseCType([Keyword("struct"), Ident("foo"), Punct('*'), Ident("p")], 0) == Err(ExpectedTypeSpecifier)
  {
    StructOrEnumRejected([Keyword("struct"), Ident("foo"), Punct('*'), Ident("p")], 0);
  }

  /** After `union`, one of `looks_like_param_name`'s words with no `*` after it is the tag. */
  lemma UnionTakesKeywordTag()
    ensures ParseBaseType([Ident("union"), Ident("signed"), Ident("x")], 0) == Ok((Custom("union signed"), 2))
  {
    var a := [Ident("union"), Ident("signed"), Ident("x")];
    assert "signed" in NonParamWords && !LooksLikeParamName(a, 1);
    assert TakesTag(a, 1, "union");
    assert [] + ["union", a[1].text] == ["union", "signed"];
    assert ScanWords(a, 0, []) == ScanWords(a, 2, ["union", "signed"]);
    assert "x" !in TypeKeywords;
    assert ScanWords(a, 2, ["union", "signed"]) == (2, ["union", "signed"]);
    assert JoinWords(["union", "signed"]) == "union signed";
  }

  /** After `union`, a word followed by `*` is no tag, whatever the word. */
  lemma UnionTagBeforeStar()
    ensures ParseBaseType([Ident("union"), Ident("foo"), Punct('*'), Ident("p")], 0) == Ok((Custom("union"), 1))
  {
    var b := [Ident("union"), Ident("foo"), Punct('*'), Ident("p")];
    assert PeekPunct(b, 2, '*') && !TakesTag(b, 1, "union");
    assert [] + ["union"] == ["union"];
    assert ScanWords(b, 0, []) == ScanWords(b, 1, ["union"]);
    assert "foo" !in TypeKeywords;
    assert ScanWords(b, 1, ["union"]) == (1, ["union"]);
  }

  /** After `union`, a word that looks like a parameter name stays outside the type. */
  lemma UnionOrdinaryTag()
    ensures ParseBaseType([Ident("union"), Ident("foo"), Ident("bar")], 0) == Ok((Custom("union"), 1))
  {
    var c := [Ident("union"), Ident("foo"), Ident("bar")];
    assert "foo" !in NonParamWords && LooksLikeParamName(c, 1) && !TakesTag(c, 1, "union");
    assert [] + ["union"] == ["union"];
    assert ScanWords(c, 0, []) == ScanWords(c, 1, ["union"]);
    assert "foo" !in TypeKeywords;
    assert ScanWords(c, 1, ["union"]) == (1, ["union"]);
  }
}
