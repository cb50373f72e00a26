/**
 * The Lox `Scanner`: a single pass over the source text that keeps a
 * `start`/`current`/`line` cursor and appends one token per lexeme.
 *
 * The first half of the module specifies a scan as functions on values:
 * `ScanOne` says what one call of `scan_token` does from a position and a
 * line, and `ScanAll` what `scan_tokens` produces from there on. The class
 * `Scanner` at the end is the imperative scanner, each of its methods proved
 * to move its fields exactly as those functions say.
 */
module Scanning {
  import opened Wrappers
  import opened Tokens

  const UNEXPECTED_CHARACTER := "Unexpected character."
  const UNTERMINATED_STRING := "Unterminated string."

  // Character classes.

  predicate IsDigit(c: char) { '0' <= c <= '9' }
  predicate IsAlpha(c: char) { 'a' <= c <= 'z' || 'A' <= c <= 'Z' || c == '_' }
  predicate IsAlphaNumeric(c: char) { IsAlpha(c) || IsDigit(c) }

  /** The character classes the scanner's inner loops run over. */
  datatype Run = Digits | WordCharacters | UpToLineBreak | UpToQuote

  /** Whether `c` continues a run of class `run`. */
  predicate Continues(run: Run, c: char) {
    match run
    case Digits => IsDigit(c)
    case WordCharacters => IsAlphaNumeric(c)
    case UpToLineBreak => c != '\n'
    case UpToQuote => c != '"'
  }

  /** The number of line breaks in `s`. */
  function Newlines(s: string): nat {
    if s == [] then 0 else Newlines(s[..|s| - 1]) + (if s[|s| - 1] == '\n' then 1 else 0)
  }

  /**
   * The end of the longest run of class `run` that starts at `i`: where a
   * loop that advances while the next character continues the run stops.
   */
  function SkipWhile(s: string, i: nat, run: Run): (j: nat)
    requires i <= |s|
    ensures i <= j <= |s|
    ensures j < |s| ==> !Continues(run, s[j])
    decreases |s| - i
  {
    if i < |s| && Continues(run, s[i]) then SkipWhile(s, i + 1, run) else i
  }

  /** Every character `SkipWhile` skips continues the run. */
  lemma {:induction false} SkipWhileAll(s: string, i: nat, run: Run)
    requires i <= |s|
    ensures forall k :: i <= k < SkipWhile(s, i, run) ==> Continues(run, s[k])
    decreases |s| - i
  {
    if i < |s| && Continues(run, s[i]) {
      SkipWhileAll(s, i + 1, run);
    }
  }

  // Error reporting.

  /** One call of `Error_Reporter::error`: the line and the message. */
  datatype Report = Report(line: nat, message: string)

  /**
   * An `Error_Reporter`: the `had_error` flag and the reports written so far
   * (the source writes them to standard error).
   */
  datatype ErrorReporter = ErrorReporter(hadError: bool, reports: seq<Report>)
  {
    /** The reporter after the reports `rs` were made, in order. */
    function Log(rs: seq<Report>): ErrorReporter {
      ErrorReporter(hadError || rs != [], reports + rs)
    }

    /** `Error_Reporter::error`. */
    function Error(line: nat, message: string): ErrorReporter {
      Log([Report(line, message)])
    }
  }

  /** Logging two batches of reports one after the other is logging them together. */
  lemma LogConcat(e: ErrorReporter, a: seq<Report>, b: seq<Report>)
    ensures e.Log(a).Log(b) == e.Log(a + b)
    ensures e.Log(a + b).hadError <==> e.hadError || a != [] || b != []
  {
    assert e.reports + a + b == e.reports + (a + b);
    if a + b == [] {
      assert |a| == 0 && |b| == 0;
    }
  }

  // Keywords.

  /** The token types of the reserved words, in the order the scanner enters them. */
  const KEYWORD_TYPES: seq<TokenType> :=
    [And, Class, Else, False, For, Fun, If, Nil, Or, Print, Return, Super, This, True, Var, While]

  /**
   * The keyword table the scanner's constructor fills: one insertion per
   * reserved token type, in order, under the key `key` spells for it. As
   * `Hash_Table::insert` does, an insertion under a key already present
   * leaves the first type entered under it.
   */
  function KeywordTable(key: TokenType -> string, types: seq<TokenType>): map<string, TokenType>
    decreases |types|
  {
    if types == [] then map[]
    else
      var t, table := types[|types| - 1], KeywordTable(key, types[..|types| - 1]);
      if key(t) in table then table else table[key(t) := t]
  }

  /**
   * The table has a key for each inserted type and no other key; each entry
   * is an inserted type with that key, and it is the first one entered
   * under it.
   */
  lemma {:induction false} KeywordTableEntries(key: TokenType -> string, types: seq<TokenType>)
    ensures forall t :: t in types ==> key(t) in KeywordTable(key, types)
    ensures forall w :: w in KeywordTable(key, types) ==>
      KeywordTable(key, types)[w] in types && key(KeywordTable(key, types)[w]) == w
    ensures forall i :: 0 <= i < |types| && (forall j :: 0 <= j < i ==> key(types[j]) != key(types[i])) ==>
      KeywordTable(key, types)[key(types[i])] == types[i]
    decreases |types|
  {
    if types != [] {
      var init := types[..|types| - 1];
      KeywordTableEntries(key, init);
      assert types == init + [types[|types| - 1]];
    }
  }

  /** The word a reserved token type is written as in Lox source. */
  function ReservedWord(t: TokenType): string {
    match t
    case And => "and"
    case Class => "class"
    case Else => "else"
    case False => "false"
    case For => "for"
    case Fun => "fun"
    case If => "if"
    case Nil => "nil"
    case Or => "or"
    case Print => "print"
    case Return => "return"
    case Super => "super"
    case This => "this"
    case True => "true"
    case Var => "var"
    case While => "while"
    case _ => ""
  }

  /** The letter `c` in upper case; other characters are unchanged. */
  function UpperChar(c: char): char {
    if 'a' <= c <= 'z' then (c as int - 'a' as int + 'A' as int) as char else c
  }

  function Upper(s: string): string {
    seq(|s|, i requires 0 <= i < |s| => UpperChar(s[i]))
  }

  /** A reserved word is its token type's enumerator name in lower case. */
  lemma ReservedWordSpellsEnumerator(t: TokenType)
    requires t in KEYWORD_TYPES
    ensures Upper(ReservedWord(t)) == EnumeratorName(t)
  {
    if t.And? || t.Class? || t.Else? || t.False? {
      ReservedWordsAndToFalse(t);
    } else if t.For? || t.Fun? || t.If? || t.Nil? {
      ReservedWordsForToNil(t);
    } else if t.Or? || t.Print? || t.Return? || t.Super? {
      ReservedWordsOrToSuper(t);
    } else {
      ReservedWordsThisToWhile(t);
    }
  }

  lemma ReservedWordsAndToFalse(t: TokenType)
    requires t.And? || t.Class? || t.Else? || t.False?
    ensures Upper(ReservedWord(t)) == EnumeratorName(t)
  {
    match t {
      case And =>
      case Class =>
      case Else =>
      case False =>
    }
  }

  lemma ReservedWordsForToNil(t: TokenType)
    requires t.For? || t.Fun? || t.If? || t.Nil?
    ensures Upper(ReservedWord(t)) == EnumeratorName(t)
  {
    match t {
      case For =>
      case Fun =>
      case If =>
      case Nil =>
    }
  }

  lemma ReservedWordsOrToSuper(t: TokenType)
    requires t.Or? || t.Print? || t.Return? || t.Super?
    ensures Upper(ReservedWord(t)) == EnumeratorName(t)
  {
    match t {
      case Or =>
      case Print =>
      case Return =>
      case Super =>
    }
  }

  lemma ReservedWordsThisToWhile(t: TokenType)
    requires t.This? || t.True? || t.Var? || t.While?
    ensures Upper(ReservedWord(t)) == EnumeratorName(t)
  {
    match t {
      case This =>
      case True =>
      case Var =>
      case While =>
    }
  }

  /** The intended keyword table: each reserved word maps to its token type. */
  const LOX_KEYWORDS: map<string, TokenType> := KeywordTable(ReservedWord, KEYWORD_TYPES)

  /**
   * The type of an identifier lexeme: its keyword's type when the table has
   * it, `Identifier` otherwise.
   */
  function IdentifierType(keywords: map<string, TokenType>, text: string): (t: TokenType)
    ensures text in keywords ==> t == keywords[text]
    ensures text !in keywords ==> t == Identifier
  {
    if text in keywords then keywords[text] else Identifier
  }

  /**
   * With the intended table, a reserved word is scanned as its own token
   * type, and any other word as an identifier; no word is end of file.
   */
  lemma LoxKeywordsRecognised(text: string)
    ensures forall t :: t in KEYWORD_TYPES ==> IdentifierType(LOX_KEYWORDS, ReservedWord(t)) == t
    ensures (forall t :: t in KEYWORD_TYPES ==> ReservedWord(t) != text) ==> IdentifierType(LOX_KEYWORDS, text) == Identifier
    ensures Eof !in LOX_KEYWORDS.Values
  {
    KeywordTableEntries(ReservedWord, KEYWORD_TYPES);
    forall t | t in KEYWORD_TYPES
      ensures LOX_KEYWORDS[ReservedWord(t)] == t
    {
      var u := LOX_KEYWORDS[ReservedWord(t)];
      ReservedWordSpellsEnumerator(t);
      ReservedWordSpellsEnumerator(u);
      NameRoundTrip(t);
      NameRoundTrip(u);
    }
  }

  /**
   * The key `scanner.cpp` enters a keyword under: the stringised qualified
   * enumerator with its first three characters dropped, as in
   * `"en_Type::TT_AND"`.
   */
  function AsWrittenKey(t: TokenType): string {
    TokenTypeToStr(t)[3..]
  }

  /** The keyword table as the scanner's constructor builds it. */
  const AS_WRITTEN_KEYWORDS: map<string, TokenType> := KeywordTable(AsWrittenKey, KEYWORD_TYPES)

  /**
   * The lookup of `lox_identifier` against the table as built: `None` stands
   * for the null pointer it then dereferences.
   */
  function AsWrittenIdentifierType(text: string): Option<TokenType> {
    if text in AS_WRITTEN_KEYWORDS then Some(AS_WRITTEN_KEYWORDS[text]) else None
  }

  /** The key of `and` in the table as built. */
  lemma AsWrittenKeyOfAnd()
    ensures AsWrittenKey(And) == "en_Type::TT_AND"
  {
    var s := TokenTypeToStr(And);
    assert s == "Token_Type::TT_AND";
    assert s[3..] == "en_Type::TT_AND";
  }

  /**
   * No identifier lexeme is a key of the table as built, since every key
   * holds a colon: the lookup of every identifier, reserved words included,
   * ends at the null pointer.
   */
  lemma AsWrittenLookupAlwaysMisses(text: string)
    requires forall k :: 0 <= k < |text| ==> IsAlphaNumeric(text[k])
    ensures AsWrittenIdentifierType(text) == None
  {
    if text in AS_WRITTEN_KEYWORDS {
      KeywordTableEntries(AsWrittenKey, KEYWORD_TYPES);
      AsWrittenKeyHasColon(AS_WRITTEN_KEYWORDS[text]);
      assert false;
    }
  }

  /** Every key as built holds a colon at position 7, from the `::` of the qualified name. */
  lemma AsWrittenKeyHasColon(t: TokenType)
    ensures |AsWrittenKey(t)| > 7 && AsWrittenKey(t)[7] == ':'
  {
    var s := TokenTypeToStr(t);
    assert s[10] == TYPE_NAME_PREFIX[10];
  }

  // One lexeme.

  /**
   * What one call of `scan_token` leaves behind: the new `current` and
   * `line`, the tokens it appended and the errors it reported.
   */
  datatype Scanned = Scanned(next: nat, line: nat, tokens: seq<Token>, reports: seq<Report>)

  /**
   * The guarantees every lexeme gives: it consumes at least one character
   * and stays inside the source, the line advances by the line breaks it
   * consumed, it emits at most one token or one report, and a token's lexeme
   * is the consumed text, stamped with the line the lexeme ends on.
   */
  ghost predicate Consumes(source: string, start: nat, line: nat, r: Scanned) {
    && start < r.next <= |source|
    && r.line == line + Newlines(source[start..r.next])
    && |r.tokens| + |r.reports| <= 1
    && (forall t <- r.tokens :: t.lexeme == source[start..r.next] && t.line == r.line)
    && (forall e <- r.reports :: e.line == r.line)
  }

  /** `add_token` over the lexeme `source[start..next]`. */
  function Lexeme(source: string, start: nat, next: nat, line: nat, tokenType: TokenType, literal: Literal): Scanned
    requires start <= next <= |source|
  {
    Scanned(next, line, [Token(tokenType, source[start..next], literal, line)], [])
  }

  lemma NewlinesStep(s: string, i: nat, j: nat)
    requires i <= j < |s|
    ensures Newlines(s[i..j + 1]) == Newlines(s[i..j]) + if s[j] == '\n' then 1 else 0
  {
    assert s[i..j + 1][..j - i] == s[i..j];
  }

  lemma {:induction false} NewlinesSplit(s: string, i: nat, j: nat, k: nat)
    requires i <= j <= k <= |s|
    ensures Newlines(s[i..k]) == Newlines(s[i..j]) + Newlines(s[j..k])
    decreases k - j
  {
    if j < k {
      NewlinesSplit(s, i, j, k - 1);
      NewlinesStep(s, i, k - 1);
      NewlinesStep(s, j, k - 1);
    } else {
      assert s[j..k] == [];
    }
  }

  lemma NewlinesOne(s: string, i: nat)
    requires i < |s|
    ensures Newlines(s[i..i + 1]) == if s[i] == '\n' then 1 else 0
  {
    NewlinesStep(s, i, i);
    assert s[i..i] == [];
  }

  lemma {:induction false} NoNewlines(s: string, i: nat, j: nat)
    requires i <= j <= |s|
    requires forall k :: i <= k < j ==> s[k] != '\n'
    ensures Newlines(s[i..j]) == 0
    decreases j - i
  {
    if i < j {
      NoNewlines(s, i, j - 1);
      NewlinesStep(s, i, j - 1);
    } else {
      assert s[i..j] == [];
    }
  }

  /** A one-character token. */
  function Single(source: string, start: nat, line: nat, tokenType: TokenType): (r: Scanned)
    requires start < |source|
    ensures r.next == start + 1
  {
    Lexeme(source, start, start + 1, line, tokenType, NoLiteral)
  }

  /** `!`, `=`, `<` or `>`, followed by `=` or not. */
  function ScanOperator(source: string, start: nat, line: nat, pair: TokenType, single: TokenType): (r: Scanned)
    requires start < |source|
    ensures start < r.next <= |source|
  {
    if start + 1 < |source| && source[start + 1] == '=' then
      Lexeme(source, start, start + 2, line, pair, NoLiteral)
    else
      Single(source, start, line, single)
  }

  /** `/`: a comment up to the end of the line, or a slash. */
  function ScanSlash(source: string, start: nat, line: nat): (r: Scanned)
    requires start < |source|
    ensures start < r.next <= |source|
  {
    if start + 1 < |source| && source[start + 1] == '/' then
      Scanned(SkipWhile(source, start + 2, UpToLineBreak), line, [], [])
    else
      Single(source, start, line, Slash)
  }

  /** Space, `\r`, `\t` and `\n` emit nothing; a line break counts a line. */
  function ScanBlank(source: string, start: nat, line: nat): (r: Scanned)
    requires start < |source|
    ensures r.next == start + 1
  {
    Scanned(start + 1, if source[start] == '\n' then line + 1 else line, [], [])
  }

  /** A string literal from its opening quote to its closing quote. */
  function ScanString(source: string, start: nat, line: nat): (r: Scanned)
    requires start < |source|
    ensures start < r.next <= |source|
  {
    var close := SkipWhile(source, start + 1, UpToQuote);
    var endLine := line + Newlines(source[start + 1..close]);
    if close == |source| then
      Scanned(close, endLine, [], [Report(endLine, UNTERMINATED_STRING)])
    else
      Lexeme(source, start, close + 1, endLine, String, Text(source[start + 1..close]))
  }

  /** A number: a run of digits, then a fraction when a dot is followed by a digit. */
  function ScanNumber(source: string, start: nat, line: nat): (r: Scanned)
    requires start < |source|
    ensures start < r.next <= |source|
  {
    var whole := SkipWhile(source, start + 1, Digits);
    var end :=
      if whole + 1 < |source| && source[whole] == '.' && IsDigit(source[whole + 1])
      then SkipWhile(source, whole + 1, Digits)
      else whole;
    Lexeme(source, start, end, line, Number, NumberValue)
  }

  /** An identifier or a reserved word: a letter, then letters, digits and underscores. */
  function ScanIdentifier(source: string, start: nat, line: nat, keywords: map<string, TokenType>): (r: Scanned)
    requires start < |source|
    ensures start < r.next <= |source|
  {
    var end := SkipWhile(source, start + 1, WordCharacters);
    Lexeme(source, start, end, line, IdentifierType(keywords, source[start..end]), NoLiteral)
  }

  /** `scan_token` from `start` on line `line`. */
  function ScanOne(source: string, start: nat, line: nat, keywords: map<string, TokenType>): (r: Scanned)
    requires start < |source|
    ensures start < r.next <= |source|
  {
    var c := source[start];
    match c
    case '(' => Single(source, start, line, LeftParen)
    case ')' => Single(source, start, line, RightParen)
    case '{' => Single(source, start, line, LeftBrace)
    case '}' => Single(source, start, line, RightBrace)
    case ',' => Single(source, start, line, Comma)
    case '.' => Single(source, start, line, Dot)
    case '-' => Single(source, start, line, Minus)
    case '+' => Single(source, start, line, Plus)
    case ';' => Single(source, start, line, Semicolon)
    case '*' => Single(source, start, line, Star)
    case '!' => ScanOperator(source, start, line, BangEqual, Bang)
    case '=' => ScanOperator(source, start, line, EqualEqual, Equal)
    case '<' => ScanOperator(source, start, line, LessEqual, Less)
    case '>' => ScanOperator(source, start, line, GreaterEqual, Greater)
    case '/' => ScanSlash(source, start, line)
    case ' ' | '\r' | '\t' | '\n' => ScanBlank(source, start, line)
    case '"' => ScanString(source, start, line)
    case _ =>
      if IsDigit(c) then ScanNumber(source, start, line)
      else if IsAlpha(c) then ScanIdentifier(source, start, line, keywords)
      else Scanned(start + 1, line, [], [Report(line, UNEXPECTED_CHARACTER)])
  }

  // The guarantees of each kind of lexeme.

  lemma SingleConsumes(source: string, start: nat, line: nat, tokenType: TokenType)
    requires start < |source| && source[start] != '\n'
    ensures var r := Single(source, start, line, tokenType);
      Consumes(source, start, line, r) && r.reports == [] && forall t <- r.tokens :: t.tokenType == tokenType
  {
    NewlinesOne(source, start);
  }

  lemma OperatorConsumes(source: string, start: nat, line: nat, pair: TokenType, single: TokenType)
    requires start < |source| && source[start] != '\n'
    ensures var r := ScanOperator(source, start, line, pair, single);
      && Consumes(source, start, line, r) && r.reports == []
      && forall t <- r.tokens :: t.tokenType == pair || t.tokenType == single
  {
    if start + 1 < |source| && source[start + 1] == '=' {
      NoNewlines(source, start, start + 2);
    } else {
      SingleConsumes(source, start, line, single);
    }
  }

  lemma SlashConsumes(source: string, start: nat, line: nat)
    requires start < |source| && source[start] == '/'
    ensures var r := ScanSlash(source, start, line);
      Consumes(source, start, line, r) && r.reports == [] && forall t <- r.tokens :: t.tokenType == Slash
  {
    if start + 1 < |source| && source[start + 1] == '/' {
      SkipWhileAll(source, start + 2, UpToLineBreak);
      NoNewlines(source, start, SkipWhile(source, start + 2, UpToLineBreak));
    } else {
      SingleConsumes(source, start, line, Slash);
    }
  }

  lemma BlankConsumes(source: string, start: nat, line: nat)
    requires start < |source|
    ensures var r := ScanBlank(source, start, line);
      Consumes(source, start, line, r) && r.tokens == [] && r.reports == []
  {
    NewlinesOne(source, start);
  }

  lemma StringConsumes(source: string, start: nat, line: nat)
    requires start < |source| && source[start] == '"'
    ensures var r := ScanString(source, start, line);
      Consumes(source, start, line, r) && forall t <- r.tokens :: t.tokenType == String
  {
    var close := SkipWhile(source, start + 1, UpToQuote);
    NewlinesOne(source, start);
    NewlinesSplit(source, start, start + 1, close);
    if close < |source| {
      NewlinesOne(source, close);
      NewlinesSplit(source, start, close, close + 1);
    }
  }

  lemma NumberConsumes(source: string, start: nat, line: nat)
    requires start < |source| && IsDigit(source[start])
    ensures var r := ScanNumber(source, start, line);
      Consumes(source, start, line, r) && r.reports == [] && forall t <- r.tokens :: t.tokenType == Number
  {
    var whole := SkipWhile(source, start + 1, Digits);
    SkipWhileAll(source, start + 1, Digits);
    if whole + 1 < |source| && source[whole] == '.' && IsDigit(source[whole + 1]) {
      SkipWhileAll(source, whole + 1, Digits);
    }
    NoNewlines(source, start, ScanNumber(source, start, line).next);
  }

  lemma IdentifierConsumes(source: string, start: nat, line: nat, keywords: map<string, TokenType>)
    requires start < |source| && IsAlpha(source[start])
    ensures var r := ScanIdentifier(source, start, line, keywords);
      && Consumes(source, start, line, r) && r.reports == []
      && forall t <- r.tokens :: t.tokenType == Identifier || t.tokenType in keywords.Values
  {
    SkipWhileAll(source, start + 1, WordCharacters);
    NoNewlines(source, start, ScanIdentifier(source, start, line, keywords).next);
  }

  /**
   * Every lexeme consumes input and keeps the line count, and emits at most
   * one token or one report.
   */
  lemma ScanOneConsumes(source: string, start: nat, line: nat, keywords: map<string, TokenType>)
    requires start < |source|
    ensures Consumes(source, start, line, ScanOne(source, start, line, keywords))
  {
    var c := source[start];
    match c
    case '(' => SingleConsumes(source, start, line, LeftParen);
    case ')' => SingleConsumes(source, start, line, RightParen);
    case '{' => SingleConsumes(source, start, line, LeftBrace);
    case '}' => SingleConsumes(source, start, line, RightBrace);
    case ',' => SingleConsumes(source, start, line, Comma);
    case '.' => SingleConsumes(source, start, line, Dot);
    case '-' => SingleConsumes(source, start, line, Minus);
    case '+' => SingleConsumes(source, start, line, Plus);
    case ';' => SingleConsumes(source, start, line, Semicolon);
    case '*' => SingleConsumes(source, start, line, Star);
    case '!' => OperatorConsumes(source, start, line, BangEqual, Bang);
    case '=' => OperatorConsumes(source, start, line, EqualEqual, Equal);
    case '<' => OperatorConsumes(source, start, line, LessEqual, Less);
    case '>' => OperatorConsumes(source, start, line, GreaterEqual, Greater);
    case '/' => SlashConsumes(source, start, line);
    case ' ' | '\r' | '\t' | '\n' => BlankConsumes(source, start, line);
    case '"' => StringConsumes(source, start, line);
    case _ =>
      if IsDigit(c) {
        NumberConsumes(source, start, line);
      } else if IsAlpha(c) {
        IdentifierConsumes(source, start, line, keywords);
      } else {
        NewlinesOne(source, start);
      }
  }

  /** No lexeme is an end-of-file token unless the keyword table maps a word to it. */
  lemma ScanOneNoEof(source: string, start: nat, line: nat, keywords: map<string, TokenType>)
    requires start < |source| && Eof !in keywords.Values
    ensures forall t <- ScanOne(source, start, line, keywords).tokens :: t.tokenType != Eof
  {
    var c := source[start];
    match c
    case '(' => SingleConsumes(source, start, line, LeftParen);
    case ')' => SingleConsumes(source, start, line, RightParen);
    case '{' => SingleConsumes(source, start, line, LeftBrace);
    case '}' => SingleConsumes(source, start, line, RightBrace);
    case ',' => SingleConsumes(source, start, line, Comma);
    case '.' => SingleConsumes(source, start, line, Dot);
    case '-' => SingleConsumes(source, start, line, Minus);
    case '+' => SingleConsumes(source, start, line, Plus);
    case ';' => SingleConsumes(source, start, line, Semicolon);
    case '*' => SingleConsumes(source, start, line, Star);
    case '!' => OperatorConsumes(source, start, line, BangEqual, Bang);
    case '=' => OperatorConsumes(source, start, line, EqualEqual, Equal);
    case '<' => OperatorConsumes(source, start, line, LessEqual, Less);
    case '>' => OperatorConsumes(source, start, line, GreaterEqual, Greater);
    case '/' => SlashConsumes(source, start, line);
    case ' ' | '\r' | '\t' | '\n' => BlankConsumes(source, start, line);
    case '"' => StringConsumes(source, start, line);
    case _ =>
      if IsDigit(c) {
        NumberConsumes(source, start, line);
      } else if IsAlpha(c) {
        IdentifierConsumes(source, start, line, keywords);
      } else {
        NewlinesOne(source, start);
      }
  }

  // The whole source.

  /** The tokens and the reports of a scan. */
  datatype Scan = Scan(tokens: seq<Token>, reports: seq<Report>)

  /**
   * `scan_tokens` from position `current` on line `line`: one lexeme after
   * another up to the end of the source, then the end-of-file token.
   */
  function ScanAll(source: string, current: nat, line: nat, keywords: map<string, TokenType>): (r: Scan)
    requires current <= |source|
    decreases |source| - current
  {
    if current == |source| then
      Scan([Token(Eof, "", NoLiteral, line)], [])
    else
      var s := ScanOne(source, current, line, keywords);
      var rest := ScanAll(source, s.next, s.line, keywords);
      Scan(s.tokens + rest.tokens, s.reports + rest.reports)
  }

  /**
   * One lexeme taken from a scan: what was there before, followed by a scan
   * from the old position, is what is there after, followed by a scan from
   * the new position.
   */
  lemma ScanStepComposes(source: string, current: nat, line: nat, keywords: map<string, TokenType>,
                         tokens: seq<Token>, reporter: ErrorReporter,
                         current': nat, line': nat, tokens': seq<Token>, reporter': ErrorReporter)
    requires current < |source|
    requires var s := ScanOne(source, current, line, keywords);
      current' == s.next && line' == s.line && tokens' == tokens + s.tokens && reporter' == reporter.Log(s.reports)
    ensures current' <= |source|
    ensures var before, after := ScanAll(source, current, line, keywords), ScanAll(source, current', line', keywords);
      && tokens + before.tokens == tokens' + after.tokens
      && reporter.Log(before.reports) == reporter'.Log(after.reports)
  {
    var s := ScanOne(source, current, line, keywords);
    var rest := ScanAll(source, s.next, s.line, keywords);
    assert tokens + (s.tokens + rest.tokens) == tokens' + rest.tokens;
    LogConcat(reporter, s.reports, rest.reports);
  }

  // What each kind of character starts.

  /** The one-character punctuation and the token type each stands for. */
  const PUNCTUATION: map<char, TokenType> := map[
    '(' := LeftParen, ')' := RightParen, '{' := LeftBrace, '}' := RightBrace, ',' := Comma,
    '.' := Dot, '-' := Minus, '+' := Plus, ';' := Semicolon, '*' := Star]

  /** Each operator character with its two-character and its one-character token type. */
  const OPERATORS: map<char, (TokenType, TokenType)> := map[
    '!' := (BangEqual, Bang), '=' := (EqualEqual, Equal),
    '<' := (LessEqual, Less), '>' := (GreaterEqual, Greater)]

  /** Punctuation is one token of its own type, one character long. */
  lemma PunctuationScan(source: string, start: nat, line: nat, keywords: map<string, TokenType>)
    requires start < |source| && source[start] in PUNCTUATION
    ensures ScanOne(source, start, line, keywords)
         == Scanned(start + 1, line, [Token(PUNCTUATION[source[start]], [source[start]], NoLiteral, line)], [])
  {
    assert source[start..start + 1] == [source[start]];
  }

  /**
   * An operator character takes the following `=` into a two-character
   * token when there is one, and is a one-character token otherwise.
   */
  lemma OperatorScan(source: string, start: nat, line: nat, keywords: map<string, TokenType>)
    requires start < |source| && source[start] in OPERATORS
    ensures var r := ScanOne(source, start, line, keywords);
      var equals := start + 1 < |source| && source[start + 1] == '=';
      && r.reports == [] && |r.tokens| == 1 && r.line == line
      && r.next == (if equals then start + 2 else start + 1)
      && (r.tokens[0].tokenType == OPERATORS[source[start]].0 <==> equals)
      && (r.tokens[0].tokenType == OPERATORS[source[start]].1 <==> !equals)
  {
  }

  /**
   * Two slashes start a comment that runs up to, and not including, the
   * next line break and emits nothing; a lone slash is a `Slash` token.
   */
  lemma SlashScan(source: string, start: nat, line: nat, keywords: map<string, TokenType>)
    requires start < |source| && source[start] == '/'
    ensures var r := ScanOne(source, start, line, keywords);
      if start + 1 < |source| && source[start + 1] == '/' then
        && r.tokens == [] && r.reports == [] && r.line == line
        && (r.next == |source| || source[r.next] == '\n')
        && (forall k :: start <= k < r.next ==> source[k] != '\n')
      else
        r == Scanned(start + 1, line, [Token(Slash, "/", NoLiteral, line)], [])
  {
    if start + 1 < |source| && source[start + 1] == '/' {
      SkipWhileAll(source, start + 2, UpToLineBreak);
    } else {
      assert source[start..start + 1] == "/";
    }
  }

  /** Blanks emit nothing; a line break moves to the next line. */
  lemma BlankScan(source: string, start: nat, line: nat, keywords: map<string, TokenType>)
    requires start < |source| && source[start] in " \r\t\n"
    ensures ScanOne(source, start, line, keywords)
         == Scanned(start + 1, if source[start] == '\n' then line + 1 else line, [], [])
  {
  }

  /**
   * A string runs to the next double quote. Its lexeme keeps both quotes,
   * its literal is the text between them and it may span lines. Without a
   * closing quote it reports an unterminated string on the last line and
   * emits nothing.
   */
  lemma StringScan(source: string, start: nat, line: nat, keywords: map<string, TokenType>)
    requires start < |source| && source[start] == '"'
    ensures var r := ScanOne(source, start, line, keywords);
      && (forall k :: start < k < r.next - 1 ==> source[k] != '"')
      && r.line == line + Newlines(source[start..r.next])
      && if '"' in source[start + 1..] then
           && start + 1 < r.next && source[r.next - 1] == '"' && r.reports == []
           && r.tokens == [Token(String, source[start..r.next], Text(source[start + 1..r.next - 1]), r.line)]
         else
           && r.next == |source| && r.tokens == []
           && r.reports == [Report(r.line, UNTERMINATED_STRING)]
  {
    assert ScanOne(source, start, line, keywords) == ScanString(source, start, line);
    StringShape(source, start, line);
  }

  /** The shape of the lexeme `ScanString` takes. */
  lemma StringShape(source: string, start: nat, line: nat)
    requires start < |source| && source[start] == '"'
    ensures var r := ScanString(source, start, line);
      && (forall k :: start < k < r.next - 1 ==> source[k] != '"')
      && r.line == line + Newlines(source[start..r.next])
      && if '"' in source[start + 1..] then
           && start + 1 < r.next && source[r.next - 1] == '"' && r.reports == []
           && r.tokens == [Token(String, source[start..r.next], Text(source[start + 1..r.next - 1]), r.line)]
         else
           && r.next == |source| && r.tokens == []
           && r.reports == [Report(r.line, UNTERMINATED_STRING)]
  {
    var close := SkipWhile(source, start + 1, UpToQuote);
    var rest := source[start + 1..];
    SkipWhileAll(source, start + 1, UpToQuote);
    StringConsumes(source, start, line);
    if close < |source| {
      assert rest[close - start - 1] == '"';
    } else {
      forall k | 0 <= k < |rest|
        ensures rest[k] != '"'
      {
        assert rest[k] == source[start + 1 + k];
      }
    }
  }

  /** Every character of `s` is a digit. */
  predicate AllDigits(s: string) {
    forall k :: 0 <= k < |s| ==> IsDigit(s[k])
  }

  /**
   * A number is the longest run of digits, followed by a dot and the longest
   * run of digits after it only when a digit follows the dot.
   */
  lemma NumberScan(source: string, start: nat, line: nat, keywords: map<string, TokenType>)
    requires start < |source| && IsDigit(source[start])
    ensures var r := ScanOne(source, start, line, keywords);
      var text := source[start..r.next];
      && r.reports == [] && r.line == line
      && r.tokens == [Token(Number, text, NumberValue, line)]
      && (AllDigits(text) || exists dot :: 0 < dot < |text| - 1 && text[dot] == '.' && AllDigits(text[..dot]) && AllDigits(text[dot + 1..]))
      && (r.next < |source| ==> !IsDigit(source[r.next]))
      && (AllDigits(text) ==> !(r.next + 1 < |source| && source[r.next] == '.' && IsDigit(source[r.next + 1])))
  {
    assert ScanOne(source, start, line, keywords) == ScanNumber(source, start, line);
    NumberShape(source, start, line);
  }

  /** The shape of the lexeme `ScanNumber` takes. */
  lemma NumberShape(source: string, start: nat, line: nat)
    requires start < |source| && IsDigit(source[start])
    ensures var r := ScanNumber(source, start, line);
      var text := source[start..r.next];
      && (AllDigits(text) || exists dot :: 0 < dot < |text| - 1 && text[dot] == '.' && AllDigits(text[..dot]) && AllDigits(text[dot + 1..]))
      && (AllDigits(text) ==> !(r.next + 1 < |source| && source[r.next] == '.' && IsDigit(source[r.next + 1])))
  {
    var whole := SkipWhile(source, start + 1, Digits);
    var r := ScanNumber(source, start, line);
    var text := source[start..r.next];
    SkipWhileAll(source, start + 1, Digits);
    if r.next == whole {
      assert AllDigits(text);
    } else {
      var dot := whole - start;
      SkipWhileAll(source, whole + 1, Digits);
      assert text[dot] == '.';
      assert AllDigits(text[..dot]);
      assert AllDigits(text[dot + 1..]);
    }
  }

  /**
   * An identifier is the longest run of letters, digits and underscores
   * from its first letter; its type comes from the keyword table.
   */
  lemma IdentifierScan(source: string, start: nat, line: nat, keywords: map<string, TokenType>)
    requires start < |source| && IsAlpha(source[start])
    ensures var r := ScanOne(source, start, line, keywords);
      var text := source[start..r.next];
      && r.reports == [] && r.line == line
      && r.tokens == [Token(IdentifierType(keywords, text), text, NoLiteral, line)]
      && (forall k :: 0 <= k < |text| ==> IsAlphaNumeric(text[k]))
      && (r.next < |source| ==> !IsAlphaNumeric(source[r.next]))
  {
    SkipWhileAll(source, start + 1, WordCharacters);
  }

  /** Any other character reports an unexpected character and emits nothing. */
  lemma UnexpectedScan(source: string, start: nat, line: nat, keywords: map<string, TokenType>)
    requires start < |source|
    requires source[start] !in PUNCTUATION && source[start] !in OPERATORS && source[start] !in "/ \r\t\n\""
    requires !IsDigit(source[start]) && !IsAlpha(source[start])
    ensures ScanOne(source, start, line, keywords) == Scanned(start + 1, line, [], [Report(line, UNEXPECTED_CHARACTER)])
  {
  }

  // Properties of a whole scan.

  /**
   * A scan ends with exactly one end-of-file token, with an empty lexeme and
   * the line of the end of the source, and no other token is end of file.
   */
  lemma {:induction false} ScanAllEndsWithEof(source: string, current: nat, line: nat, keywords: map<string, TokenType>)
    requires current <= |source| && Eof !in keywords.Values
    ensures var r := ScanAll(source, current, line, keywords);
      && |r.tokens| >= 1
      && r.tokens[|r.tokens| - 1] == Token(Eof, "", NoLiteral, line + Newlines(source[current..]))
      && forall i :: 0 <= i < |r.tokens| - 1 ==> r.tokens[i].tokenType != Eof
    decreases |source| - current
  {
    if current < |source| {
      var s := ScanOne(source, current, line, keywords);
      ScanOneConsumes(source, current, line, keywords);
      ScanOneNoEof(source, current, line, keywords);
      ScanAllEndsWithEof(source, s.next, s.line, keywords);
      NewlinesSplit(source, current, s.next, |source|);
      assert source[current..] == source[current..|source|];
      assert source[s.next..] == source[s.next..|source|];
    } else {
      assert source[current..] == [];
    }
  }

  /** The lines of `tokens` never decrease and none is below `line`. */
  ghost predicate LinesAscend(tokens: seq<Token>, line: nat) {
    && (forall i :: 0 <= i < |tokens| ==> line <= tokens[i].line)
    && (forall i, j :: 0 <= i < j < |tokens| ==> tokens[i].line <= tokens[j].line)
  }

  /** Token lines never decrease along a scan and never fall below the starting line. */
  lemma {:induction false} ScanAllLinesAscend(source: string, current: nat, line: nat, keywords: map<string, TokenType>)
    requires current <= |source|
    ensures LinesAscend(ScanAll(source, current, line, keywords).tokens, line)
    decreases |source| - current
  {
    if current < |source| {
      var s := ScanOne(source, current, line, keywords);
      ScanOneConsumes(source, current, line, keywords);
      ScanAllLinesAscend(source, s.next, s.line, keywords);
      LinesAscendPrepend(s.tokens, ScanAll(source, s.next, s.line, keywords).tokens, line, s.line);
    }
  }

  lemma LinesAscendPrepend(first: seq<Token>, rest: seq<Token>, line: nat, middle: nat)
    requires line <= middle && LinesAscend(rest, middle)
    requires |first| <= 1 && forall t <- first :: t.line == middle
    ensures LinesAscend(first + rest, line)
  {
    if first != [] {
      var all := first + rest;
      assert all[0] in first;
      assert forall i :: 0 < i < |all| ==> all[i] == rest[i - 1];
    }
  }

  // The imperative scanner.

  /**
   * `Scanner`: the source text, the keyword table, the cursor and the
   * tokens found so far. The reporter is the scanner's own copy of the one
   * it was given.
   */
  class Scanner {
    const source: string
    const keywords: map<string, TokenType>
    var tokens: seq<Token>
    var start: nat
    var current: nat
    var line: nat
    var reporter: ErrorReporter

    ghost predicate Valid()
      reads this
    {
      start <= current <= |source|
    }

    /** A scanner at the first character of line 1, with no tokens and the intended keyword table. */
    constructor (source: string, e: ErrorReporter)
      ensures Valid() && this.source == source && keywords == LOX_KEYWORDS
      ensures tokens == [] && start == 0 && current == 0 && line == 1 && reporter == e
    {
      this.source := source;
      reporter := e;
      tokens := [];
      start := 0;
      current := 0;
      line := 1;
      keywords := LOX_KEYWORDS;
    }

    predicate IsAtEnd()
      reads this
    {
      current >= |source|
    }

    /** The character under the cursor; NUL at the end of the source. */
    function Peek(): (c: char)
      reads this
      ensures c != '\0' ==> current < |source| && c == source[current]
    {
      if IsAtEnd() then '\0' else source[current]
    }

    /** The character after the cursor; NUL when there is none. */
    function PeekNext(): (c: char)
      reads this
      ensures c != '\0' ==> current + 1 < |source| && c == source[current + 1]
    {
      if current + 1 >= |source| then '\0' else source[current + 1]
    }

    /** Consumes and returns the character under the cursor. */
    method Advance() returns (c: char)
      requires current < |source|
      modifies this`current
      ensures current == old(current) + 1 && c == source[old(current)]
    {
      current := current + 1;
      c := source[current - 1];
    }

    /** Consumes the character under the cursor only when it is `expected`. */
    method Match(expected: char) returns (matched: bool)
      modifies this`current
      ensures matched <==> old(current) < |source| && source[old(current)] == expected
      ensures current == if matched then old(current) + 1 else old(current)
    {
      if IsAtEnd() {
        return false;
      }
      if source[current] != expected {
        return false;
      }
      current := current + 1;
      return true;
    }

    /** Appends a token for the lexeme between `start` and the cursor, on the current line. */
    method AddToken(tokenType: TokenType, literal: Literal)
      requires start <= current <= |source|
      modifies this`tokens
      ensures tokens == old(tokens) + [Token(tokenType, source[start..current], literal, line)]
    {
      var text := source[start..current];
      tokens := tokens + [Token(tokenType, text, literal, line)];
    }

    /** The comment loop of `scan_token`: up to the next line break or the end. */
    method SkipComment()
      requires current <= |source|
      modifies this`current
      ensures current == SkipWhile(source, old(current), UpToLineBreak)
    {
      while Peek() != '\n' && !IsAtEnd()
        invariant current <= |source|
        invariant SkipWhile(source, current, UpToLineBreak) == SkipWhile(source, old(current), UpToLineBreak)
        decreases |source| - current
      {
        var _ := Advance();
      }
    }

    /** The loop of `lox_string`: up to the closing quote or the end, counting lines. */
    method SkipString()
      requires current <= |source|
      modifies this`current, this`line
      ensures current == SkipWhile(source, old(current), UpToQuote)
      ensures line == old(line) + Newlines(source[old(current)..current])
    {
      while Peek() != '"' && !IsAtEnd()
        invariant old(current) <= current <= |source|
        invariant SkipWhile(source, current, UpToQuote) == SkipWhile(source, old(current), UpToQuote)
        invariant line == old(line) + Newlines(source[old(current)..current])
        decreases |source| - current
      {
        NewlinesStep(source, old(current), current);
        if Peek() == '\n' {
          line := line + 1;
        }
        var _ := Advance();
      }
    }

    /** `lox_string`, after the opening quote. */
    method LoxString()
      requires current == start + 1 <= |source| && source[start] == '"'
      modifies this`current, this`line, this`tokens, this`reporter
      ensures var r := ScanString(source, start, old(line));
        && current == r.next && line == r.line
        && tokens == old(tokens) + r.tokens && reporter == old(reporter).Log(r.reports)
    {
      SkipString();
      if IsAtEnd() {
        reporter := reporter.Error(line, UNTERMINATED_STRING);
        return;
      }
      var _ := Advance();
      AddToken(String, Text(source[start + 1..current - 1]));
    }

    /** A digit loop of `lox_number`. */
    method SkipDigits()
      requires current <= |source|
      modifies this`current
      ensures current == SkipWhile(source, old(current), Digits)
    {
      while IsDigit(Peek())
        invariant old(current) <= current <= |source|
        invariant SkipWhile(source, current, Digits) == SkipWhile(source, old(current), Digits)
        decreases |source| - current
      {
        var _ := Advance();
      }
    }

    /** `lox_number`, after the first digit. */
    method LoxNumber()
      requires current == start + 1 <= |source| && IsDigit(source[start])
      modifies this`current, this`tokens
      ensures var r := ScanNumber(source, start, line);
        current == r.next && tokens == old(tokens) + r.tokens
    {
      SkipDigits();
      if Peek() == '.' && IsDigit(PeekNext()) {
        var _ := Advance();
        SkipDigits();
      }
      AddToken(Number, NumberValue);
    }

    /**
     * `lox_identifier`, after the first letter, with a missing keyword read
     * as a plain identifier.
     */
    method LoxIdentifier()
      requires current == start + 1 <= |source| && IsAlpha(source[start])
      modifies this`current, this`tokens
      ensures var r := ScanIdentifier(source, start, line, keywords);
        current == r.next && tokens == old(tokens) + r.tokens
    {
      while IsAlphaNumeric(Peek())
        invariant start < current <= |source|
        invariant SkipWhile(source, current, WordCharacters) == SkipWhile(source, start + 1, WordCharacters)
        modifies this`current
        decreases |source| - current
      {
        var _ := Advance();
      }
      assert SkipWhile(source, current, WordCharacters) == current;
      var text := source[start..current];
      AddToken(IdentifierType(keywords, text), NoLiteral);
    }

    /** The operator branches of `scan_token`: the two-character operator when `=` follows. */
    method LoxOperator(pair: TokenType, single: TokenType)
      requires current == start + 1 <= |source| && source[start] != '\n'
      modifies this`current, this`tokens
      ensures var r := ScanOperator(source, start, line, pair, single);
        current == r.next && tokens == old(tokens) + r.tokens
    {
      var equals := Match('=');
      AddToken(if equals then pair else single, NoLiteral);
    }

    /** The slash branch of `scan_token`: a comment when a second slash follows. */
    method LoxSlash()
      requires current == start + 1 <= |source| && source[start] == '/'
      modifies this`current, this`tokens
      ensures var r := ScanSlash(source, start, line);
        current == r.next && tokens == old(tokens) + r.tokens
    {
      var comment := Match('/');
      if comment {
        SkipComment();
      } else {
        AddToken(Slash, NoLiteral);
      }
    }

    /** `scan_token`: one lexeme from `start`. */
    method ScanToken()
      requires start == current < |source|
      modifies this`current, this`line, this`tokens, this`reporter
      ensures var r := ScanOne(source, start, old(line), keywords);
        && current == r.next && line == r.line
        && tokens == old(tokens) + r.tokens && reporter == old(reporter).Log(r.reports)
    {
      var c := Advance();
      match c {
        case '(' => AddToken(LeftParen, NoLiteral);
        case ')' => AddToken(RightParen, NoLiteral);
        case '{' => AddToken(LeftBrace, NoLiteral);
        case '}' => AddToken(RightBrace, NoLiteral);
        case ',' => AddToken(Comma, NoLiteral);
        case '.' => AddToken(Dot, NoLiteral);
        case '-' => AddToken(Minus, NoLiteral);
        case '+' => AddToken(Plus, NoLiteral);
        case ';' => AddToken(Semicolon, NoLiteral);
        case '*' => AddToken(Star, NoLiteral);
        case '!' => LoxOperator(BangEqual, Bang);
        case '=' => LoxOperator(EqualEqual, Equal);
        case '<' => LoxOperator(LessEqual, Less);
        case '>' => LoxOperator(GreaterEqual, Greater);
        case '/' => LoxSlash();
        case ' ' =>
        case '\r' =>
        case '\t' =>
        case '\n' => line := line + 1;
        case '"' => LoxString();
        case _ =>
          if IsDigit(c) {
            LoxNumber();
          } else if IsAlpha(c) {
            LoxIdentifier();
          } else {
            reporter := reporter.Error(line, UNEXPECTED_CHARACTER);
          }
      }
    }

    /**
     * One turn of the loop of `scan_tokens`: the lexeme at the cursor. What
     * it adds, followed by what a scan from the new position produces, is
     * what a scan from the old position produces.
     */
    method ScanNext()
      requires current < |source|
      modifies this`start, this`current, this`line, this`tokens, this`reporter
      ensures old(current) < current <= |source|
      ensures var before, after := ScanAll(source, old(current), old(line), keywords), ScanAll(source, current, line, keywords);
        && old(tokens) + before.tokens == tokens + after.tokens
        && old(reporter).Log(before.reports) == reporter.Log(after.reports)
    {
      start := current;
      ScanToken();
      ScanStepComposes(source, old(current), old(line), keywords, old(tokens), old(reporter), current, line, tokens, reporter);
    }

    /**
     * `scan_tokens`: lexemes up to the end of the source, then the
     * end-of-file token; returns the token list.
     */
    method ScanTokens() returns (result: seq<Token>)
      requires Valid()
      modifies this`start, this`current, this`line, this`tokens, this`reporter
      ensures var r := ScanAll(source, old(current), old(line), keywords);
        result == tokens == old(tokens) + r.tokens && reporter == old(reporter).Log(r.reports)
    {
      while !IsAtEnd()
        invariant current <= |source|
        invariant var before, after := ScanAll(source, old(current), old(line), keywords), ScanAll(source, current, line, keywords);
          && old(tokens) + before.tokens == tokens + after.tokens
          && old(reporter).Log(before.reports) == reporter.Log(after.reports)
        decreases |source| - current
      {
        ScanNext();
      }
      tokens := tokens + [Token(Eof, "", NoLiteral, line)];
      result := tokens;
    }
  }
}
