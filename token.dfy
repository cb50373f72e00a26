/**
 * Lox tokens: the token kinds, their printable names and the token record
 * with its printed form.
 */
module Tokens {
  import opened Wrappers
  import opened Sequences

  /** The kinds of Lox token, in declaration order. */
  datatype TokenType =
    | LeftParen | RightParen | LeftBrace | RightBrace
    | Comma | Dot | Minus | Plus | Semicolon | Slash | Star
    | Bang | BangEqual | Equal | EqualEqual
    | Greater | GreaterEqual | Less | LessEqual
    | Identifier | String | Number
    | And | Class | Else | False | Fun | For | If | Nil | Or
    | Print | Return | Super | This | True | Var | While
    | Eof

  /** What every printable token-type name starts with: the enumeration's qualified prefix. */
  const TYPE_NAME_PREFIX := "Token_Type::TT_"

  /**
   * The enumerator's name after the common `TT_` prefix, as spelled in the
   * enumeration; it is made of capital letters and underscores only.
   */
  function EnumeratorName(t: TokenType): (n: string)
    ensures 2 <= |n| && ' ' !in n
  {
    match t
    case LeftParen => "LEFT_PAREN"
    case RightParen => "RIGHT_PAREN"
    case LeftBrace => "LEFT_BRACE"
    case RightBrace => "RIGHT_BRACE"
    case Comma => "COMMA"
    case Dot => "DOT"
    case Minus => "MINUS"
    case Plus => "PLUS"
    case Semicolon => "SEMICOLON"
    case Slash => "SLASH"
    case Star => "STAR"
    case Bang => "BANG"
    case BangEqual => "BANG_EQUAL"
    case Equal => "EQUAL"
    case EqualEqual => "EQUAL_EQUAL"
    case Greater => "GREATER"
    case GreaterEqual => "GREATER_EQUAL"
    case Less => "LESS"
    case LessEqual => "LESS_EQUAL"
    case Identifier => "IDENTIFIER"
    case String => "STRING"
    case Number => "NUMBER"
    case And => "AND"
    case Class => "CLASS"
    case Else => "ELSE"
    case False => "FALSE"
    case Fun => "FUN"
    case For => "FOR"
    case If => "IF"
    case Nil => "NIL"
    case Or => "OR"
    case Print => "PRINT"
    case Return => "RETURN"
    case Super => "SUPER"
    case This => "THIS"
    case True => "TRUE"
    case Var => "VAR"
    case While => "WHILE"
    case Eof => "EOF"
  }

  /**
   * `token_type_to_str`: the enumerator's qualified name, as stringising the
   * case label spells it.
   */
  function TokenTypeToStr(t: TokenType): (s: string)
    ensures |TYPE_NAME_PREFIX| < |s| && s[..|TYPE_NAME_PREFIX|] == TYPE_NAME_PREFIX
    ensures s[|TYPE_NAME_PREFIX|..] == EnumeratorName(t)
  {
    TYPE_NAME_PREFIX + EnumeratorName(t)
  }

  /**
   * The token type an enumerator name stands for, if any. The length, the
   * first and the last letter tell the 39 names apart, and the candidate
   * they select is then compared in full.
   */
  function NameToTokenType(n: string): (r: Option<TokenType>)
    ensures r.Some? ==> EnumeratorName(r.value) == n
  {
    if |n| < 2 then None
    else
      var candidate :=
        match |n|
        case 2 =>
          (match n[0]
          case 'I' => Some(If)
          case 'O' => Some(Or)
          case _ => None)
        case 3 =>
          (match n[0]
          case 'A' => Some(And)
          case 'D' => Some(Dot)
          case 'E' => Some(Eof)
          case 'F' => (match n[2] case 'N' => Some(Fun) case 'R' => Some(For) case _ => None)
          case 'N' => Some(Nil)
          case 'V' => Some(Var)
          case _ => None)
        case 4 =>
          (match n[0]
          case 'B' => Some(Bang)
          case 'E' => Some(Else)
          case 'L' => Some(Less)
          case 'P' => Some(Plus)
          case 'S' => Some(Star)
          case 'T' => (match n[3] case 'S' => Some(This) case 'E' => Some(True) case _ => None)
          case _ => None)
        case 5 =>
          (match n[0]
          case 'C' => (match n[4] case 'A' => Some(Comma) case 'S' => Some(Class) case _ => None)
          case 'E' => Some(Equal)
          case 'F' => Some(False)
          case 'M' => Some(Minus)
          case 'P' => Some(Print)
          case 'S' => (match n[4] case 'H' => Some(Slash) case 'R' => Some(Super) case _ => None)
          case 'W' => Some(While)
          case _ => None)
        case 6 =>
          (match n[0]
          case 'N' => Some(Number)
          case 'R' => Some(Return)
          case 'S' => Some(String)
          case _ => None)
        case 7 => Some(Greater)
        case 9 => Some(Semicolon)
        case 10 =>
          (match n[0]
          case 'B' => Some(BangEqual)
          case 'I' => Some(Identifier)
          case 'L' => (match n[9] case 'N' => Some(LeftParen) case 'E' => Some(LeftBrace) case 'L' => Some(LessEqual) case _ => None)
          case _ => None)
        case 11 =>
          (match n[0]
          case 'E' => Some(EqualEqual)
          case 'R' => (match n[10] case 'N' => Some(RightParen) case 'E' => Some(RightBrace) case _ => None)
          case _ => None)
        case 13 => Some(GreaterEqual)
        case _ => None;
      if candidate.Some? && EnumeratorName(candidate.value) == n then candidate else None
  }

  /** The token type a printed name stands for, if any: the inverse of `TokenTypeToStr`. */
  function StrToTokenType(s: string): (r: Option<TokenType>)
    ensures r.Some? ==> TokenTypeToStr(r.value) == s
  {
    if |s| <= |TYPE_NAME_PREFIX| || s[..|TYPE_NAME_PREFIX|] != TYPE_NAME_PREFIX then None
    else
      assert s == TYPE_NAME_PREFIX + s[|TYPE_NAME_PREFIX|..];
      NameToTokenType(s[|TYPE_NAME_PREFIX|..])
  }

  /** Reading a printed name back gives the token type that was printed. */
  lemma TokenTypeRoundTrip(t: TokenType)
    ensures StrToTokenType(TokenTypeToStr(t)) == Some(t)
  {
    NameRoundTrip(t);
  }

  /** Every enumerator name is read back as its own token type. */
  lemma NameRoundTrip(t: TokenType)
    ensures NameToTokenType(EnumeratorName(t)) == Some(t)
  {
    if t.LeftParen? || t.RightParen? || t.LeftBrace? || t.RightBrace? || t.Comma? || t.Dot? {
      NameRoundTripBrackets(t);
    } else if t.Minus? || t.Plus? || t.Semicolon? || t.Slash? || t.Star? {
      NameRoundTripArithmetic(t);
    } else if t.Bang? || t.BangEqual? || t.Equal? || t.EqualEqual? || t.Greater? || t.GreaterEqual? || t.Less? || t.LessEqual? {
      NameRoundTripOperators(t);
    } else if t.Identifier? || t.String? || t.Number? {
      NameRoundTripLiterals(t);
    } else if t.And? || t.Class? || t.Else? || t.False? || t.Fun? {
      NameRoundTripAndToFun(t);
    } else if t.For? || t.If? || t.Nil? || t.Or? || t.Print? {
      NameRoundTripForToPrint(t);
    } else if t.Return? || t.Super? || t.This? || t.True? {
      NameRoundTripReturnToTrue(t);
    } else {
      NameRoundTripVarToEof(t);
    }
  }

  lemma NameRoundTripBrackets(t: TokenType)
    requires t.LeftParen? || t.RightParen? || t.LeftBrace? || t.RightBrace? || t.Comma? || t.Dot?
    ensures NameToTokenType(EnumeratorName(t)) == Some(t)
  {
    match t {
      case LeftParen =>
      case RightParen =>
      case LeftBrace =>
      case RightBrace =>
      case Comma =>
      case Dot =>
    }
  }

  lemma NameRoundTripArithmetic(t: TokenType)
    requires t.Minus? || t.Plus? || t.Semicolon? || t.Slash? || t.Star?
    ensures NameToTokenType(EnumeratorName(t)) == Some(t)
  {
    match t {
      case Minus =>
      case Plus =>
      case Semicolon =>
      case Slash =>
      case Star =>
    }
  }

  lemma NameRoundTripOperators(t: TokenType)
    requires t.Bang? || t.BangEqual? || t.Equal? || t.EqualEqual? || t.Greater? || t.GreaterEqual? || t.Less? || t.LessEqual?
    ensures NameToTokenType(EnumeratorName(t)) == Some(t)
  {
    match t {
      case Bang =>
      case BangEqual =>
      case Equal =>
      case EqualEqual =>
      case Greater =>
      case GreaterEqual =>
      case Less =>
      case LessEqual =>
    }
  }

  lemma NameRoundTripLiterals(t: TokenType)
    requires t.Identifier? || t.String? || t.Number?
    ensures NameToTokenType(EnumeratorName(t)) == Some(t)
  {
    match t {
      case Identifier =>
      case String =>
      case Number =>
    }
  }

  lemma NameRoundTripAndToFun(t: TokenType)
    requires t.And? || t.Class? || t.Else? || t.False? || t.Fun?
    ensures NameToTokenType(EnumeratorName(t)) == Some(t)
  {
    match t {
      case And =>
      case Class =>
      case Else =>
      case False =>
      case Fun =>
    }
  }

  lemma NameRoundTripForToPrint(t: TokenType)
    requires t.For? || t.If? || t.Nil? || t.Or? || t.Print?
    ensures NameToTokenType(EnumeratorName(t)) == Some(t)
  {
    match t {
      case For =>
      case If =>
      case Nil =>
      case Or =>
      case Print =>
    }
  }

  lemma NameRoundTripReturnToTrue(t: TokenType)
    requires t.Return? || t.Super? || t.This? || t.True?
    ensures NameToTokenType(EnumeratorName(t)) == Some(t)
  {
    match t {
      case Return =>
      case Super =>
      case This =>
      case True =>
    }
  }

  lemma NameRoundTripVarToEof(t: TokenType)
    requires t.Var? || t.While? || t.Eof?
    ensures NameToTokenType(EnumeratorName(t)) == Some(t)
  {
    match t {
      case Var =>
      case While =>
      case Eof =>
    }
  }

  /** Distinct token types have distinct printed names. */
  lemma TokenTypeToStrInjective(t1: TokenType, t2: TokenType)
    ensures TokenTypeToStr(t1) == TokenTypeToStr(t2) ==> t1 == t2
  {
    TokenTypeRoundTrip(t1);
    TokenTypeRoundTrip(t2);
  }

  /**
   * A token's literal value: none, the inner text of a string, or a number.
   * The numeric value `std::stod` computes is not part of this model.
   */
  datatype Literal = NoLiteral | Text(value: string) | NumberValue

  /** A token: its type, its lexeme, its literal and the line it ends on. */
  datatype Token = Token(tokenType: TokenType, lexeme: string, literal: Literal, line: nat)

  const TYPE_LABEL := "type: "
  const LEXEME_LABEL := "lexeme: "

  /** `Token::to_string`: the type's printed name and the lexeme, each after its label, with no separator. */
  function ToString(t: Token): (s: string)
    ensures |s| == |TYPE_LABEL| + |TokenTypeToStr(t.tokenType)| + |LEXEME_LABEL| + |t.lexeme|
    ensures s[..|TYPE_LABEL|] == TYPE_LABEL && s[|s| - |t.lexeme|..] == t.lexeme
  {
    TYPE_LABEL + TokenTypeToStr(t.tokenType) + LEXEME_LABEL + t.lexeme
  }

  /**
   * Reads a printed token back: its type and lexeme. The type's name holds
   * no space, so it ends where the first space after the type label sits,
   * inside the lexeme label.
   */
  function ParseToString(s: string): Option<(TokenType, string)> {
    var start := |TYPE_LABEL|;
    if |s| < start || s[..start] != TYPE_LABEL then None
    else
      var space := FirstSpace(s, start);
      var nameEnd := space - (|LEXEME_LABEL| - 1);
      if nameEnd < start || |s| < nameEnd + |LEXEME_LABEL| || s[nameEnd..nameEnd + |LEXEME_LABEL|] != LEXEME_LABEL then None
      else
        match StrToTokenType(s[start..nameEnd])
        case None => None
        case Some(t) => Some((t, s[nameEnd + |LEXEME_LABEL|..]))
  }

  /** The printed form of a token determines its type and its lexeme. */
  lemma ToStringRoundTrip(t: Token)
    ensures ParseToString(ToString(t)) == Some((t.tokenType, t.lexeme))
  {
    var s := ToString(t);
    var name := TokenTypeToStr(t.tokenType);
    var start := |TYPE_LABEL|;
    var nameEnd := start + |name|;
    ConcatSlices(TYPE_LABEL, name, LEXEME_LABEL, t.lexeme);
    assert s[nameEnd + |LEXEME_LABEL| - 1] == ' ';
    TokenTypeRoundTrip(t.tokenType);
  }

  /** The four parts of a concatenation are its slices at the parts' boundaries. */
  lemma ConcatSlices<T>(a: seq<T>, b: seq<T>, c: seq<T>, d: seq<T>)
    ensures var s, i, j, k := a + b + c + d, |a|, |a| + |b|, |a| + |b| + |c|;
      s[..i] == a && s[i..j] == b && s[j..k] == c && s[k..] == d
  {
    var s := a + b + c + d;
    assert s[..|a|] == a;
    assert s[|a|..|a| + |b|] == b;
    assert s[|a| + |b|..|a| + |b| + |c|] == c;
  }

  /** Two tokens print alike only when their types and lexemes agree. */
  lemma ToStringInjective(t1: Token, t2: Token)
    ensures ToString(t1) == ToString(t2) ==> t1.tokenType == t2.tokenType && t1.lexeme == t2.lexeme
  {
    ToStringRoundTrip(t1);
    ToStringRoundTrip(t2);
  }
}
