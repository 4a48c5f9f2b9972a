/**
  * Token vocabulary of the language: source spans, the symbol and keyword tables with their
  * `from_str`/`to_str` conversions, and the token values every lexer produces.
  */
module Tokens {
  import opened Wrappers

  /** A byte range `[start, end)` of the source text; `Span::new` asserts `start <= end`. */
  datatype Span = Span(start: nat, end: nat)
  {
    ghost predicate Valid() { start <= end }
  }

  /** `Span::new`: panics unless `start <= end`; the accessors give back the two arguments. */
  function NewSpan(start: nat, end: nat): (r: Span)
    requires start <= end
    ensures r.Valid()
    ensures r.start == start && r.end == end && r.end - r.start == end - start
  {
    Span(start, end)
  }

  datatype Symbol =
    | Assign
    | Add | Sub | Mul | Div | Rem
    | Dot | Comma | Colon | DoubleColon | SemiColon | Pound | Dollar | Question
    | Exclaim | BitAnd | BitOr | LogAnd | LogOr | Xor
    | SimpleArrow | BoldArrow
    | Less | Greater | LessEqual | GreaterEqual | Equal | NotEqual
    | Tick

  datatype Keyword =
    | Let | Mut
    | Match | Loop
    | Break | Continue | Return
    | If | Else | While
    | Static | Comp
    | Struct | Enum | Union | Trait
    | Pub | Mod

  datatype InvalidSymbol = InvalidSymbol
  datatype InvalidKeyword = InvalidKeyword

  datatype GroupPos = Start | End
  datatype Grouping = Paren | Square | Curly

  /** The token kinds a lexer produces. A float keeps no value: floating point is not modelled. */
  datatype TokenType =
    | KeywordTok(kw: Keyword)
    | IdentTok(ident: string)
    | StrTok(text: string)
    | IntTok(value: nat)
    | FloatTok
    | SymbolTok(sym: Symbol)
    | GroupingTok(pos: GroupPos, group: Grouping)

  /** A token of kind `T` with the whitespace span before it and its own span. */
  datatype TokenValue<T> = TokenValue(ty: T, leadingWhitespace: Span, span: Span)

  type Token = TokenValue<TokenType>

  /** `Symbol::to_str`: the spelling the symbol table lists (`Tick` has its own arm). */
  function SymbolToStr(s: Symbol): string
  {
    match s
    case Assign => "="
    case Add => "+"
    case Sub => "-"
    case Mul => "*"
    case Div => "/"
    case Rem => "%"
    case Dot => "."
    case Comma => ","
    case Colon => ":"
    case DoubleColon => "::"
    case SemiColon => ";"
    case Pound => "#"
    case Dollar => "$"
    case Question => "?"
    case Exclaim => "!"
    case BitAnd => "&"
    case BitOr => "|"
    case LogAnd => "&&"
    case LogOr => "||"
    case Xor => "^"
    case SimpleArrow => "->"
    case BoldArrow => "=>"
    case Less => "<"
    case Greater => ">"
    case LessEqual => "<="
    case GreaterEqual => ">="
    case Equal => "=="
    case NotEqual => "!="
    case Tick => "'"
  }

  /** `Symbol::from_str`: one arm per table entry; the table has no entry for `Tick`. */
  function SymbolFromStr(s: string): Result<Symbol, InvalidSymbol>
  {
    match s
    case "=" => Ok(Assign)
    case "+" => Ok(Add)
    case "-" => Ok(Sub)
    case "*" => Ok(Mul)
    case "/" => Ok(Div)
    case "%" => Ok(Rem)
    case "." => Ok(Dot)
    case "," => Ok(Comma)
    case ":" => Ok(Colon)
    case "::" => Ok(DoubleColon)
    case ";" => Ok(SemiColon)
    case "#" => Ok(Pound)
    case "$" => Ok(Dollar)
    case "?" => Ok(Question)
    case "!" => Ok(Exclaim)
    case "&" => Ok(BitAnd)
    case "|" => Ok(BitOr)
    case "&&" => Ok(LogAnd)
    case "||" => Ok(LogOr)
    case "^" => Ok(Xor)
    case "->" => Ok(SimpleArrow)
    case "=>" => Ok(BoldArrow)
    case "<" => Ok(Less)
    case ">" => Ok(Greater)
    case "<=" => Ok(LessEqual)
    case ">=" => Ok(GreaterEqual)
    case "==" => Ok(Equal)
    case "!=" => Ok(NotEqual)
    case _ => Err(InvalidSymbol)
  }

  /** The spelling `stringify!` gives each keyword in the keyword table. */
  function KeywordSpelling(k: Keyword): string
  {
    match k
    case Let => "let"
    case Mut => "mut"
    case Match => "match"
    case Loop => "loop"
    case Break => "break"
    case Continue => "continue"
    case Return => "return"
    case If => "if"
    case Else => "else"
    case While => "while"
    case Static => "static"
    case Comp => "comp"
    case Struct => "struct"
    case Enum => "enum"
    case Union => "union"
    case Trait => "trait"
    case Pub => "pub"
    case Mod => "mod"
  }

  /** `Keyword::from_str`. */
  function KeywordFromStr(s: string): Result<Keyword, InvalidKeyword>
  {
    match s
    case "let" => Ok(Let)
    case "mut" => Ok(Mut)
    case "match" => Ok(Match)
    case "loop" => Ok(Loop)
    case "break" => Ok(Break)
    case "continue" => Ok(Continue)
    case "return" => Ok(Return)
    case "if" => Ok(If)
    case "else" => Ok(Else)
    case "while" => Ok(While)
    case "static" => Ok(Static)
    case "comp" => Ok(Comp)
    case "struct" => Ok(Struct)
    case "enum" => Ok(Enum)
    case "union" => Ok(Union)
    case "trait" => Ok(Trait)
    case "pub" => Ok(Pub)
    case "mod" => Ok(Mod)
    case _ => Err(InvalidKeyword)
  }

  /** Every symbol but `Tick` survives `to_str` then `from_str`. */
  lemma SymbolRoundTrip(s: Symbol)
    requires s != Tick
    ensures SymbolFromStr(SymbolToStr(s)) == Ok(s)
  {
    match s
    case Assign =>
    case Add =>
    case Sub =>
    case Mul =>
    case Div =>
    case Rem =>
    case Dot =>
    case Comma =>
    case Colon =>
    case DoubleColon =>
    case SemiColon =>
    case Pound =>
    case Dollar =>
    case Question =>
    case Exclaim =>
    case BitAnd =>
    case BitOr =>
    case LogAnd =>
    case LogOr =>
    case Xor =>
    case SimpleArrow =>
    case BoldArrow =>
    case Less =>
    case Greater =>
    case LessEqual =>
    case GreaterEqual =>
    case Equal =>
    case NotEqual =>
  }

  /** `Tick` prints as a quote, but `from_str` has no arm that reads it back. */
  lemma TickDoesNotRoundTrip()
    ensures SymbolToStr(Tick) == "'"
    ensures SymbolFromStr(SymbolToStr(Tick)).Err?
  {
  }

  /** What `from_str` accepts is exactly the `to_str` spelling of the symbol it returns. */
  lemma SymbolFromStrInverse(str: string, s: Symbol)
    ensures SymbolFromStr(str) == Ok(s) <==> s != Tick && str == SymbolToStr(s)
  {
    if s != Tick && str == SymbolToStr(s) {
      SymbolRoundTrip(s);
    }
  }

  /** Distinct accepted spellings give distinct symbols. */
  lemma SymbolFromStrInjective(a: string, b: string)
    requires SymbolFromStr(a).Ok? && SymbolFromStr(a) == SymbolFromStr(b)
    ensures a == b
  {
    SymbolFromStrInverse(a, SymbolFromStr(a).value);
    SymbolFromStrInverse(b, SymbolFromStr(b).value);
  }

  /** `Keyword::from_str` accepts exactly the keyword spellings, each for its own keyword. */
  lemma KeywordFromStrExact(str: string, k: Keyword)
    ensures KeywordFromStr(str) == Ok(k) <==> str == KeywordSpelling(k)
  {
    match k
    case Let =>
    case Mut =>
    case Match =>
    case Loop =>
    case Break =>
    case Continue =>
    case Return =>
    case If =>
    case Else =>
    case While =>
    case Static =>
    case Comp =>
    case Struct =>
    case Enum =>
    case Union =>
    case Trait =>
    case Pub =>
    case Mod =>
  }

  /** Anything that is not a keyword spelling is rejected with `InvalidKeyword`. */
  lemma KeywordFromStrRejects(str: string)
    requires forall k: Keyword :: str != KeywordSpelling(k)
    ensures KeywordFromStr(str) == Err(InvalidKeyword)
  {
    match KeywordFromStr(str)
    case Ok(k) =>
      KeywordFromStrExact(str, k);
    case Err(_) =>
  }
}
