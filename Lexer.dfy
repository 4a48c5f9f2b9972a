/**
  * The hand-written lexer: whitespace and comment skipping, `parse_token` and the typed
  * parses. `LexState` and the functions over it are the specification; the `Lexer` class
  * keeps the same three fields and updates them in place, each method proved equal to its
  * function.
  *
  * Rust's `is_alphabetic`/`is_numeric` are modelled on ASCII only; `is_whitespace` is the
  * full White_Space list, and byte lengths are exact UTF-8 lengths.
  */
module Lexer {
  import opened Wrappers
  import opened Tokens

  // ---------------------------------------------------------------------------------------
  // Characters and byte lengths

  /** `char::is_whitespace`: the Unicode White_Space code points. */
  predicate IsWhitespace(c: char)
  {
    var n := c as int;
    (0x09 <= n <= 0x0D) || n == 0x20 || n == 0x85 || n == 0xA0 || n == 0x1680
    || (0x2000 <= n <= 0x200A) || n == 0x2028 || n == 0x2029 || n == 0x202F
    || n == 0x205F || n == 0x3000
  }

  predicate IsAlphabetic(c: char) { ('a' <= c <= 'z') || ('A' <= c <= 'Z') }

  predicate IsNumeric(c: char) { '0' <= c <= '9' }

  /** The characters an identifier continues with. */
  predicate IsIdentChar(c: char) { c == '_' || IsAlphabetic(c) || IsNumeric(c) }

  /** The characters an identifier or keyword starts with. */
  predicate IsIdentStart(c: char) { c == '_' || IsAlphabetic(c) }

  /** `char::len_utf8`. */
  function Utf8Len(c: char): (n: nat)
    ensures 1 <= n <= 4
    ensures n == 1 <==> c as int < 0x80
  {
    if c as int < 0x80 then 1
    else if c as int < 0x800 then 2
    else if c as int < 0x1_0000 then 3
    else 4
  }

  /** `str::len`: the UTF-8 length of a string. */
  function ByteLen(s: string): nat
  {
    if s == [] then 0 else Utf8Len(s[0]) + ByteLen(s[1..])
  }

  lemma {:induction false} ByteLenAppend(a: string, b: string)
    ensures ByteLen(a + b) == ByteLen(a) + ByteLen(b)
  {
    if a == [] {
      assert a + b == b;
    } else {
      assert (a + b)[1..] == a[1..] + b;
      ByteLenAppend(a[1..], b);
    }
  }

  lemma ByteLenSplit(s: string, k: nat)
    requires k <= |s|
    ensures ByteLen(s) == ByteLen(s[..k]) + ByteLen(s[k..])
  {
    assert s == s[..k] + s[k..];
    ByteLenAppend(s[..k], s[k..]);
  }

  lemma ByteLenAscii(s: string)
    requires forall i :: 0 <= i < |s| ==> s[i] as int < 0x80
    ensures ByteLen(s) == |s|
  {
    if s != [] {
      ByteLenAscii(s[1..]);
    }
  }

  /**
    * `split`: the longest prefix whose characters all satisfy `f`, and the rest.
    */
  function Split(s: string, f: char -> bool): (r: (string, string))
    ensures r.0 + r.1 == s
    ensures forall i :: 0 <= i < |r.0| ==> f(r.0[i])
    ensures r.1 == [] || !f(r.1[0])
  {
    if s == [] || !f(s[0]) then ([], s)
    else
      var (p, q) := Split(s[1..], f);
      assert [s[0]] + p + q == s by { assert [s[0]] + (p + q) == [s[0]] + s[1..]; }
      ([s[0]] + p, q)
  }

  function DigitValue(c: char): nat
    requires IsNumeric(c)
  {
    c as int - '0' as int
  }

  /** The value of a string of decimal digits (`str::parse` for an unsigned integer). */
  function DecimalValue(s: string): nat
    requires forall i :: 0 <= i < |s| ==> IsNumeric(s[i])
  {
    if s == [] then 0
    else DecimalValue(s[..|s| - 1]) * 10 + DigitValue(s[|s| - 1])
  }

  // ---------------------------------------------------------------------------------------
  // The whitespace and comment scanner

  datatype Block = Normal | NewStart | NewEnd

  /** The scanner's state: `depth` counts the block comments that are open. */
  datatype ScanState = InWhitespace | InLineComment | InBlockComment(depth: nat, block: Block)

  /** Inside a comment body, or at the `/` that closes one, at least one comment is open. */
  predicate WellFormed(state: ScanState)
  {
    state.InBlockComment? && state.block != NewStart ==> state.depth >= 1
  }

  /**
    * One step of the scan over the character `a`, with `b` the character after it (`None`
    * at the end of the text). `None` stops the scan before `a`; otherwise `a` is consumed.
    */
  function ScanStep(state: ScanState, a: char, b: Option<char>): (r: Option<ScanState>)
    requires WellFormed(state)
    ensures r.Some? ==> WellFormed(r.value)
    ensures state != InWhitespace ==> r.Some?
  {
    match state
    case InWhitespace =>
      if a == '/' && b == Some('/') then Some(InLineComment)
      else if a == '/' && b == Some('*') then Some(InBlockComment(0, NewStart))
      else if IsWhitespace(a) then Some(InWhitespace)
      else None
    case InLineComment =>
      if a == '\n' then Some(InWhitespace) else Some(InLineComment)
    case InBlockComment(depth, Normal) =>
      var block :=
        if a == '/' && b == Some('*') then NewStart
        else if a == '*' && b == Some('/') then NewEnd
        else Normal;
      Some(InBlockComment(depth, block))
    case InBlockComment(depth, NewStart) =>
      Some(InBlockComment(depth + 1, Normal))
    case InBlockComment(depth, NewEnd) =>
      Some(if depth == 1 then InWhitespace else InBlockComment(depth - 1, Normal))
  }

  /**
    * The scan as written: it walks the pairs of each character with its successor, so it
    * never reaches the last character of the text. Yields the number of characters consumed.
    */
  function ScanPairs(state: ScanState, s: string): (k: nat)
    requires WellFormed(state)
    ensures k <= |s|
    ensures s != [] ==> k < |s|
    decreases |s|
  {
    if |s| < 2 then 0
    else
      match ScanStep(state, s[0], Some(s[1]))
      case None => 0
      case Some(next) => 1 + ScanPairs(next, s[1..])
  }

  /** The scan with the last character stepped too, its successor being the end of text. */
  function ScanAll(state: ScanState, s: string): (k: nat)
    requires WellFormed(state)
    ensures k <= |s|
    ensures state != InWhitespace ==> (s != [] <==> k >= 1)
    decreases |s|
  {
    if s == [] then 0
    else
      match ScanStep(state, s[0], if |s| >= 2 then Some(s[1]) else None)
      case None => 0
      case Some(next) => 1 + ScanAll(next, s[1..])
  }

  /** The two scans agree, except that where the full scan eats the whole text the pair scan stops one short. */
  lemma {:induction false} ScanPairsFallsShort(state: ScanState, s: string)
    requires WellFormed(state)
    ensures ScanPairs(state, s) == ScanAll(state, s)
            || (ScanAll(state, s) == |s| && ScanPairs(state, s) == |s| - 1)
    decreases |s|
  {
    if |s| >= 2 {
      match ScanStep(state, s[0], Some(s[1]))
      case None =>
      case Some(next) => ScanPairsFallsShort(next, s[1..]);
    }
  }

  predicate IsPlain(c: char) { c != '/' && c != '*' }

  /** Comment text without `/` or `*` is consumed a character at a time. */
  lemma {:induction false} ScanPlainText(depth: nat, t: string, rest: string)
    requires depth >= 1
    requires forall i :: 0 <= i < |t| ==> IsPlain(t[i])
    ensures ScanAll(InBlockComment(depth, Normal), t + rest)
            == |t| + ScanAll(InBlockComment(depth, Normal), rest)
  {
    if t != [] {
      var st := InBlockComment(depth, Normal);
      var s := t + rest;
      assert s[0] == t[0] && IsPlain(t[0]);
      assert s[1..] == t[1..] + rest;
      assert ScanStep(st, s[0], if |s| >= 2 then Some(s[1]) else None) == Some(st);
      assert ScanAll(st, s) == 1 + ScanAll(st, s[1..]);
      ScanPlainText(depth, t[1..], rest);
      assert ScanAll(st, t[1..] + rest) == |t| - 1 + ScanAll(st, rest);
    } else {
      assert t + rest == rest;
    }
  }

  /** A line comment runs up to and including the first newline; whitespace mode resumes after it. */
  lemma {:induction false} ScanLineComment(body: string, rest: string)
    requires forall i :: 0 <= i < |body| ==> body[i] != '\n'
    ensures ScanAll(InLineComment, body + "\n" + rest) == |body| + 1 + ScanAll(InWhitespace, rest)
  {
    if body == [] {
      assert body + "\n" + rest == "\n" + rest;
      assert ("\n" + rest)[1..] == rest;
    } else {
      assert (body + "\n" + rest)[0] == body[0];
      assert (body + "\n" + rest)[1..] == body[1..] + "\n" + rest;
      ScanLineComment(body[1..], rest);
    }
  }

  /** A piece of a block comment: text without `/` and `*`, or a nested block comment. */
  datatype Part = Text(text: string) | Nested(parts: seq<Part>)

  ghost predicate PlainParts(ps: seq<Part>)
  {
    forall i :: 0 <= i < |ps| ==>
      match ps[i]
      case Text(t) => forall j :: 0 <= j < |t| ==> IsPlain(t[j])
      case Nested(inner) => PlainParts(inner)
  }

  /** The characters of a sequence of comment pieces; a nested comment is wrapped in its delimiters. */
  function Render(ps: seq<Part>): string
    decreases ps
  {
    if ps == [] then []
    else
      var first := match ps[0]
        case Text(t) => t
        case Nested(inner) => "/*" + Render(inner) + "*/";
      first + Render(ps[1..])
  }

  // What the scan does after the closing `*` `/` of a comment opened at `depth`.
  function AfterClose(depth: nat, rest: string): nat
    requires depth >= 1
  {
    if depth == 1 then ScanAll(InWhitespace, rest) else ScanAll(InBlockComment(depth - 1, Normal), rest)
  }

  lemma ScanClose(depth: nat, rest: string)
    requires depth >= 1
    ensures ScanAll(InBlockComment(depth, Normal), "*/" + rest) == 2 + AfterClose(depth, rest)
  {
    var s := "*/" + rest;
    assert s[0] == '*' && s[1] == '/';
    assert s[1..] == "/" + rest;
    assert s[1..][1..] == rest;
  }

  lemma ScanOpen(depth: nat, rest: string)
    requires depth >= 1
    ensures ScanAll(InBlockComment(depth, Normal), "/*" + rest)
            == 2 + ScanAll(InBlockComment(depth + 1, Normal), rest)
  {
    var s := "/*" + rest;
    assert s[0] == '/' && s[1] == '*';
    assert s[1..] == "*" + rest;
    assert s[1..][1..] == rest;
  }

  lemma PlainPartsHead(ps: seq<Part>)
    requires ps != [] && PlainParts(ps) && ps[0].Nested?
    ensures PlainParts(ps[0].parts)
  {
  }

  lemma PlainPartsTail(ps: seq<Part>)
    requires ps != [] && PlainParts(ps)
    ensures PlainParts(ps[1..])
  {
    assert forall i :: 0 <= i < |ps[1..]| ==> ps[1..][i] == ps[i + 1];
  }

  lemma RenderFirst(ps: seq<Part>)
    requires ps != []
    ensures ps[0].Text? ==> Render(ps) == ps[0].text + Render(ps[1..])
    ensures ps[0].Nested? ==> Render(ps) == "/*" + Render(ps[0].parts) + "*/" + Render(ps[1..])
  {
  }

  lemma NestedShape(inner: string, after: string, rest: string)
    ensures ("/*" + inner + "*/" + after) + "*/" + rest == "/*" + (inner + "*/" + (after + "*/" + rest))
  {
  }

  /** Once the inner comment and the rest of the body are known to close, so does the whole body. */
  lemma ScanNested(depth: nat, ps: seq<Part>, rest: string)
    requires depth >= 1 && ps != [] && ps[0].Nested?
    requires ScanAll(InBlockComment(depth, Normal), Render(ps[1..]) + "*/" + rest)
             == |Render(ps[1..])| + 2 + AfterClose(depth, rest)
    requires ScanAll(InBlockComment(depth + 1, Normal), Render(ps[0].parts) + "*/" + (Render(ps[1..]) + "*/" + rest))
             == |Render(ps[0].parts)| + 2 + AfterClose(depth + 1, Render(ps[1..]) + "*/" + rest)
    ensures ScanAll(InBlockComment(depth, Normal), Render(ps) + "*/" + rest)
            == |Render(ps)| + 2 + AfterClose(depth, rest)
  {
    var tail := Render(ps[1..]) + "*/" + rest;
    var innerRest := Render(ps[0].parts) + "*/" + tail;
    RenderFirst(ps);
    NestedShape(Render(ps[0].parts), Render(ps[1..]), rest);
    ScanOpen(depth, innerRest);
  }

  // Block comments nest: inside a comment at `depth`, the body and the `*` `/` closing it
  // are consumed whole, and whitespace mode resumes only when depth 1 closes.
  lemma {:induction false} ScanCommentBody(depth: nat, ps: seq<Part>, rest: string)
    requires depth >= 1
    requires PlainParts(ps)
    ensures ScanAll(InBlockComment(depth, Normal), Render(ps) + "*/" + rest)
            == |Render(ps)| + 2 + AfterClose(depth, rest)
    decreases ps, 1
  {
    if ps == [] {
      assert Render(ps) + "*/" + rest == "*/" + rest;
      ScanClose(depth, rest);
    } else {
      ScanCommentCons(depth, ps, rest);
    }
  }

  /** `ScanCommentBody` for a body with a first piece: that piece, then the rest. */
  lemma {:induction false} ScanCommentCons(depth: nat, ps: seq<Part>, rest: string)
    requires depth >= 1 && ps != []
    requires PlainParts(ps)
    ensures ScanAll(InBlockComment(depth, Normal), Render(ps) + "*/" + rest)
            == |Render(ps)| + 2 + AfterClose(depth, rest)
    decreases ps, 0
  {
    PlainPartsTail(ps);
    ScanCommentBody(depth, ps[1..], rest);
    if ps[0].Text? {
      ScanText(depth, ps, rest);
    } else {
      PlainPartsHead(ps);
      ScanCommentBody(depth + 1, ps[0].parts, Render(ps[1..]) + "*/" + rest);
      ScanNested(depth, ps, rest);
    }
  }

  /** Plain text in front of the rest of the body is skipped character by character. */
  lemma ScanText(depth: nat, ps: seq<Part>, rest: string)
    requires depth >= 1 && ps != [] && ps[0].Text? && PlainParts(ps)
    requires ScanAll(InBlockComment(depth, Normal), Render(ps[1..]) + "*/" + rest)
             == |Render(ps[1..])| + 2 + AfterClose(depth, rest)
    ensures ScanAll(InBlockComment(depth, Normal), Render(ps) + "*/" + rest)
            == |Render(ps)| + 2 + AfterClose(depth, rest)
  {
    var t := ps[0].text;
    var tail := Render(ps[1..]) + "*/" + rest;
    RenderFirst(ps);
    assert Render(ps) + "*/" + rest == t + tail;
    assert forall j :: 0 <= j < |t| ==> IsPlain(t[j]) by { assert PlainParts(ps) && ps[0] == Text(t); }
    ScanPlainText(depth, t, tail);
  }

  /** A whole nested block comment is skipped, and whitespace mode resumes right after it. */
  lemma ScanBlockComment(ps: seq<Part>, rest: string)
    requires PlainParts(ps)
    ensures ScanAll(InWhitespace, "/*" + Render(ps) + "*/" + rest)
            == |Render(ps)| + 4 + ScanAll(InWhitespace, rest)
  {
    var body := Render(ps) + "*/" + rest;
    var s := "/*" + Render(ps) + "*/" + rest;
    assert s == "/*" + body;
    ScanCommentBody(1, ps, rest);
    ScanBlockOpener(body);
  }

  // From whitespace mode, a block-comment opener enters a block comment of depth 1.
  lemma ScanBlockOpener(body: string)
    ensures ScanAll(InWhitespace, "/*" + body) == 2 + ScanAll(InBlockComment(1, Normal), body)
  {
    var s := "/*" + body;
    assert s[0] == '/' && s[1] == '*';
    assert s[1..] == "*" + body;
    assert s[1..][1..] == body;
    assert ScanAll(InBlockComment(0, NewStart), s[1..]) == 1 + ScanAll(InBlockComment(1, Normal), body);
  }

  // ---------------------------------------------------------------------------------------
  // Lexer state and the parses, as functions

  /**
    * The lexer's fields: the unread text, the byte offset where it starts, and a whitespace
    * span stashed by a failed typed parse.
    */
  datatype LexState = LexState(input: string, start: nat, leadingWhitespace: Option<Span>)
  {
    /**
      * A stashed whitespace span ends where the unread text starts, and the text after it
      * holds no further whitespace or comment.
      */
    ghost predicate Valid()
    {
      leadingWhitespace.Some? ==>
        leadingWhitespace.value.start <= leadingWhitespace.value.end == start && !OpensWhitespace(input)
    }

    /** The byte offset of the end of the text. */
    function End(): nat { start + ByteLen(input) }
  }

  /** Consume `k` characters: `start` moves past their bytes and the stash is cleared. */
  function Advance(st: LexState, k: nat): (r: LexState)
    requires k <= |st.input|
    ensures r.input == st.input[k..] && r.leadingWhitespace.None?
    ensures r.start == st.start + ByteLen(st.input[..k])
    ensures r.End() == st.End()
  {
    ByteLenSplit(st.input, k);
    LexState(st.input[k..], st.start + ByteLen(st.input[..k]), None)
  }

  /** Whether `parse_whitespace` enters its scan: a whitespace character, `//` or a block-comment opener. */
  predicate OpensWhitespace(s: string)
  {
    s != [] && (IsWhitespace(s[0]) || (|s| >= 2 && s[0] == '/' && (s[1] == '/' || s[1] == '*')))
  }

  /** `parse_whitespace` after a scan measured `k` characters. */
  function SkipScanned(st: LexState, k: nat): (r: (Option<Span>, LexState))
    requires k <= |st.input|
  {
    var next := Advance(st, k);
    (Some(Span(st.start, next.start)), next)
  }

  /** `parse_whitespace` as written, with the pair scan. */
  function WhitespaceAsWritten(st: LexState): (Option<Span>, LexState)
  {
    if st.leadingWhitespace.Some? then (st.leadingWhitespace, st.(leadingWhitespace := None))
    else if st.input == [] then (None, st)
    else if OpensWhitespace(st.input) then SkipScanned(st, ScanPairs(InWhitespace, st.input))
    else (Some(Span(st.start, st.start)), st)
  }

  /**
    * `parse_whitespace`, with the scan stepping the final character too: a stashed span is
    * handed back without reading; otherwise the span of the whitespace and comments skipped.
    * `None` only when nothing is stashed and the text is used up.
    */
  function Whitespace(st: LexState): (Option<Span>, LexState)
  {
    if st.leadingWhitespace.Some? then (st.leadingWhitespace, st.(leadingWhitespace := None))
    else if st.input == [] then (None, st)
    else if OpensWhitespace(st.input) then SkipScanned(st, ScanAll(InWhitespace, st.input))
    else (Some(Span(st.start, st.start)), st)
  }

  /** A failed typed parse puts the whitespace span back for the next parse. */
  function Stash(st: LexState, ws: Span): LexState
  {
    st.(leadingWhitespace := Some(ws))
  }

  function TwoCharSymbol(s: string): Option<Symbol>
  {
    match s
    case "=>" => Some(BoldArrow)
    case "->" => Some(SimpleArrow)
    case "<=" => Some(LessEqual)
    case ">=" => Some(GreaterEqual)
    case "==" => Some(Equal)
    case "!=" => Some(NotEqual)
    case "::" => Some(DoubleColon)
    case _ => None
  }

  function OneCharSymbol(c: char): Option<Symbol>
  {
    match c
    case '+' => Some(Add)
    case '-' => Some(Sub)
    case '*' => Some(Mul)
    case '/' => Some(Div)
    case '%' => Some(Rem)
    case '.' => Some(Dot)
    case ',' => Some(Comma)
    case ':' => Some(Colon)
    case ';' => Some(SemiColon)
    case '#' => Some(Pound)
    case '$' => Some(Dollar)
    case '?' => Some(Question)
    case '!' => Some(Exclaim)
    case '&' => Some(BitAnd)
    case '|' => Some(BitOr)
    case '^' => Some(Xor)
    case '=' => Some(Assign)
    case '>' => Some(Greater)
    case '<' => Some(Less)
    case '\'' => Some(Tick)
    case _ => None
  }

  function GroupingOf(c: char): Option<(GroupPos, Grouping)>
  {
    match c
    case '(' => Some((Start, Paren))
    case ')' => Some((End, Paren))
    case '[' => Some((Start, Square))
    case ']' => Some((End, Square))
    case '{' => Some((Start, Curly))
    case '}' => Some((End, Curly))
    case _ => None
  }

  /** The one-character table of `parse_token`: the groupings, then the symbols. */
  function OneCharToken(c: char): Option<TokenType>
  {
    match GroupingOf(c)
    case Some((pos, g)) => Some(GroupingTok(pos, g))
    case None =>
      match OneCharSymbol(c)
      case Some(y) => Some(SymbolTok(y))
      case None => None
  }

  /**
    * The string-literal scan: the first character is always taken, then characters up to
    * an unescaped `"`; a backslash makes the next character be taken whatever it is.
    */
  function StrScan(s: string, keep: bool): (k: nat)
    ensures k <= |s|
    ensures k == |s| || (!(keep && k == 0) && s[k] == '"')
    ensures keep && s != [] ==> k >= 1
  {
    if s == [] then 0
    else if keep then 1 + StrScan(s[1..], false)
    else if s[0] != '"' then 1 + StrScan(s[1..], s[0] == '\\')
    else 0
  }

  /** A successful parse of `k` characters into a token of kind `ty`. */
  function Emit<T>(st: LexState, ws: Span, ty: T, k: nat): (r: (Option<TokenValue<T>>, LexState))
    requires k <= |st.input|
  {
    var next := Advance(st, k);
    (Some(TokenValue(ty, ws, Span(st.start, next.start))), next)
  }

  /** A word is its keyword if it spells one, and an identifier otherwise. */
  function WordType(w: string): TokenType
  {
    match KeywordFromStr(w)
    case Ok(kw) => KeywordTok(kw)
    case Err(_) => IdentTok(w)
  }

  /** `parse_token` once whitespace is behind it and the text is not used up. */
  function LexAt(st: LexState, ws: Span): (Option<Token>, LexState)
    requires st.input != []
  {
    var c := st.input[0];
    if IsIdentStart(c) then
      var ident := Split(st.input, IsIdentChar).0;
      Emit(st, ws, WordType(ident), |ident|)
    else if IsNumeric(c) then
      var (digits, rest) := Split(st.input, IsNumeric);
      var dec := if rest != [] && rest[0] == '.' then Split(rest[1..], IsNumeric).0 else [];
      if dec != [] then Emit(st, ws, FloatTok, |digits| + 1 + |dec|)
      else Emit(st, ws, IntTok(DecimalValue(digits)), |digits|)
    else if c == '"' then
      var k := StrScan(st.input, true);
      if k < |st.input| then Emit(st, ws, StrTok(st.input[1..k]), k + 1)
      else (None, LexState([], st.start, None))
    else if |st.input| >= 2 && TwoCharSymbol(st.input[..2]).Some? then
      Emit(st, ws, SymbolTok(TwoCharSymbol(st.input[..2]).value), 2)
    else
      match OneCharToken(c)
      case Some(ty) => Emit(st, ws, ty, 1)
      case None => (None, st)
  }

  /** `parse_token`. */
  function NextToken(st: LexState): (Option<Token>, LexState)
  {
    var (ws, st1) := Whitespace(st);
    if ws.None? || st1.input == [] then (None, st1) else LexAt(st1, ws.value)
  }

  /** `parse_keyword` as written: a word that is no keyword at all drops the whitespace span. */
  function NextKeywordAsWritten(st: LexState, kw: Option<Keyword>): (Option<TokenValue<Keyword>>, LexState)
  {
    var (ws, st1) := Whitespace(st);
    if ws.None? then (None, st1)
    else
      var ident := Split(st1.input, IsIdentChar).0;
      match KeywordFromStr(ident)
      case Err(_) => (None, st1)
      case Ok(ty) =>
        if kw.None? || kw == Some(ty) then Emit(st1, ws.value, ty, |ident|)
        else (None, Stash(st1, ws.value))
  }

  /** `parse_keyword`, stashing the whitespace span on every failure. */
  function NextKeyword(st: LexState, kw: Option<Keyword>): (Option<TokenValue<Keyword>>, LexState)
  {
    var (ws, st1) := Whitespace(st);
    if ws.None? then (None, st1)
    else
      var ident := Split(st1.input, IsIdentChar).0;
      match KeywordFromStr(ident)
      case Err(_) => (None, Stash(st1, ws.value))
      case Ok(ty) =>
        if kw.None? || kw == Some(ty) then Emit(st1, ws.value, ty, |ident|)
        else (None, Stash(st1, ws.value))
  }

  /** `parse_ident`: a word that is not a keyword. */
  function NextIdent(st: LexState): (Option<TokenValue<string>>, LexState)
  {
    var (ws, st1) := Whitespace(st);
    if ws.None? then (None, st1)
    else
      var ident := Split(st1.input, IsIdentChar).0;
      if ident != [] && KeywordFromStr(ident).Err? then Emit(st1, ws.value, ident, |ident|)
      else (None, Stash(st1, ws.value))
  }

  /** A string literal at the head of the text; an unterminated one empties the text. */
  function LexStr(st: LexState, ws: Span): (Option<TokenValue<string>>, LexState)
  {
    var k := StrScan(st.input, true);
    if k < |st.input| then Emit(st, ws, st.input[1..k], k + 1)
    else (None, LexState([], st.start, None))
  }

  /** `parse_str` as written: it gives up when the text DOES start with a quote. */
  function NextStrAsWritten(st: LexState): (Option<TokenValue<string>>, LexState)
  {
    var (ws, st1) := Whitespace(st);
    if ws.None? then (None, st1)
    else if st1.input != [] && st1.input[0] == '"' then (None, Stash(st1, ws.value))
    else LexStr(st1, ws.value)
  }

  /** `parse_str`, giving up unless the text starts with a quote. */
  function NextStr(st: LexState): (Option<TokenValue<string>>, LexState)
  {
    var (ws, st1) := Whitespace(st);
    if ws.None? then (None, st1)
    else if !(st1.input != [] && st1.input[0] == '"') then (None, Stash(st1, ws.value))
    else LexStr(st1, ws.value)
  }

  /** `parse_int`: a run of decimal digits. */
  function NextInt(st: LexState): (Option<TokenValue<nat>>, LexState)
  {
    var (ws, st1) := Whitespace(st);
    if ws.None? then (None, st1)
    else
      var digits := Split(st1.input, IsNumeric).0;
      if digits != [] then Emit(st1, ws.value, DecimalValue(digits), |digits|)
      else (None, Stash(st1, ws.value))
  }

  /**
    * `parse_sym`: the two-character table first; when it has no entry, or its entry is not
    * the symbol asked for, the one-character table.
    */
  function NextSym(st: LexState, sym: Option<Symbol>): (Option<TokenValue<Symbol>>, LexState)
  {
    var (ws, st1) := Whitespace(st);
    if ws.None? then (None, st1)
    else
      var s := st1.input;
      if |s| >= 2 && TwoCharSymbol(s[..2]).Some? && (sym.None? || sym == TwoCharSymbol(s[..2])) then
        Emit(st1, ws.value, TwoCharSymbol(s[..2]).value, 2)
      else if s != [] && OneCharSymbol(s[0]).Some? && (sym.None? || sym == OneCharSymbol(s[0])) then
        Emit(st1, ws.value, OneCharSymbol(s[0]).value, 1)
      else (None, Stash(st1, ws.value))
  }

  /** `parse_grouping`. */
  function NextGrouping(st: LexState, g: Option<(GroupPos, Grouping)>): (Option<TokenValue<(GroupPos, Grouping)>>, LexState)
  {
    var (ws, st1) := Whitespace(st);
    if ws.None? then (None, st1)
    else
      var s := st1.input;
      if s != [] && GroupingOf(s[0]).Some? && (g.None? || g == GroupingOf(s[0])) then
        Emit(st1, ws.value, GroupingOf(s[0]).value, 1)
      else (None, Stash(st1, ws.value))
  }

  // ---------------------------------------------------------------------------------------
  // Properties of the lexer

  /** The scan stops at the end of the text or before something that opens no whitespace. */
  lemma {:induction false} ScanAllStops(state: ScanState, s: string)
    requires WellFormed(state)
    ensures ScanAll(state, s) == |s| || !OpensWhitespace(s[ScanAll(state, s)..])
    decreases |s|
  {
    if s != [] {
      match ScanStep(state, s[0], if |s| >= 2 then Some(s[1]) else None)
      case None =>
      case Some(next) =>
        ScanAllStops(next, s[1..]);
        assert s[1..][ScanAll(next, s[1..])..] == s[ScanAll(state, s)..];
    }
  }

  /**
    * `parse_whitespace`: a stashed span comes back as it is and nothing is read; otherwise
    * the span starts at `start` and ends where the unread text now starts. It fails only when
    * nothing is stashed and the text is used up, and no byte goes missing.
    */
  lemma WhitespaceFacts(st: LexState)
    requires st.Valid()
    ensures var (ws, st1) := Whitespace(st);
      && st1.Valid() && st1.leadingWhitespace.None? && st1.End() == st.End()
      && (ws.None? <==> st.leadingWhitespace.None? && st.input == [])
      && (ws.None? ==> st1 == st)
      && (st.leadingWhitespace.Some? ==> ws == st.leadingWhitespace && st1.input == st.input && st1.start == st.start)
      && (st.leadingWhitespace.None? && ws.Some? ==> ws.value.start == st.start)
      && (ws.Some? ==> ws.value.start <= ws.value.end == st1.start)
      && (st1.input == [] || !OpensWhitespace(st1.input))
      && |st1.input| <= |st.input| && st1.input == st.input[|st.input| - |st1.input|..]
  {
    if st.leadingWhitespace.None? && st.input != [] && OpensWhitespace(st.input) {
      ScanAllStops(InWhitespace, st.input);
    }
  }

  /** The properties every parse keeps: a valid state and no byte lost; a token covers exactly what was consumed. */
  ghost predicate Consumes<T>(st: LexState, r: (Option<TokenValue<T>>, LexState))
  {
    && r.1.Valid()
    && r.1.End() == st.End()
    && (r.0.Some? ==>
          && r.1.leadingWhitespace.None?
          && r.0.value.leadingWhitespace.start <= r.0.value.leadingWhitespace.end == r.0.value.span.start
          && st.start <= r.0.value.span.start <= r.0.value.span.end == r.1.start)
  }

  lemma EmitFacts<T>(st: LexState, ws: Span, ty: T, k: nat)
    requires k <= |st.input| && ws.start <= ws.end == st.start
    ensures Consumes(st, Emit(st, ws, ty, k))
    ensures Emit(st, ws, ty, k).0.value.ty == ty
  {
  }

  /**
    * `parse_token`: a token's whitespace ends where the token starts and the token ends where
    * the unread text starts, with no byte lost. A failure is final: the next call fails too.
    * The one path that loses bytes is the unterminated string literal, which empties the
    * text without moving `start`.
    */
  lemma NextTokenFacts(st: LexState)
    requires st.Valid()
    ensures var (t, st1) := NextToken(st);
      && st1.Valid()
      && (t.Some? ==> Consumes(st, NextToken(st)))
      && (t.None? ==> NextToken(st1).0.None?)
      && (t.None? ==> st1.End() == st.End() || (st1.input == [] && st1.start <= st.End()))
  {
    var (ws, st1) := Whitespace(st);
    WhitespaceFacts(st);
    if ws.Some? && st1.input != [] {
      NextTokenAt(st, ws.value, st1);
    } else {
      assert NextToken(st) == (None, st1);
      assert Whitespace(st1) == (None, st1);
    }
  }

  /** `NextTokenFacts` once `parse_whitespace` has found the text `st1` not used up. */
  lemma NextTokenAt(st: LexState, ws: Span, st1: LexState)
    requires Whitespace(st) == (Some(ws), st1)
    requires st1.Valid() && st1.leadingWhitespace.None? && st1.input != [] && !OpensWhitespace(st1.input)
    requires st1.End() == st.End() && ws.start <= ws.end == st1.start && st.start <= st1.start
    ensures var (t, st2) := NextToken(st);
      && st2.Valid()
      && (t.Some? ==> Consumes(st, NextToken(st)))
      && (t.None? ==> NextToken(st2).0.None?)
      && (t.None? ==> st2.End() == st.End() || (st2.input == [] && st2.start <= st.End()))
  {
    assert NextToken(st) == LexAt(st1, ws);
    LexAtFacts(st, ws, st1);
    var st2 := LexAt(st1, ws).1;
    if LexAt(st1, ws).0.None? && st2 == st1 {
      var empty := Span(st1.start, st1.start);
      assert Whitespace(st1) == (Some(empty), st1);
      assert NextToken(st1) == LexAt(st1, empty);
    } else if LexAt(st1, ws).0.None? {
      assert NextToken(st2) == (None, st2);
    }
  }

  /**
    * The token `LexAt` reads covers what it consumed; when it reads none it either leaves the
    * state as it was or, on an unterminated literal, empties the text.
    */
  lemma LexAtFacts(st: LexState, ws: Span, st1: LexState)
    requires st1.Valid() && st1.leadingWhitespace.None? && st1.input != [] && !OpensWhitespace(st1.input)
    requires st1.End() == st.End() && ws.start <= ws.end == st1.start && st.start <= st1.start
    ensures var (t, st2) := LexAt(st1, ws);
      && st2.Valid()
      && (t.Some? ==> Consumes(st, LexAt(st1, ws)))
      && (t.None? ==> st2 == st1 || st2 == LexState([], st1.start, None))
      && (t.None? && st2 == st1 ==> forall ws' :: LexAt(st1, ws').0.None?)
  {
    var c := st1.input[0];
    if IsIdentStart(c) {
      var ident := Split(st1.input, IsIdentChar).0;
      EmitFacts(st1, ws, WordType(ident), |ident|);
    } else if IsNumeric(c) {
      var (digits, rest) := Split(st1.input, IsNumeric);
      var dec := if rest != [] && rest[0] == '.' then Split(rest[1..], IsNumeric).0 else [];
      if dec != [] {
        EmitFacts(st1, ws, FloatTok, |digits| + 1 + |dec|);
      } else {
        EmitFacts(st1, ws, IntTok(DecimalValue(digits)), |digits|);
      }
    } else if c == '"' {
      var k := StrScan(st1.input, true);
      if k < |st1.input| {
        EmitFacts(st1, ws, StrTok(st1.input[1..k]), k + 1);
      }
    } else if |st1.input| >= 2 && TwoCharSymbol(st1.input[..2]).Some? {
      EmitFacts(st1, ws, SymbolTok(TwoCharSymbol(st1.input[..2]).value), 2);
    } else if OneCharToken(c).Some? {
      EmitFacts(st1, ws, OneCharToken(c).value, 1);
    }
  }

  /** After a failure of `parse_token` every later call fails as well. */
  lemma {:induction false} NoTokenAfterFailure(st: LexState, n: nat)
    requires st.Valid() && NextToken(st).0.None?
    ensures NextTokenAfter(st, n).Valid() && NextToken(NextTokenAfter(st, n)).0.None?
    decreases n
  {
    NextTokenFacts(st);
    if n > 0 {
      NoTokenAfterFailure(NextToken(st).1, n - 1);
    }
  }

  /** The state after `n` calls of `parse_token`. */
  function NextTokenAfter(st: LexState, n: nat): LexState
    decreases n
  {
    if n == 0 then st else NextTokenAfter(NextToken(st).1, n - 1)
  }

  /** A stash is handed back by the next `parse_whitespace` with the state it was taken from. */
  lemma StashComesBack(st: LexState, ws: Span)
    requires st.leadingWhitespace.None?
    ensures Whitespace(Stash(st, ws)) == (Some(ws), st)
  {
  }

  /**
    * A failed typed parse leaves no trace: the next `parse_whitespace`, and so every parse
    * after it, sees exactly what it would have seen had the failed parse not been made.
    */
  lemma KeywordFailureIsInvisible(st: LexState, kw: Option<Keyword>)
    requires st.Valid()
    ensures NextKeyword(st, kw).0.None? ==> Whitespace(NextKeyword(st, kw).1) == Whitespace(st)
  {
    WhitespaceFacts(st);
  }

  lemma IdentFailureIsInvisible(st: LexState)
    requires st.Valid()
    ensures NextIdent(st).0.None? ==> Whitespace(NextIdent(st).1) == Whitespace(st)
  {
    WhitespaceFacts(st);
  }

  lemma IntFailureIsInvisible(st: LexState)
    requires st.Valid()
    ensures NextInt(st).0.None? ==> Whitespace(NextInt(st).1) == Whitespace(st)
  {
    WhitespaceFacts(st);
  }

  lemma SymFailureIsInvisible(st: LexState, sym: Option<Symbol>)
    requires st.Valid()
    ensures NextSym(st, sym).0.None? ==> Whitespace(NextSym(st, sym).1) == Whitespace(st)
  {
    WhitespaceFacts(st);
  }

  lemma GroupingFailureIsInvisible(st: LexState, g: Option<(GroupPos, Grouping)>)
    requires st.Valid()
    ensures NextGrouping(st, g).0.None? ==> Whitespace(NextGrouping(st, g).1) == Whitespace(st)
  {
    WhitespaceFacts(st);
  }

  /** `parse_str` fails without trace when no quote follows; an unterminated literal empties the text. */
  lemma StrFailure(st: LexState)
    requires st.Valid()
    ensures var (ws, st1) := Whitespace(st);
      NextStr(st).0.None? ==>
        if st1.input != [] && st1.input[0] == '"' then NextStr(st).1 == LexState([], st1.start, None)
        else Whitespace(NextStr(st).1) == Whitespace(st)
  {
    WhitespaceFacts(st);
  }

  lemma StashConsumes<T>(st: LexState, st1: LexState, ws: Span)
    requires st1.Valid() && st1.End() == st.End() && ws.start <= ws.end == st1.start
    requires st1.input == [] || !OpensWhitespace(st1.input)
    ensures Consumes<T>(st, (None, Stash(st1, ws)))
  {
  }

  lemma KeywordConsumes(st: LexState, kw: Option<Keyword>)
    requires st.Valid()
    ensures Consumes(st, NextKeyword(st, kw))
  {
    WhitespaceFacts(st);
    var (ws, st1) := Whitespace(st);
    if ws.Some? {
      var ident := Split(st1.input, IsIdentChar).0;
      StashConsumes<Keyword>(st, st1, ws.value);
      match KeywordFromStr(ident)
      case Err(_) =>
        assert NextKeyword(st, kw) == (None, Stash(st1, ws.value));
      case Ok(ty) =>
        if kw.None? || kw == Some(ty) {
          EmitFacts(st1, ws.value, ty, |ident|);
          assert NextKeyword(st, kw) == Emit(st1, ws.value, ty, |ident|);
        } else {
          assert NextKeyword(st, kw) == (None, Stash(st1, ws.value));
        }
    }
  }

  lemma IdentConsumes(st: LexState)
    requires st.Valid()
    ensures Consumes(st, NextIdent(st))
  {
    WhitespaceFacts(st);
    var (ws, st1) := Whitespace(st);
    if ws.Some? {
      var ident := Split(st1.input, IsIdentChar).0;
      if ident != [] && KeywordFromStr(ident).Err? {
        EmitFacts(st1, ws.value, ident, |ident|);
        assert NextIdent(st) == Emit(st1, ws.value, ident, |ident|);
      } else {
        StashConsumes<string>(st, st1, ws.value);
        assert NextIdent(st) == (None, Stash(st1, ws.value));
      }
    }
  }

  lemma IntConsumes(st: LexState)
    requires st.Valid()
    ensures Consumes(st, NextInt(st))
  {
    WhitespaceFacts(st);
    var (ws, st1) := Whitespace(st);
    if ws.Some? {
      var digits := Split(st1.input, IsNumeric).0;
      if digits != [] {
        EmitFacts(st1, ws.value, DecimalValue(digits), |digits|);
        assert NextInt(st) == Emit(st1, ws.value, DecimalValue(digits), |digits|);
      } else {
        StashConsumes<nat>(st, st1, ws.value);
        assert NextInt(st) == (None, Stash(st1, ws.value));
      }
    }
  }

  /** The two arms of `parse_sym` that emit a symbol. */
  lemma SymEmits(st: LexState, sym: Option<Symbol>, ws: Span, st1: LexState)
    requires st.Valid() && Whitespace(st) == (Some(ws), st1)
    requires st1.Valid() && st1.End() == st.End() && ws.start <= ws.end == st1.start && st.start <= st1.start
    requires st1.input == [] || !OpensWhitespace(st1.input)
    ensures Consumes(st, NextSym(st, sym))
  {
    var s := st1.input;
    if |s| >= 2 && TwoCharSymbol(s[..2]).Some? && (sym.None? || sym == TwoCharSymbol(s[..2])) {
      EmitFacts(st1, ws, TwoCharSymbol(s[..2]).value, 2);
    } else if s != [] && OneCharSymbol(s[0]).Some? && (sym.None? || sym == OneCharSymbol(s[0])) {
      EmitFacts(st1, ws, OneCharSymbol(s[0]).value, 1);
    } else {
      StashConsumes<Symbol>(st, st1, ws);
    }
  }

  lemma SymConsumes(st: LexState, sym: Option<Symbol>)
    requires st.Valid()
    ensures Consumes(st, NextSym(st, sym))
  {
    WhitespaceFacts(st);
    var (ws, st1) := Whitespace(st);
    if ws.Some? {
      SymEmits(st, sym, ws.value, st1);
    }
  }

  /**
    * `parse_str` keeps the state valid, and a literal it reads covers what was consumed; the
    * unterminated literal is the one failure that loses text, so no more is claimed there.
    */
  lemma StrConsumes(st: LexState)
    requires st.Valid()
    ensures NextStr(st).1.Valid()
    ensures NextStr(st).0.Some? ==> Consumes(st, NextStr(st))
  {
    WhitespaceFacts(st);
    var (ws, st1) := Whitespace(st);
    if ws.Some? && st1.input != [] && st1.input[0] == '"' {
      var k := StrScan(st1.input, true);
      if k < |st1.input| {
        EmitFacts(st1, ws.value, st1.input[1..k], k + 1);
      }
    }
  }

  lemma GroupingConsumes(st: LexState, g: Option<(GroupPos, Grouping)>)
    requires st.Valid()
    ensures Consumes(st, NextGrouping(st, g))
  {
    WhitespaceFacts(st);
    var (ws, st1) := Whitespace(st);
    if ws.Some? {
      var s := st1.input;
      if s != [] && GroupingOf(s[0]).Some? && (g.None? || g == GroupingOf(s[0])) {
        EmitFacts(st1, ws.value, GroupingOf(s[0]).value, 1);
        assert NextGrouping(st, g) == Emit(st1, ws.value, GroupingOf(s[0]).value, 1);
      } else {
        StashConsumes<(GroupPos, Grouping)>(st, st1, ws.value);
        assert NextGrouping(st, g) == (None, Stash(st1, ws.value));
      }
    }
  }

  // ---------------------------------------------------------------------------------------
  // What the lexer reads back

  /** `split` returns exactly the maximal prefix: any split of that shape is the one it finds. */
  lemma SplitIsMaximal(w: string, rest: string, f: char -> bool)
    requires forall i :: 0 <= i < |w| ==> f(w[i])
    requires rest == [] || !f(rest[0])
    ensures Split(w + rest, f) == (w, rest)
  {
    var (p, q) := Split(w + rest, f);
    assert p == (w + rest)[..|p|] && w == (w + rest)[..|w|];
  }

  /** With no whitespace ahead, `parse_token` goes straight to the token with an empty whitespace span. */
  lemma NoWhitespaceAhead(st: LexState)
    requires st.leadingWhitespace.None? && st.input != [] && !OpensWhitespace(st.input)
    ensures NextToken(st) == LexAt(st, Span(st.start, st.start))
  {
    assert Whitespace(st) == (Some(Span(st.start, st.start)), st);
  }

  /** Text starting with an ASCII character other than whitespace and `/` opens no whitespace. */
  lemma PlainHead(s: string)
    requires s != [] && s[0] as int < 0x80 && !IsWhitespace(s[0]) && s[0] != '/'
    ensures !OpensWhitespace(s)
  {
  }

  lemma WordAt(st: LexState, ws: Span, w: string, rest: string)
    requires st.input == w + rest && w != [] && IsIdentStart(w[0])
    requires forall i :: 0 <= i < |w| ==> IsIdentChar(w[i])
    requires rest == [] || !IsIdentChar(rest[0])
    ensures LexAt(st, ws) == Emit(st, ws, WordType(w), |w|)
  {
    assert st.input[0] == w[0];
    SplitIsMaximal(w, rest, IsIdentChar);
  }

  lemma EmitPrefix<T>(st: LexState, ws: Span, ty: T, w: string, rest: string)
    requires st.input == w + rest
    ensures var (t, next) := Emit(st, ws, ty, |w|);
      && t.Some? && t.value.ty == ty && t.value.leadingWhitespace == ws
      && t.value.span == Span(st.start, st.start + ByteLen(w))
      && next == LexState(rest, st.start + ByteLen(w), None)
  {
    assert st.input[..|w|] == w && st.input[|w|..] == rest;
  }

  /** A word at the head of the text is lexed as its keyword, or else as an identifier with its own text. */
  lemma WordLexes(w: string, rest: string, p: nat)
    requires w != [] && IsIdentStart(w[0])
    requires forall i :: 0 <= i < |w| ==> IsIdentChar(w[i])
    requires rest == [] || !IsIdentChar(rest[0])
    ensures var (t, next) := NextToken(LexState(w + rest, p, None));
      && t.Some? && t.value.ty == WordType(w)
      && t.value.leadingWhitespace == Span(p, p) && t.value.span == Span(p, p + ByteLen(w))
      && next == LexState(rest, p + ByteLen(w), None)
  {
    var st := LexState(w + rest, p, None);
    EmitPrefix(st, Span(p, p), WordType(w), w, rest);
    WordToken(st, w, rest);
  }

  /** A word opens no whitespace, so `parse_token` goes straight to the word. */
  lemma WordToken(st: LexState, w: string, rest: string)
    requires st.leadingWhitespace.None? && st.input == w + rest && w != [] && IsIdentStart(w[0])
    requires forall i :: 0 <= i < |w| ==> IsIdentChar(w[i])
    requires rest == [] || !IsIdentChar(rest[0])
    ensures NextToken(st) == Emit(st, Span(st.start, st.start), WordType(w), |w|)
  {
    assert st.input[0] == w[0];
    PlainHead(st.input);
    NoWhitespaceAhead(st);
    WordAt(st, Span(st.start, st.start), w, rest);
  }

  lemma DigitsAt(st: LexState, ws: Span, d: string, rest: string)
    requires st.input == d + rest
    requires d != [] && forall i :: 0 <= i < |d| ==> IsNumeric(d[i])
    requires rest == [] || !IsNumeric(rest[0])
    requires !(|rest| >= 2 && rest[0] == '.' && IsNumeric(rest[1]))
    ensures LexAt(st, ws) == Emit(st, ws, IntTok(DecimalValue(d)), |d|)
  {
    assert st.input[0] == d[0] && !IsIdentStart(d[0]) && IsNumeric(d[0]);
    SplitIsMaximal(d, rest, IsNumeric);
    if rest != [] && rest[0] == '.' {
      assert rest[1..] == [] || !IsNumeric(rest[1..][0]);
      assert Split(rest[1..], IsNumeric).0 == [];
    }
  }

  /**
    * A run of digits not followed by a fractional part is an integer of that decimal value;
    * a `.` with no digit after it is left for the next token.
    */
  lemma DigitsLex(d: string, rest: string, p: nat)
    requires d != [] && forall i :: 0 <= i < |d| ==> IsNumeric(d[i])
    requires rest == [] || !IsNumeric(rest[0])
    requires !(|rest| >= 2 && rest[0] == '.' && IsNumeric(rest[1]))
    ensures var (t, next) := NextToken(LexState(d + rest, p, None));
      && t.Some? && t.value.ty == IntTok(DecimalValue(d))
      && t.value.leadingWhitespace == Span(p, p) && t.value.span == Span(p, p + |d|)
      && next == LexState(rest, p + |d|, None)
  {
    var st := LexState(d + rest, p, None);
    assert st.input[0] == d[0];
    NoWhitespaceAhead(st);
    DigitsAt(st, Span(p, p), d, rest);
    EmitPrefix(st, Span(p, p), IntTok(DecimalValue(d)), d, rest);
    ByteLenAscii(d);
  }

  /** Text with every quote and backslash preceded by a backslash. */
  function Escape(t: string): (e: string)
    ensures |e| >= |t|
  {
    if t == [] then []
    else EscapeChar(t[0]) + Escape(t[1..])
  }

  /** The literal scan runs through escaped text up to the quote after it. */
  lemma {:induction false} StrScanEscaped(t: string, rest: string)
    ensures StrScan(Escape(t) + "\"" + rest, false) == |Escape(t)|
  {
    if t == [] {
      assert Escape(t) + "\"" + rest == "\"" + rest;
    } else {
      var tail := Escape(t[1..]) + "\"" + rest;
      assert Escape(t) == EscapeChar(t[0]) + Escape(t[1..]);
      assert Escape(t) + "\"" + rest == EscapeChar(t[0]) + tail;
      StrScanEscaped(t[1..], rest);
      StrScanEscapedChar(t[0], tail);
    }
  }

  /** One escaped character: a quote or backslash behind a backslash, anything else as it is. */
  function EscapeChar(c: char): (e: string)
  {
    if c == '"' || c == '\\' then ['\\', c] else [c]
  }

  lemma StrScanEscapedChar(c: char, tail: string)
    ensures StrScan(EscapeChar(c) + tail, false) == |EscapeChar(c)| + StrScan(tail, false)
  {
    var s := EscapeChar(c) + tail;
    if |EscapeChar(c)| == 2 {
      assert s[0] == '\\' && s[1..] == [c] + tail;
      assert ([c] + tail)[1..] == tail;
    } else {
      assert s[0] == c && s[1..] == tail;
    }
  }

  lemma StringAt(st: LexState, ws: Span, t: string, rest: string)
    requires st.input == "\"" + Escape(t) + "\"" + rest
    ensures LexAt(st, ws) == Emit(st, ws, StrTok(Escape(t)), |Escape(t)| + 2)
  {
    var e := Escape(t);
    assert st.input[1..] == e + "\"" + rest;
    StrScanEscaped(t, rest);
    assert StrScan(st.input, true) == 1 + |e|;
    assert st.input[1..1 + |e|] == e;
  }

  /**
    * A string literal whose body is escaped text is read back as one string token; the token
    * holds the body as written, escapes included.
    */
  lemma StringLexes(t: string, rest: string, p: nat)
    ensures var e := Escape(t);
      var (tok, next) := NextToken(LexState("\"" + e + "\"" + rest, p, None));
      && tok.Some? && tok.value.ty == StrTok(e)
      && tok.value.leadingWhitespace == Span(p, p) && tok.value.span == Span(p, p + ByteLen(e) + 2)
      && next == LexState(rest, p + ByteLen(e) + 2, None)
  {
    var e := Escape(t);
    var st := LexState("\"" + e + "\"" + rest, p, None);
    var lit := "\"" + e + "\"";
    assert st.input == lit + rest;
    ByteLenAppend("\"" + e, "\"");
    ByteLenAppend("\"", e);
    EmitPrefix(st, Span(p, p), StrTok(e), lit, rest);
    StringToken(st, t, rest);
  }

  /** A quote opens no whitespace, so `parse_token` goes straight to the literal. */
  lemma StringToken(st: LexState, t: string, rest: string)
    requires st.leadingWhitespace.None? && st.input == "\"" + Escape(t) + "\"" + rest
    ensures NextToken(st) == Emit(st, Span(st.start, st.start), StrTok(Escape(t)), |Escape(t)| + 2)
  {
    assert st.input[0] == '"';
    NoWhitespaceAhead(st);
    StringAt(st, Span(st.start, st.start), t, rest);
  }

  /** The lexer's symbol tables spell each symbol as `to_str` does; only `&&` and `||` are missing. */
  lemma SymbolTables(y: Symbol)
    requires y != LogAnd && y != LogOr
    ensures var s := SymbolToStr(y);
      && 1 <= |s| <= 2
      && (|s| == 2 ==> TwoCharSymbol(s) == Some(y))
      && (|s| == 1 ==> OneCharToken(s[0]) == Some(SymbolTok(y)) && OneCharSymbol(s[0]) == Some(y))
      && s[0] as int < 0x80 && !IsIdentStart(s[0]) && !IsNumeric(s[0]) && s[0] != '"' && !IsWhitespace(s[0])
      && (|s| == 2 ==> s[1] as int < 0x80)
  {
    SymbolLookups(y);
    SymbolHeads(y);
  }

  /** The lexer's two tables hold each spelling. */
  lemma SymbolLookups(y: Symbol)
    requires y != LogAnd && y != LogOr
    ensures var s := SymbolToStr(y);
      && 1 <= |s| <= 2
      && (|s| == 2 ==> TwoCharSymbol(s) == Some(y))
      && (|s| == 1 ==> OneCharToken(s[0]) == Some(SymbolTok(y)) && OneCharSymbol(s[0]) == Some(y))
  {
    TwoCharLookups(y);
    OneCharLookups(y);
  }

  lemma TwoCharLookups(y: Symbol)
    requires y != LogAnd && y != LogOr
    ensures var s := SymbolToStr(y);
      1 <= |s| <= 2 && (|s| == 2 ==> TwoCharSymbol(s) == Some(y))
  {
    match y
    case Assign =>
    case Add =>
    case Sub =>
    case Mul =>
    case Div =>
    case Rem =>
    case Dot =>
    case Comma =>
    case Colon =>
    case DoubleColon =>
    case SemiColon =>
    case Pound =>
    case Dollar =>
    case Question =>
    case Exclaim =>
    case BitAnd =>
    case BitOr =>
    case Xor =>
    case SimpleArrow =>
    case BoldArrow =>
    case Less =>
    case Greater =>
    case LessEqual =>
    case GreaterEqual =>
    case Equal =>
    case NotEqual =>
    case Tick =>
  }

  lemma OneCharLookups(y: Symbol)
    requires y != LogAnd && y != LogOr
    ensures var s := SymbolToStr(y);
      |s| == 1 ==> OneCharToken(s[0]) == Some(SymbolTok(y)) && OneCharSymbol(s[0]) == Some(y)
  {
    OneCharTokens(y);
    OneCharSymbols(y);
  }

  lemma OneCharTokens(y: Symbol)
    requires y != LogAnd && y != LogOr
    ensures var s := SymbolToStr(y);
      |s| == 1 ==> OneCharToken(s[0]) == Some(SymbolTok(y))
  {
    match y
    case Assign =>
    case Add =>
    case Sub =>
    case Mul =>
    case Div =>
    case Rem =>
    case Dot =>
    case Comma =>
    case Colon =>
    case DoubleColon =>
    case SemiColon =>
    case Pound =>
    case Dollar =>
    case Question =>
    case Exclaim =>
    case BitAnd =>
    case BitOr =>
    case Xor =>
    case SimpleArrow =>
    case BoldArrow =>
    case Less =>
    case Greater =>
    case LessEqual =>
    case GreaterEqual =>
    case Equal =>
    case NotEqual =>
    case Tick =>
  }

  lemma OneCharSymbols(y: Symbol)
    requires y != LogAnd && y != LogOr
    ensures var s := SymbolToStr(y);
      |s| == 1 ==> OneCharSymbol(s[0]) == Some(y)
  {
    match y
    case Assign =>
    case Add =>
    case Sub =>
    case Mul =>
    case Div =>
    case Rem =>
    case Dot =>
    case Comma =>
    case Colon =>
    case DoubleColon =>
    case SemiColon =>
    case Pound =>
    case Dollar =>
    case Question =>
    case Exclaim =>
    case BitAnd =>
    case BitOr =>
    case Xor =>
    case SimpleArrow =>
    case BoldArrow =>
    case Less =>
    case Greater =>
    case LessEqual =>
    case GreaterEqual =>
    case Equal =>
    case NotEqual =>
    case Tick =>
  }

  /** Each spelling is ASCII and starts with no character another kind of token starts with. */
  lemma SymbolHeads(y: Symbol)
    ensures var s := SymbolToStr(y);
      && 1 <= |s| <= 2
      && s[0] as int < 0x80 && !IsIdentStart(s[0]) && !IsNumeric(s[0]) && s[0] != '"' && !IsWhitespace(s[0])
      && (|s| == 2 ==> s[1] as int < 0x80)
  {
    match y
    case Assign =>
    case Add =>
    case Sub =>
    case Mul =>
    case Div =>
    case Rem =>
    case Dot =>
    case Comma =>
    case Colon =>
    case DoubleColon =>
    case SemiColon =>
    case Pound =>
    case Dollar =>
    case Question =>
    case Exclaim =>
    case BitAnd =>
    case BitOr =>
    case Xor =>
    case SimpleArrow =>
    case BoldArrow =>
    case Less =>
    case Greater =>
    case LessEqual =>
    case GreaterEqual =>
    case Equal =>
    case NotEqual =>
    case Tick =>
    case LogAnd =>
    case LogOr =>
  }

  lemma SymbolAt(st: LexState, ws: Span, y: Symbol)
    requires y != LogAnd && y != LogOr
    requires st.input == SymbolToStr(y)
    ensures LexAt(st, ws) == Emit(st, ws, SymbolTok(y), |SymbolToStr(y)|)
  {
    var s := SymbolToStr(y);
    SymbolTables(y);
    assert |s| == 2 ==> s[..2] == s;
  }

  /**
    * Every symbol spelling but `&&` and `||` is read back as that symbol: the two-character
    * table is tried before the one-character one, so `==` is one token.
    */
  lemma SymbolSpellingLexes(y: Symbol, p: nat)
    requires y != LogAnd && y != LogOr
    ensures var (t, next) := NextToken(LexState(SymbolToStr(y), p, None));
      && t.Some? && t.value.ty == SymbolTok(y)
      && t.value.leadingWhitespace == Span(p, p) && t.value.span == Span(p, p + |SymbolToStr(y)|)
      && next == LexState([], p + |SymbolToStr(y)|, None)
  {
    var s := SymbolToStr(y);
    var st := LexState(s, p, None);
    SymbolTables(y);
    assert s + [] == s;
    EmitPrefix(st, Span(p, p), SymbolTok(y), s, []);
    assert forall i :: 0 <= i < |s| ==> s[i] as int < 0x80;
    ByteLenAscii(s);
    SymbolToken(st, y);
  }

  /** A symbol opens no whitespace, so `parse_token` goes straight to the symbol tables. */
  lemma SymbolToken(st: LexState, y: Symbol)
    requires y != LogAnd && y != LogOr
    requires st.leadingWhitespace.None? && st.input == SymbolToStr(y)
    ensures NextToken(st) == Emit(st, Span(st.start, st.start), SymbolTok(y), |SymbolToStr(y)|)
  {
    var s := SymbolToStr(y);
    SymbolTables(y);
    assert !OpensWhitespace(s) by {
      if |s| == 2 { assert s[0] != '/'; }
    }
    NoWhitespaceAhead(st);
    SymbolAt(st, Span(st.start, st.start), y);
  }

  /** `&&` has no entry in the lexer's tables: it comes out as two `&` tokens. */
  lemma DoubleAmpersandSplits(p: nat)
    ensures var (t, next) := NextToken(LexState("&&", p, None));
      && t.Some? && t.value.ty == SymbolTok(BitAnd) && t.value.span == Span(p, p + 1)
      && next == LexState("&", p + 1, None)
  {
    var st := LexState("&&", p, None);
    NoWhitespaceAhead(st);
    assert "&&"[..2] == "&&";
    assert LexAt(st, Span(p, p)) == Emit(st, Span(p, p), SymbolTok(BitAnd), 1);
    assert "&&" == "&" + "&";
    EmitPrefix(st, Span(p, p), SymbolTok(BitAnd), "&", "&");
  }

  /** `parse_sym` asked for `=` on `==` falls back to the one-character table and takes half of it. */
  lemma AssignFromDoubleEqual(p: nat)
    ensures var (t, next) := NextSym(LexState("==", p, None), Some(Assign));
      && t.Some? && t.value.ty == Assign && t.value.span == Span(p, p + 1)
      && next == LexState("=", p + 1, None)
  {
    var st := LexState("==", p, None);
    assert Whitespace(st) == (Some(Span(p, p)), st);
    assert "=="[..2] == "==";
    assert NextSym(st, Some(Assign)) == Emit(st, Span(p, p), Assign, 1);
    assert "==" == "=" + "=";
    EmitPrefix(st, Span(p, p), Assign, "=", "=");
  }

  // ---------------------------------------------------------------------------------------
  // The discrepancies between the code as written and what it evidently means

  lemma PairScanOfLineComment()
    ensures ScanPairs(InWhitespace, "//ab") == 3
    ensures ScanAll(InWhitespace, "//ab") == 4
  {
    assert "//ab"[1..] == "/ab" && "/ab"[1..] == "ab" && "ab"[1..] == "b" && "b"[1..] == [];
    assert ScanPairs(InLineComment, "b") == 0;
    assert ScanPairs(InLineComment, "ab") == 1;
    assert ScanPairs(InLineComment, "/ab") == 2;
    assert ScanAll(InLineComment, "b") == 1;
    assert ScanAll(InLineComment, "ab") == 2;
    assert ScanAll(InLineComment, "/ab") == 3;
  }

  /**
    * The pair scan leaves the last character of a comment at the end of the text, and that
    * character then lexes as a token of its own; the full scan consumes the comment.
    */
  lemma TrailingCommentLeaksChar()
    ensures WhitespaceAsWritten(LexState("//ab", 0, None)) == (Some(Span(0, 3)), LexState("b", 3, None))
    ensures var (t, _) := LexAt(LexState("b", 3, None), Span(0, 3));
      t.Some? && t.value.ty == IdentTok("b") && t.value.span == Span(3, 4)
    ensures Whitespace(LexState("//ab", 0, None)) == (Some(Span(0, 4)), LexState([], 4, None))
  {
    PairScanOfLineComment();
    LineCommentSkips();
    LoneLetterLexes();
  }

  /** The byte offsets of the example text `//ab`: one byte per character. */
  lemma LineCommentSkips()
    ensures Advance(LexState("//ab", 0, None), 3) == LexState("b", 3, None)
    ensures Advance(LexState("//ab", 0, None), 4) == LexState([], 4, None)
  {
    ByteLenAscii("//a");
    ByteLenAscii("//ab");
    assert "//ab"[..3] == "//a" && "//ab"[3..] == "b" && "//ab"[..4] == "//ab" && "//ab"[4..] == [];
  }

  /** The letter the pair scan leaves behind lexes as an identifier. */
  lemma LoneLetterLexes()
    ensures var (t, _) := LexAt(LexState("b", 3, None), Span(0, 3));
      t.Some? && t.value.ty == IdentTok("b") && t.value.span == Span(3, 4)
  {
    assert "b" == "b" + [];
    WordAt(LexState("b", 3, None), Span(0, 3), "b", []);
    EmitPrefix(LexState("b", 3, None), Span(0, 3), WordType("b"), "b", []);
    ByteLenAscii("b");
    assert KeywordFromStr("b").Err?;
  }

  lemma StrScanExamples()
    ensures StrScan("\"a\"", true) == 2
    ensures StrScan("abc\"", true) == 3
  {
    assert "\"a\""[1..] == "a\"" && "a\""[1..] == "\"";
    assert "abc\""[1..] == "bc\"" && "bc\""[1..] == "c\"" && "c\""[1..] == "\"";
  }

  /** `parse_str` as written rejects a real literal, which the intended check accepts. */
  lemma StrCheckRejectsLiteral()
    ensures NextStrAsWritten(LexState("\"a\"", 0, None)) == (None, LexState("\"a\"", 0, Some(Span(0, 0))))
    ensures var (t, next) := NextStr(LexState("\"a\"", 0, None));
      t.Some? && t.value.ty == "a" && t.value.span == Span(0, 3) && next == LexState([], 3, None)
  {
    QuotedAHasNoWhitespace();
    QuotedALexes();
  }

  lemma QuotedAHasNoWhitespace()
    ensures Whitespace(LexState("\"a\"", 0, None)) == (Some(Span(0, 0)), LexState("\"a\"", 0, None))
  {
    assert !OpensWhitespace("\"a\"");
  }

  /** The intended check reads `"a"` as the literal `a`. */
  lemma QuotedALexes()
    ensures var (t, next) := NextStr(LexState("\"a\"", 0, None));
      t.Some? && t.value.ty == "a" && t.value.span == Span(0, 3) && next == LexState([], 3, None)
  {
    var st := LexState("\"a\"", 0, None);
    QuotedAHasNoWhitespace();
    StrScanExamples();
    assert "\"a\""[1..2] == "a";
    ByteLenAscii("\"a\"");
    assert "\"a\"" == "\"a\"" + [];
    EmitPrefix(st, Span(0, 0), "a", "\"a\"", []);
    assert NextStr(st) == LexStr(st, Span(0, 0));
    assert LexStr(st, Span(0, 0)) == Emit(st, Span(0, 0), "a", 3);
  }

  /** `parse_str` as written reads an unquoted word up to a quote as if it were a literal. */
  lemma StrCheckAcceptsWord()
    ensures var (t, _) := NextStrAsWritten(LexState("abc\"", 0, None));
      t.Some? && t.value.ty == "bc" && t.value.span == Span(0, 4)
  {
    var st := LexState("abc\"", 0, None);
    assert Whitespace(st) == (Some(Span(0, 0)), st);
    StrScanExamples();
    assert "abc\""[1..3] == "bc";
    assert NextStrAsWritten(st) == Emit(st, Span(0, 0), "bc", 4);
    assert "abc\"" == "abc\"" + [];
    EmitPrefix(st, Span(0, 0), "bc", "abc\"", []);
    ByteLenAscii("abc\"");
  }

  lemma TwoSpacesThenX()
    ensures Whitespace(LexState("  x", 0, None)) == (Some(Span(0, 2)), LexState("x", 2, None))
  {
    assert "  x"[1..] == " x" && " x"[1..] == "x";
    assert ScanAll(InWhitespace, "x") == 0;
    assert ScanAll(InWhitespace, " x") == 1;
    assert ScanAll(InWhitespace, "  x") == 2;
    assert "  x"[2..] == "x" && "  x"[..2] == "  ";
    ByteLenAscii("  ");
  }

  /**
    * `parse_keyword` as written drops the whitespace span when the word is no keyword at all,
    * so the identifier parsed next starts with an empty one; the stashing version keeps it.
    */
  lemma KeywordFailureDropsWhitespace()
    ensures NextKeywordAsWritten(LexState("  x", 0, None), Some(Let)).1 == LexState("x", 2, None)
    ensures NextKeyword(LexState("  x", 0, None), Some(Let)).1 == LexState("x", 2, Some(Span(0, 2)))
    ensures var (t, _) := NextIdent(LexState("x", 2, None)); t.Some? && t.value.leadingWhitespace == Span(2, 2)
    ensures var (t, _) := NextIdent(LexState("x", 2, Some(Span(0, 2)))); t.Some? && t.value.leadingWhitespace == Span(0, 2)
  {
    TwoSpacesThenX();
    assert "x" == "x" + [];
    SplitIsMaximal("x", [], IsIdentChar);
    assert KeywordFromStr("x").Err?;
    assert Whitespace(LexState("x", 2, None)) == (Some(Span(2, 2)), LexState("x", 2, None));
  }

  // ---------------------------------------------------------------------------------------
  // The lexer object

  /**
    * `Lexer`: the unread text, the byte offset where it starts and the stashed whitespace
    * span, updated in place by every parse. The interner context is not modelled: a token
    * carries its text.
    */
  class Lexer {
    var input: string
    var start: nat
    var leadingWhitespace: Option<Span>

    /** The fields as a value, for stating what each method does. */
    function State(): LexState
      reads this
    {
      LexState(input, start, leadingWhitespace)
    }

    /** `Lexer::new`: nothing read yet and nothing stashed. */
    constructor (text: string)
      ensures State() == LexState(text, 0, None) && State().Valid()
    {
      input := text;
      start := 0;
      leadingWhitespace := None;
    }

    /** Moves past `k` characters: the span of the bytes they take up. */
    method Consume(k: nat) returns (span: Span)
      requires k <= |input|
      modifies this
      ensures State() == Advance(old(State()), k)
      ensures span == Span(old(start), start)
    {
      var len := ByteLen(input[..k]);
      ByteLenSplit(input, k);
      span := Span(start, start + len);
      input := input[k..];
      start := start + len;
      leadingWhitespace := None;
    }

    /** The characters the whitespace and comment scan takes, stepped one at a time. */
    method ScanLength() returns (k: nat)
      ensures k == ScanAll(InWhitespace, input)
    {
      var state := InWhitespace;
      k := 0;
      while k < |input|
        invariant k <= |input| && WellFormed(state)
        invariant k + ScanAll(state, input[k..]) == ScanAll(InWhitespace, input)
      {
        var b := if k + 1 < |input| then Some(input[k + 1]) else None;
        assert input[k..][0] == input[k] && input[k..][1..] == input[k + 1..];
        assert k + 1 < |input| ==> input[k..][1] == input[k + 1];
        var step := ScanStep(state, input[k], b);
        if step.None? {
          break;
        }
        state := step.value;
        k := k + 1;
      }
    }

    /** `parse_whitespace`. */
    method ParseWhitespace() returns (ws: Option<Span>)
      modifies this
      ensures (ws, State()) == Whitespace(old(State()))
    {
      if leadingWhitespace.Some? {
        ws := leadingWhitespace;
        leadingWhitespace := None;
        return;
      }
      if input == [] {
        return None;
      }
      if OpensWhitespace(input) {
        var k := ScanLength();
        var span := Consume(k);
        ws := Some(span);
      } else {
        ws := Some(Span(start, start));
      }
    }

    /** The string-literal scan: the characters up to the closing quote. */
    method StringLength() returns (k: nat)
      ensures k == StrScan(input, true)
    {
      var keep := true;
      k := 0;
      while k < |input|
        invariant k <= |input|
        invariant k + StrScan(input[k..], keep) == StrScan(input, true)
      {
        assert input[k..][0] == input[k] && input[k..][1..] == input[k + 1..];
        if keep {
          keep := false;
        } else if input[k] != '"' {
          keep := input[k] == '\\';
        } else {
          break;
        }
        k := k + 1;
      }
    }

    /** `parse_token`. */
    method ParseToken() returns (t: Option<Token>)
      modifies this
      ensures t == NextToken(old(State())).0 && State() == NextToken(old(State())).1
    {
      var ws := ParseWhitespace();
      if ws.None? || input == [] {
        return None;
      }
      t := LexHere(ws.value);
    }

    /** The body of `parse_token` once whitespace is skipped. */
    method LexHere(ws: Span) returns (t: Option<Token>)
      requires input != [] && leadingWhitespace.None?
      modifies this
      ensures t == LexAt(old(State()), ws).0 && State() == LexAt(old(State()), ws).1
    {
      var c := input[0];
      if IsIdentStart(c) {
        var ident := Split(input, IsIdentChar).0;
        var span := Consume(|ident|);
        t := Some(TokenValue(WordType(ident), ws, span));
      } else if IsNumeric(c) {
        var (digits, rest) := Split(input, IsNumeric);
        var dec := if rest != [] && rest[0] == '.' then Split(rest[1..], IsNumeric).0 else [];
        if dec != [] {
          var span := Consume(|digits| + 1 + |dec|);
          t := Some(TokenValue(FloatTok, ws, span));
        } else {
          var span := Consume(|digits|);
          t := Some(TokenValue(IntTok(DecimalValue(digits)), ws, span));
        }
      } else if c == '"' {
        var k := StringLength();
        if k < |input| {
          var text := input[1..k];
          var span := Consume(k + 1);
          t := Some(TokenValue(StrTok(text), ws, span));
        } else {
          input := [];
          t := None;
        }
      } else if |input| >= 2 && TwoCharSymbol(input[..2]).Some? {
        var y := TwoCharSymbol(input[..2]).value;
        var span := Consume(2);
        t := Some(TokenValue(SymbolTok(y), ws, span));
      } else {
        match OneCharToken(c)
        case Some(ty) =>
          var span := Consume(1);
          t := Some(TokenValue(ty, ws, span));
        case None =>
          t := None;
      }
    }

    /** `parse_keyword`, stashing the whitespace span on every failure. */
    method ParseKeyword(kw: Option<Keyword>) returns (t: Option<TokenValue<Keyword>>)
      modifies this
      ensures t == NextKeyword(old(State()), kw).0 && State() == NextKeyword(old(State()), kw).1
    {
      var ws := ParseWhitespace();
      if ws.None? {
        return None;
      }
      var ident := Split(input, IsIdentChar).0;
      match KeywordFromStr(ident)
      case Err(_) =>
        leadingWhitespace := ws;
        t := None;
      case Ok(ty) =>
        if kw.None? || kw == Some(ty) {
          var span := Consume(|ident|);
          t := Some(TokenValue(ty, ws.value, span));
        } else {
          leadingWhitespace := ws;
          t := None;
        }
    }

    /** `parse_ident`. */
    method ParseIdent() returns (t: Option<TokenValue<string>>)
      modifies this
      ensures t == NextIdent(old(State())).0 && State() == NextIdent(old(State())).1
    {
      var ws := ParseWhitespace();
      if ws.None? {
        return None;
      }
      var ident := Split(input, IsIdentChar).0;
      if ident != [] && KeywordFromStr(ident).Err? {
        var span := Consume(|ident|);
        t := Some(TokenValue(ident, ws.value, span));
      } else {
        leadingWhitespace := ws;
        t := None;
      }
    }

    /** `parse_str`, with the opening-quote check the right way round. */
    method ParseStr() returns (t: Option<TokenValue<string>>)
      modifies this
      ensures t == NextStr(old(State())).0 && State() == NextStr(old(State())).1
    {
      var ws := ParseWhitespace();
      if ws.None? {
        return None;
      }
      if !(input != [] && input[0] == '"') {
        leadingWhitespace := ws;
        return None;
      }
      var k := StringLength();
      if k < |input| {
        var text := input[1..k];
        var span := Consume(k + 1);
        t := Some(TokenValue(text, ws.value, span));
      } else {
        input := [];
        t := None;
      }
    }

    /** `parse_int`. */
    method ParseInt() returns (t: Option<TokenValue<nat>>)
      modifies this
      ensures t == NextInt(old(State())).0 && State() == NextInt(old(State())).1
    {
      var ws := ParseWhitespace();
      if ws.None? {
        return None;
      }
      var digits := Split(input, IsNumeric).0;
      if digits == [] {
        leadingWhitespace := ws;
        return None;
      }
      var span := Consume(|digits|);
      t := Some(TokenValue(DecimalValue(digits), ws.value, span));
    }

    /** `parse_sym`. */
    method ParseSym(sym: Option<Symbol>) returns (t: Option<TokenValue<Symbol>>)
      modifies this
      ensures t == NextSym(old(State()), sym).0 && State() == NextSym(old(State()), sym).1
    {
      var ws := ParseWhitespace();
      if ws.None? {
        return None;
      }
      if |input| >= 2 && TwoCharSymbol(input[..2]).Some? && (sym.None? || sym == TwoCharSymbol(input[..2])) {
        var y := TwoCharSymbol(input[..2]).value;
        var span := Consume(2);
        return Some(TokenValue(y, ws.value, span));
      }
      if input != [] && OneCharSymbol(input[0]).Some? && (sym.None? || sym == OneCharSymbol(input[0])) {
        var y := OneCharSymbol(input[0]).value;
        var span := Consume(1);
        return Some(TokenValue(y, ws.value, span));
      }
      leadingWhitespace := ws;
      t := None;
    }

    /** `parse_grouping`. */
    method ParseGrouping(g: Option<(GroupPos, Grouping)>) returns (t: Option<TokenValue<(GroupPos, Grouping)>>)
      modifies this
      ensures t == NextGrouping(old(State()), g).0 && State() == NextGrouping(old(State()), g).1
    {
      var ws := ParseWhitespace();
      if ws.None? {
        return None;
      }
      if input != [] && GroupingOf(input[0]).Some? && (g.None? || g == GroupingOf(input[0])) {
        var pair := GroupingOf(input[0]).value;
        var span := Consume(1);
        return Some(TokenValue(pair, ws.value, span));
      }
      leadingWhitespace := ws;
      t := None;
    }
  }
}
