/**
  * The HIR parser's `parse_let`: `let <ident> : <ident> = <int> ;` read with the lexer's
  * typed parses, one after another, giving up at the first piece that is missing.
  */
module HirParser {
  import opened Wrappers
  import opened Tokens
  import opened Lexer

  datatype BindingMode = Reference | Value

  datatype Literal = Int(value: nat)

  datatype Pattern = IdentPattern(name: string, mode: BindingMode)

  datatype Expr = IdentExpr(name: string) | LiteralExpr(lit: Literal)

  /** The `Hir::Let` node this parser builds: a pattern, its declared type and its value. */
  datatype Hir = Let(pat: Pattern, ty: Option<Expr>, value: Expr)

  datatype HirNode = HirNode(span: Span, hir: Hir)

  /**
    * `parse_let` on a lexer in state `st`: the node and the state after it. On a missing
    * piece the state is the one the failing parse left; nothing already read is put back.
    */
  function LetSpec(st: LexState): (Option<HirNode>, LexState)
  {
    var (start, s1) := NextKeyword(st, Some(Tokens.Let));
    if start.None? then (None, s1) else
    var (ident, s2) := NextIdent(s1);
    if ident.None? then (None, s2) else
    var (colon, s3) := NextSym(s2, Some(Colon));
    if colon.None? then (None, s3) else
    var (ty, s4) := NextIdent(s3);
    if ty.None? then (None, s4) else
    var (eq, s5) := NextSym(s4, Some(Assign));
    if eq.None? then (None, s5) else
    var (value, s6) := NextInt(s5);
    if value.None? then (None, s6) else
    var (end, s7) := NextSym(s6, Some(SemiColon));
    if end.None? then (None, s7) else
    var node := HirNode(
      Span(start.value.span.start, end.value.span.end),
      Hir.Let(IdentPattern(ident.value.ty, Value), Some(IdentExpr(ty.value.ty)), LiteralExpr(Int(value.value.ty))));
    (Some(node), s7)
  }

  /** A successful parse followed by another: the second starts where the first ended. */
  lemma ConsumesChain<A, B>(st: LexState, r1: (Option<TokenValue<A>>, LexState), r2: (Option<TokenValue<B>>, LexState))
    requires Consumes(st, r1) && Consumes(r1.1, r2) && r1.0.Some? && r2.0.Some?
    ensures st.start <= r1.0.value.span.start <= r1.0.value.span.end <= r2.0.value.span.start
    ensures r2.1.End() == st.End()
  {
  }

  /**
    * A parsed `let` spans from the start of `let` to the end of `;`: a valid span, starting
    * no earlier than the text read and ending where the text after the statement starts,
    * with no byte of the text lost.
    */
  lemma LetSpan(st: LexState)
    requires st.Valid() && LetSpec(st).0.Some?
    ensures var (node, next) := LetSpec(st);
      && st.start <= node.value.span.start <= node.value.span.end == next.start
      && next.Valid() && next.End() == st.End()
  {
    var r1 := NextKeyword(st, Some(Tokens.Let));
    KeywordConsumes(st, Some(Tokens.Let));
    var r2 := NextIdent(r1.1);
    IdentConsumes(r1.1);
    var r3 := NextSym(r2.1, Some(Colon));
    SymConsumes(r2.1, Some(Colon));
    var r4 := NextIdent(r3.1);
    IdentConsumes(r3.1);
    var r5 := NextSym(r4.1, Some(Assign));
    SymConsumes(r4.1, Some(Assign));
    var r6 := NextInt(r5.1);
    IntConsumes(r5.1);
    var r7 := NextSym(r6.1, Some(SemiColon));
    SymConsumes(r6.1, Some(SemiColon));
    ConsumesChain(st, r1, r2);
    ConsumesChain(r1.1, r2, r3);
    ConsumesChain(r2.1, r3, r4);
    ConsumesChain(r3.1, r4, r5);
    ConsumesChain(r4.1, r5, r6);
    ConsumesChain(r5.1, r6, r7);
  }

  /** `parse_let` fails when the text does not start with the keyword `let`, and then reads nothing but whitespace. */
  lemma LetNeedsKeyword(st: LexState)
    requires NextKeyword(st, Some(Tokens.Let)).0.None?
    ensures LetSpec(st) == (None, NextKeyword(st, Some(Tokens.Let)).1)
  {
  }

  /** `HirParser`: the lexer it reads from (the HIR arena is not modelled). */
  class HirParser {
    var lexer: Lexer

    constructor (l: Lexer)
      ensures lexer == l
    {
      lexer := l;
    }

    /** `parse_let`. */
    method ParseLet() returns (r: Option<HirNode>)
      modifies lexer
      ensures r == LetSpec(old(lexer.State())).0 && lexer.State() == LetSpec(old(lexer.State())).1
    {
      var start := lexer.ParseKeyword(Some(Tokens.Let));
      if start.None? {
        return None;
      }
      var ident := lexer.ParseIdent();
      if ident.None? {
        return None;
      }
      var colon := lexer.ParseSym(Some(Colon));
      if colon.None? {
        return None;
      }
      var ty := lexer.ParseIdent();
      if ty.None? {
        return None;
      }
      var eq := lexer.ParseSym(Some(Assign));
      if eq.None? {
        return None;
      }
      var value := lexer.ParseInt();
      if value.None? {
        return None;
      }
      var end := lexer.ParseSym(Some(SemiColon));
      if end.None? {
        return None;
      }
      r := Some(HirNode(
        Span(start.value.span.start, end.value.span.end),
        Hir.Let(IdentPattern(ident.value.ty, Value), Some(IdentExpr(ty.value.ty)), LiteralExpr(Int(value.value.ty)))));
    }
  }
}
