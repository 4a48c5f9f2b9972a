/**
  * `Peekable`: a bounded look-ahead buffer in front of the lexer. Tokens read ahead wait in
  * the buffer and are served before the lexer is asked again, so that the stream of tokens
  * a caller sees is the lexer's own stream.
  */
module Peek {
  import opened Wrappers
  import opened Tokens
  import opened Lexer

  /** The `j`-th result of `parse_token` on a lexer in state `st` (0 for the next one). */
  function NthToken(st: LexState, j: nat): Option<Token>
  {
    NextToken(NextTokenAfter(st, j)).0
  }

  /** Once `parse_token` fails, it fails at every later position. */
  lemma NothingAfterEnd(st: LexState, j: nat, i: nat)
    requires st.Valid() && NthToken(st, j).None? && j <= i
    ensures NthToken(st, i).None?
  {
    NoTokenAfterFailureFrom(st, j, i - j);
  }

  lemma {:induction false} NextTokenAfterSum(st: LexState, a: nat, b: nat)
    ensures NextTokenAfter(NextTokenAfter(st, a), b) == NextTokenAfter(st, a + b)
    decreases a
  {
    if a > 0 {
      NextTokenAfterSum(NextToken(st).1, a - 1, b);
    }
  }

  lemma {:induction false} NextTokenAfterValid(st: LexState, n: nat)
    requires st.Valid()
    ensures NextTokenAfter(st, n).Valid()
    decreases n
  {
    if n > 0 {
      NextTokenFacts(st);
      NextTokenAfterValid(NextToken(st).1, n - 1);
    }
  }

  lemma NoTokenAfterFailureFrom(st: LexState, j: nat, d: nat)
    requires st.Valid() && NthToken(st, j).None?
    ensures NthToken(st, j + d).None?
  {
    NextTokenAfterValid(st, j);
    NoTokenAfterFailure(NextTokenAfter(st, j), d);
    NextTokenAfterSum(st, j, d);
  }

  /**
    * The `i`-th token a caller sees (0 for the next one) when the tokens `buffered` wait in
    * front of a lexer in state `st`.
    */
  function View(buffered: seq<Token>, st: LexState, i: nat): Option<Token>
  {
    if i < |buffered| then Some(buffered[i]) else NthToken(st, i - |buffered|)
  }

  /** Buffering the lexer's next token changes nothing the caller sees. */
  lemma PushKeepsView(buffered: seq<Token>, st: LexState)
    requires NextToken(st).0.Some?
    ensures forall i: nat :: View(buffered + [NextToken(st).0.value], NextToken(st).1, i) == View(buffered, st, i)
  {
    forall i: nat
      ensures View(buffered + [NextToken(st).0.value], NextToken(st).1, i) == View(buffered, st, i)
    {
      if i > |buffered| {
        assert NextTokenAfter(st, i - |buffered|) == NextTokenAfter(NextToken(st).1, i - |buffered| - 1);
      }
    }
  }

  /** The stream after one `parse_token` is the rest of the stream. */
  lemma NthShift(st: LexState, j: nat)
    ensures NthToken(st, j + 1) == NthToken(NextToken(st).1, j)
  {
    assert NextTokenAfter(st, j + 1) == NextTokenAfter(NextToken(st).1, j);
  }

  /** After a failure the stream holds nothing but failures, before and after the failed call. */
  lemma NthAfterFailure(st: LexState, j: nat)
    requires st.Valid() && NextToken(st).0.None?
    ensures NthToken(st, j).None? && NthToken(NextToken(st).1, j).None?
  {
    NoTokenAfterFailure(st, j);
    NoTokenAfterFailure(st, j + 1);
    NthShift(st, j);
  }

  /**
    * A failed pull changes nothing the caller sees either, and the token just after the
    * buffer is then the end of the stream.
    */
  lemma FailedPullKeepsView(buffered: seq<Token>, st: LexState)
    requires st.Valid() && NextToken(st).0.None?
    ensures forall i: nat :: View(buffered, NextToken(st).1, i) == View(buffered, st, i)
    ensures View(buffered, NextToken(st).1, |buffered|).None?
  {
    forall i: nat
      ensures View(buffered, NextToken(st).1, i) == View(buffered, st, i)
    {
      if i >= |buffered| {
        NthAfterFailure(st, i - |buffered|);
      }
    }
    NthAfterFailure(st, 0);
  }

  /** Serving the buffered front moves the view on by one. */
  lemma PopMovesView(buffered: seq<Token>, st: LexState)
    requires buffered != []
    ensures View(buffered, st, 0) == Some(buffered[0])
    ensures forall i: nat :: View(buffered[1..], st, i) == View(buffered, st, i + 1)
  {
  }

  /** With nothing buffered, serving the lexer's next token moves the view on by one. */
  lemma PullMovesView(st: LexState)
    ensures View([], st, 0) == NextToken(st).0
    ensures forall i: nat :: View([], NextToken(st).1, i) == View([], st, i + 1)
  {
    forall i: nat
      ensures View([], NextToken(st).1, i) == View([], st, i + 1)
    {
      assert NextTokenAfter(st, i + 1) == NextTokenAfter(NextToken(st).1, i);
    }
  }

  /** What a buffered token gives `parse_keyword`: the keyword when it is one the filter allows. */
  function AsKeyword(t: Token, kw: Option<Keyword>): Option<TokenValue<Keyword>>
  {
    match t.ty
    case KeywordTok(k) => if kw.None? || kw == Some(k) then Some(TokenValue(k, t.leadingWhitespace, t.span)) else None
    case _ => None
  }

  function AsIdent(t: Token): Option<TokenValue<string>>
  {
    match t.ty
    case IdentTok(x) => Some(TokenValue(x, t.leadingWhitespace, t.span))
    case _ => None
  }

  function AsStr(t: Token): Option<TokenValue<string>>
  {
    match t.ty
    case StrTok(x) => Some(TokenValue(x, t.leadingWhitespace, t.span))
    case _ => None
  }

  function AsInt(t: Token): Option<TokenValue<nat>>
  {
    match t.ty
    case IntTok(v) => Some(TokenValue(v, t.leadingWhitespace, t.span))
    case _ => None
  }

  function AsSym(t: Token, sym: Option<Symbol>): Option<TokenValue<Symbol>>
  {
    match t.ty
    case SymbolTok(y) => if sym.None? || sym == Some(y) then Some(TokenValue(y, t.leadingWhitespace, t.span)) else None
    case _ => None
  }

  function AsGrouping(t: Token, g: Option<(GroupPos, Grouping)>): Option<TokenValue<(GroupPos, Grouping)>>
  {
    match t.ty
    case GroupingTok(pos, gr) =>
      if g.None? || g == Some((pos, gr)) then Some(TokenValue((pos, gr), t.leadingWhitespace, t.span)) else None
    case _ => None
  }

  /**
    * `Peekable`: `peek` is the buffer (an `ArrayDeque` of capacity `capacity`), `inner` the
    * lexer behind it.
    */
  class Peekable {
    const capacity: nat
    var peek: seq<Token>
    var inner: Lexer

    /** The buffer fits its capacity and the lexer behind it is in a consistent state. */
    ghost predicate Valid()
      reads this, inner
    {
      |peek| <= capacity && inner.State().Valid()
    }

    /** The `i`-th token the caller will see (0 for the next one). */
    ghost function Ahead(i: nat): Option<Token>
      reads this, inner
    {
      View(peek, inner.State(), i)
    }

    /** `Peekable::new`: an empty buffer. */
    constructor (lexer: Lexer, n: nat)
      requires lexer.State().Valid()
      ensures capacity == n && peek == [] && inner == lexer && Valid()
    {
      capacity := n;
      peek := [];
      inner := lexer;
    }

    /**
      * `peek_token(n)` (the caller must keep `n` within the capacity; the source panics
      * otherwise): fills the buffer to `n` tokens unless the lexer runs out first, and
      * yields the first `n` buffered tokens. The stream the caller sees is unchanged.
      */
    method PeekToken(n: nat) returns (r: seq<Token>)
      requires Valid() && n <= capacity
      modifies this, inner
      ensures Valid() && inner == old(inner)
      ensures forall i: nat :: Ahead(i) == old(Ahead(i))
      ensures |old(peek)| >= n ==> peek == old(peek)
      ensures |old(peek)| < n ==> old(peek) <= peek && (|peek| == n || Ahead(|peek|).None?)
      ensures r == peek[..if n <= |peek| then n else |peek|]
    {
      ghost var buffered, st0 := peek, inner.State();
      if n >= |peek| {
        var extra := n - |peek|;
        var i := 0;
        while i < extra
          invariant 0 <= i <= extra && |peek| == |old(peek)| + i && old(peek) <= peek
          invariant inner == old(inner) && inner.State().Valid()
          invariant forall j: nat :: View(peek, inner.State(), j) == View(buffered, st0, j)
        {
          ghost var st := inner.State();
          NextTokenFacts(st);
          var tok := inner.ParseToken();
          if tok.Some? {
            PushKeepsView(peek, st);
            peek := peek + [tok.value];
          } else {
            FailedPullKeepsView(peek, st);
            break;
          }
          i := i + 1;
        }
      }
      r := peek[..if n <= |peek| then n else |peek|];
    }

    /** `parse_token`: the buffered front token if there is one, else the lexer's next token. */
    method ParseToken() returns (t: Option<Token>)
      requires Valid()
      modifies this, inner
      ensures Valid() && inner == old(inner)
      ensures t == old(Ahead(0))
      ensures forall i: nat :: Ahead(i) == old(Ahead(i + 1))
    {
      if peek != [] {
        PopMovesView(peek, inner.State());
        t := Some(peek[0]);
        peek := peek[1..];
      } else {
        ghost var st := inner.State();
        NextTokenFacts(st);
        PullMovesView(st);
        t := inner.ParseToken();
      }
    }

    /** `parse_keyword`: the buffered front if it is a keyword the filter allows; with an empty buffer, the lexer's. */
    method ParseKeyword(kw: Option<Keyword>) returns (t: Option<TokenValue<Keyword>>)
      requires Valid()
      modifies this, inner
      ensures Valid() && inner == old(inner)
      ensures old(peek) != [] ==> (t == AsKeyword(old(peek[0]), kw) && unchanged(inner)
        && peek == if t.Some? then old(peek[1..]) else old(peek))
      ensures old(peek) == [] ==> (peek == [] && t == NextKeyword(old(inner.State()), kw).0
        && inner.State() == NextKeyword(old(inner.State()), kw).1)
    {
      if peek != [] {
        t := AsKeyword(peek[0], kw);
        if t.Some? {
          peek := peek[1..];
        }
      } else {
        KeywordConsumes(inner.State(), kw);
        t := inner.ParseKeyword(kw);
      }
    }

    /** `parse_ident`. */
    method ParseIdent() returns (t: Option<TokenValue<string>>)
      requires Valid()
      modifies this, inner
      ensures Valid() && inner == old(inner)
      ensures old(peek) != [] ==> (t == AsIdent(old(peek[0])) && unchanged(inner)
        && peek == if t.Some? then old(peek[1..]) else old(peek))
      ensures old(peek) == [] ==> (peek == [] && t == NextIdent(old(inner.State())).0
        && inner.State() == NextIdent(old(inner.State())).1)
    {
      if peek != [] {
        t := AsIdent(peek[0]);
        if t.Some? {
          peek := peek[1..];
        }
      } else {
        IdentConsumes(inner.State());
        t := inner.ParseIdent();
      }
    }

    /** `parse_str`. */
    method ParseStr() returns (t: Option<TokenValue<string>>)
      requires Valid()
      modifies this, inner
      ensures Valid() && inner == old(inner)
      ensures old(peek) != [] ==> (t == AsStr(old(peek[0])) && unchanged(inner)
        && peek == if t.Some? then old(peek[1..]) else old(peek))
      ensures old(peek) == [] ==> (peek == [] && t == NextStr(old(inner.State())).0
        && inner.State() == NextStr(old(inner.State())).1)
    {
      if peek != [] {
        t := AsStr(peek[0]);
        if t.Some? {
          peek := peek[1..];
        }
      } else {
        StrConsumes(inner.State());
        t := inner.ParseStr();
      }
    }

    /** `parse_int`. */
    method ParseInt() returns (t: Option<TokenValue<nat>>)
      requires Valid()
      modifies this, inner
      ensures Valid() && inner == old(inner)
      ensures old(peek) != [] ==> (t == AsInt(old(peek[0])) && unchanged(inner)
        && peek == if t.Some? then old(peek[1..]) else old(peek))
      ensures old(peek) == [] ==> (peek == [] && t == NextInt(old(inner.State())).0
        && inner.State() == NextInt(old(inner.State())).1)
    {
      if peek != [] {
        t := AsInt(peek[0]);
        if t.Some? {
          peek := peek[1..];
        }
      } else {
        IntConsumes(inner.State());
        t := inner.ParseInt();
      }
    }

    /** `parse_sym`. */
    method ParseSym(sym: Option<Symbol>) returns (t: Option<TokenValue<Symbol>>)
      requires Valid()
      modifies this, inner
      ensures Valid() && inner == old(inner)
      ensures old(peek) != [] ==> (t == AsSym(old(peek[0]), sym) && unchanged(inner)
        && peek == if t.Some? then old(peek[1..]) else old(peek))
      ensures old(peek) == [] ==> (peek == [] && t == NextSym(old(inner.State()), sym).0
        && inner.State() == NextSym(old(inner.State()), sym).1)
    {
      if peek != [] {
        t := AsSym(peek[0], sym);
        if t.Some? {
          peek := peek[1..];
        }
      } else {
        SymConsumes(inner.State(), sym);
        t := inner.ParseSym(sym);
      }
    }

    /** `parse_grouping`. */
    method ParseGrouping(g: Option<(GroupPos, Grouping)>) returns (t: Option<TokenValue<(GroupPos, Grouping)>>)
      requires Valid()
      modifies this, inner
      ensures Valid() && inner == old(inner)
      ensures old(peek) != [] ==> (t == AsGrouping(old(peek[0]), g) && unchanged(inner)
        && peek == if t.Some? then old(peek[1..]) else old(peek))
      ensures old(peek) == [] ==> (peek == [] && t == NextGrouping(old(inner.State()), g).0
        && inner.State() == NextGrouping(old(inner.State()), g).1)
    {
      if peek != [] {
        t := AsGrouping(peek[0], g);
        if t.Some? {
          peek := peek[1..];
        }
      } else {
        GroupingConsumes(inner.State(), g);
        t := inner.ParseGrouping(g);
      }
    }
  }
}
