/** Tokens (include/frontend/Token.hpp) and lexeme resolution (src/frontend/Token.cpp). */
module Tokens {
  import opened Outcomes

  /** The token kinds, in the order of the source enum. */
  datatype TokenType =
    | Unknown | Whitespace
    | LBrace | RBrace | LBrack | RBrack | Colon | Comma
    | LtNull | LtTrue | LtFalse | LtNumber | LtStrBody
    | Eof

  /** An offset/length span into the lexer's buffer and its kind. */
  datatype Token = Token(begin: nat, length: nat, kind: TokenType)

  /** The span of t lies inside a buffer of n characters. */
  predicate Fits(t: Token, n: nat) {
    t.begin + t.length <= n
  }

  /** The for loop of matchTokenImpl: scan the list from the front for kind. */
  function Search(kind: TokenType, types: seq<TokenType>): (found: bool)
    ensures found <==> kind in types
  {
    if |types| == 0 then false
    else types[0] == kind || Search(kind, types[1..])
  }

  /** matchTokenImpl: an empty list accepts every token, otherwise the kind must be listed. */
  function MatchTokenImpl(token: Token, types: seq<TokenType>): (r: bool)
    ensures |types| == 0 ==> r
    ensures |types| > 0 ==> (r <==> token.kind in types)
  {
    if |types| == 0 then true else Search(token.kind, types)
  }

  /** The match looks at the kind only, never at the span. */
  lemma MatchIgnoresSpan(t: Token, u: Token, types: seq<TokenType>)
    requires t.kind == u.kind
    ensures MatchTokenImpl(t, types) == MatchTokenImpl(u, types)
  {
  }

  /** Even an end-of-input token matches the empty list. */
  lemma EmptyListMatchesEof(t: Token)
    requires t.kind == Eof
    ensures MatchTokenImpl(t, [])
  {
  }

  /** A match against a non-empty list survives any list containing all of its kinds. */
  lemma MatchMonotone(t: Token, xs: seq<TokenType>, ys: seq<TokenType>)
    requires |xs| > 0
    requires forall i :: 0 <= i < |xs| ==> xs[i] in ys
    ensures MatchTokenImpl(t, xs) ==> MatchTokenImpl(t, ys)
  {
  }

  function Min(a: nat, b: nat): nat {
    if a <= b then a else b
  }

  /** viewLexeme: end of input views the empty string, any other token views
      source.substr(begin, length), which is clamped at the end of the buffer and throws
      std::out_of_range when begin is past it. */
  function ViewLexeme(token: Token, source: string): (r: Result<string>)
    ensures token.kind == Eof ==> r == Ok("")
    ensures token.kind != Eof ==> (r.Ok? <==> token.begin <= |source|)
    ensures r.Ok? && token.kind != Eof ==>
      |r.value| == Min(token.length, |source| - token.begin) &&
      forall i :: 0 <= i < |r.value| ==> r.value[i] == source[token.begin + i]
  {
    if token.kind == Eof then Ok(source[0..0])
    else if token.begin > |source| then Err(OutOfRange)
    else Ok(source[token.begin .. token.begin + Min(token.length, |source| - token.begin)])
  }

  /** getLexeme walks an iterator from begin for length characters, copying each into a string
      stream. It has no end-of-input case and no bounds check, so the span must fit. */
  method GetLexeme(token: Token, source: string) returns (lexeme: string)
    requires Fits(token, |source|)
    ensures |lexeme| == token.length
    ensures lexeme == source[token.begin .. token.begin + token.length]
  {
    var cursor := token.begin;
    var end := cursor + token.length;
    lexeme := "";
    while cursor != end
      invariant token.begin <= cursor <= end
      invariant lexeme == source[token.begin .. cursor]
      decreases end - cursor
    {
      lexeme := lexeme + [source[cursor]];
      cursor := cursor + 1;
    }
  }

  /** For a token that is not end of input and fits the buffer, viewLexeme yields exactly the
      characters that getLexeme copies. */
  lemma ViewMatchesCopy(token: Token, source: string)
    requires token.kind != Eof && Fits(token, |source|)
    ensures ViewLexeme(token, source) == Ok(source[token.begin .. token.begin + token.length])
  {
  }
}
