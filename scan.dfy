/** What one lexNext call does (src/frontend/Lexer.cpp), as functions of the buffer, the cursor
    and the line counter. The Lexer class is proved against these. */
module Scan {
  import opened Outcomes
  import opened Chars
  import opened Tokens

  /** The three character classes the scanners run over. */
  datatype CharClass = Spacing | Numeric | Word

  predicate InClass(c: char, cls: CharClass) {
    match cls
    case Spacing => IsSpacing(c)
    case Numeric => IsNumeric(c)
    case Word => IsWordSymbol(c)
  }

  /** Length of the maximal run of class cls starting at i. */
  function Run(src: string, i: nat, cls: CharClass): (n: nat)
    requires i <= |src|
    ensures i + n <= |src|
    ensures forall k :: i <= k < i + n ==> InClass(src[k], cls)
    ensures i + n == |src| || !InClass(src[i + n], cls)
    decreases |src| - i
  {
    if i < |src| && InClass(src[i], cls) then 1 + Run(src, i + 1, cls) else 0
  }

  /** The two properties above pin the run length down. */
  lemma RunUnique(src: string, i: nat, cls: CharClass, n: nat)
    requires i + n <= |src|
    requires forall k :: i <= k < i + n ==> InClass(src[k], cls)
    requires i + n == |src| || !InClass(src[i + n], cls)
    ensures n == Run(src, i, cls)
  {
  }

  /** The first index at or after i holding c, or |src| when there is none. */
  function Find(src: string, i: nat, c: char): (j: nat)
    requires i <= |src|
    ensures i <= j <= |src|
    ensures j < |src| ==> src[j] == c
    ensures forall k :: i <= k < j ==> src[k] != c
    decreases |src| - i
  {
    if i == |src| || src[i] == c then i else Find(src, i + 1, c)
  }

  /** Cursor after a run of n characters from i: each scanner reads the character that ends
      the run as well, so the cursor stops one past it, or at the end of the buffer. */
  function AfterRun(src: string, i: nat, n: nat): nat {
    if i + n < |src| then i + n + 1 else |src|
  }

  /** The keyword table the Lexer constructor fills (src/frontend/Lexer.cpp:19-21). */
  function Keywords(): map<string, TokenType> {
    map["null" := LtNull, "true" := LtTrue, "false" := LtFalse]
  }

  /** Keyword lookup, Unknown for anything not in the table. */
  function KeywordKind(s: string): TokenType {
    if s in Keywords() then Keywords()[s] else Unknown
  }

  /** The outcome of one scan: the token (or the exception) and the new cursor and line. */
  datatype LexStep = LexStep(result: Result<Token>, pos: nat, line: nat)

  /** lexWhitespace */
  function Whitespace(src: string, start: nat, line: nat): LexStep
    requires start <= |src|
  {
    var n := Run(src, start, Spacing);
    LexStep(Ok(Token(start, n, TokenType.Whitespace)), AfterRun(src, start, n),
            line + multiset(src[start .. start + n])['\n'])
  }

  /** lexNumber: the token's begin is 0, not the start of the run. */
  function Number(src: string, start: nat, line: nat): LexStep
    requires start <= |src|
  {
    var n := Run(src, start, Numeric);
    var dots := multiset(src[start .. start + n])['.'];
    LexStep(Ok(Token(0, n, if dots <= 1 then LtNumber else Unknown)), AfterRun(src, start, n), line)
  }

  /** lexKeyword: the token's begin is 0, so the text looked up is the first n characters of
      the buffer, not the run itself. */
  function Keyword(src: string, start: nat, line: nat): LexStep
    requires start <= |src|
  {
    var n := Run(src, start, Word);
    LexStep(Ok(Token(0, n, KeywordKind(src[0..n]))), AfterRun(src, start, n), line)
  }

  /** lexBetween, entered with the cursor on the opening delimiter. The body starts one past it.
      A closed body also reads the character after the closing delimiter, which throws when the
      delimiter is the last character. */
  function Between(src: string, start: nat, line: nat, delim: char, kind: TokenType): LexStep
    requires start < |src|
  {
    var begin := start + 1;
    var q := Find(src, begin, delim);
    if q == |src| then LexStep(Ok(Token(begin, q - begin, Unknown)), |src|, line)
    else if q + 1 < |src| then LexStep(Ok(Token(begin, q - begin, kind)), q + 2, line)
    else LexStep(Err(OutOfRange), q + 1, line)
  }

  predicate IsPunctuation(c: char) {
    c in {'{', '}', '[', ']', ':', ','}
  }

  function PunctuationKind(c: char): TokenType
    requires IsPunctuation(c)
  {
    if c == '{' then LBrace else if c == '}' then RBrace
    else if c == '[' then LBrack else if c == ']' then RBrack
    else if c == ':' then Colon else Comma
  }

  /** lexNext */
  function Next(src: string, pos: nat, line: nat): LexStep {
    if pos >= |src| then LexStep(Ok(Token(|src|, 1, Eof)), pos, line)
    else
      var c := src[pos];
      if IsSpacing(c) then Whitespace(src, pos, line)
      else if IsPunctuation(c) then LexStep(Ok(Token(pos, 1, PunctuationKind(c))), pos + 1, line)
      else if c == '"' then Between(src, pos, line, '"', LtStrBody)
      else if IsNumeric(c) then Number(src, pos, line)
      else if IsWordSymbol(c) then Keyword(src, pos, line)
      else LexStep(Ok(Token(pos, 1, Unknown)), pos + 1, line)
  }

  // ---------------------------------------------------------------------------------------
  // Properties of one lexNext call

  /** At or past the end, lexNext answers end of input at offset limit, length 1, and leaves the
      cursor alone, so it answers the same forever. */
  lemma NextAtEnd(src: string, pos: nat, line: nat)
    requires pos >= |src|
    ensures Next(src, pos, line) == LexStep(Ok(Token(|src|, 1, Eof)), pos, line)
    ensures Next(src, Next(src, pos, line).pos, line) == Next(src, pos, line)
  {
  }

  /** From a cursor inside the buffer: the cursor never passes the end, the line counter never
      goes down, end of input is answered exactly at the end, every other token moves the cursor
      forward and lies inside the buffer, and an exception leaves the cursor at the end. */
  lemma NextBounds(src: string, pos: nat, line: nat)
    requires pos <= |src|
    ensures var s := Next(src, pos, line);
      && s.pos <= |src|
      && s.line >= line
      && (s.result.Ok? && s.result.value.kind == Eof <==> pos == |src|)
      && (s.result.Ok? && s.result.value.kind != Eof ==> pos < s.pos && Fits(s.result.value, |src|))
      && (s.result.Err? ==> s.pos == |src|)
  {
    if pos < |src| {
      var c := src[pos];
      if IsSpacing(c) {
        var n := Run(src, pos, Spacing);
        assert n >= 1;
      }
    }
  }

  /** Each of { } [ ] : , gives a length-1 token of its kind at the cursor and moves one step. */
  lemma NextPunctuation(src: string, pos: nat, line: nat)
    requires pos < |src| && IsPunctuation(src[pos])
    ensures Next(src, pos, line) == LexStep(Ok(Token(pos, 1, PunctuationKind(src[pos]))), pos + 1, line)
  {
  }

  /** A quote closed at q, with a character after it: the body is the text strictly between the
      quotes and the cursor lands one past the character after the closing quote. */
  lemma NextClosedString(src: string, pos: nat, q: nat, line: nat)
    requires pos < q < |src| - 1
    requires src[pos] == '"' && src[q] == '"'
    requires forall k :: pos < k < q ==> src[k] != '"'
    ensures Next(src, pos, line) == LexStep(Ok(Token(pos + 1, q - pos - 1, LtStrBody)), q + 2, line)
  {
    assert Find(src, pos + 1, '"') == q;
  }

  /** A closing quote that is the last character: reading past it throws. */
  lemma NextStringClosedAtEnd(src: string, pos: nat, line: nat)
    requires pos < |src| - 1
    requires src[pos] == '"' && src[|src| - 1] == '"'
    requires forall k :: pos < k < |src| - 1 ==> src[k] != '"'
    ensures Next(src, pos, line) == LexStep(Err(OutOfRange), |src|, line)
  {
    var q := |src| - 1;
    assert Find(src, pos + 1, '"') == q;
  }

  /** A quote never closed: the rest of the buffer is an Unknown token and the cursor ends at
      the end. */
  lemma NextUnterminatedString(src: string, pos: nat, line: nat)
    requires pos < |src| && src[pos] == '"'
    requires forall k :: pos < k < |src| ==> src[k] != '"'
    ensures Next(src, pos, line) == LexStep(Ok(Token(pos + 1, |src| - pos - 1, Unknown)), |src|, line)
  {
    assert Find(src, pos + 1, '"') == |src|;
  }

  /** Whitespace: the token starts at the cursor and spans the maximal blank run; the line counter
      grows by the line feeds in it; the character that ends the run is consumed as well. */
  lemma NextWhitespace(src: string, pos: nat, n: nat, line: nat)
    requires pos < |src| && IsSpacing(src[pos])
    requires pos + n <= |src|
    requires forall k :: pos <= k < pos + n ==> IsSpacing(src[k])
    requires pos + n == |src| || !IsSpacing(src[pos + n])
    ensures Next(src, pos, line) ==
      LexStep(Ok(Token(pos, n, TokenType.Whitespace)), AfterRun(src, pos, n),
              line + multiset(src[pos .. pos + n])['\n'])
  {
    RunUnique(src, pos, Spacing, n);
  }

  /** Numbers: begin 0 and the length of the maximal digit/dot run; at most one dot gives a number
      token, two or more give Unknown; the character that ends the run is consumed as well. */
  lemma NextNumber(src: string, pos: nat, n: nat, line: nat)
    requires pos < |src| && IsNumeric(src[pos])
    requires pos + n <= |src|
    requires forall k :: pos <= k < pos + n ==> IsNumeric(src[k])
    requires pos + n == |src| || !IsNumeric(src[pos + n])
    ensures var s := Next(src, pos, line);
      && s.result.Ok?
      && s.result.value.begin == 0 && s.result.value.length == n
      && (s.result.value.kind == LtNumber <==> multiset(src[pos .. pos + n])['.'] <= 1)
      && (s.result.value.kind == Unknown <==> multiset(src[pos .. pos + n])['.'] >= 2)
      && s.pos == AfterRun(src, pos, n) && s.line == line
  {
    RunUnique(src, pos, Numeric, n);
    SpacingNumericDisjoint(src[pos]);
  }

  /** Every other character starts a keyword scan, which runs to the end of the buffer because
      every character is a word symbol. The token has begin 0 and length limit - start, and its
      kind is a keyword one only when the first limit - start characters of the buffer spell it. */
  lemma NextKeyword(src: string, pos: nat, line: nat)
    requires pos < |src|
    requires !IsSpacing(src[pos]) && !IsPunctuation(src[pos]) && src[pos] != '"' && !IsNumeric(src[pos])
    ensures var s := Next(src, pos, line);
      var lexeme := src[0 .. |src| - pos];
      && s == LexStep(Ok(Token(0, |src| - pos, KeywordKind(lexeme))), |src|, line)
      && (KeywordKind(lexeme) == LtNull <==> lexeme == "null")
      && (KeywordKind(lexeme) == LtTrue <==> lexeme == "true")
      && (KeywordKind(lexeme) == LtFalse <==> lexeme == "false")
      && (KeywordKind(lexeme) == Unknown <==> lexeme !in {"null", "true", "false"})
  {
    forall k | pos <= k < |src| ensures InClass(src[k], Word) {
      WordSymbolTautology(src[k]);
    }
    RunUnique(src, pos, Word, |src| - pos);
  }

  /** The last branch of lexNext, a one-character Unknown token, is never taken: the keyword
      branch before it accepts every character. */
  lemma FallbackUnreachable(src: string, pos: nat)
    requires pos < |src|
    ensures IsSpacing(src[pos]) || IsPunctuation(src[pos]) || src[pos] == '"' ||
            IsNumeric(src[pos]) || IsWordSymbol(src[pos])
  {
    WordSymbolTautology(src[pos]);
  }
}
