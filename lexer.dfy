/** The pull-based tokenizer of src/frontend/Lexer.cpp: a cursor over the buffer plus a line
    counter, each lexNext call proved to do what Scan.Next says. */
module Lexing {
  import opened Outcomes
  import opened Chars
  import opened Tokens
  import Scan

  class Lexer {
    var kwordMap: map<string, TokenType>
    const symbols: string
    const limit: nat
    var pos: nat
    var line: nat

    ghost predicate Valid()
      reads this
    {
      limit == |symbols| && pos <= limit && kwordMap == Scan.Keywords()
    }

    /** The cursor and the line counter start at 0 and the keyword table holds its three entries. */
    constructor (sv: string)
      ensures Valid()
      ensures symbols == sv && pos == 0 && line == 0
    {
      symbols := sv;
      limit := |sv|;
      pos := 0;
      line := 0;
      new;
      kwordMap := map[];
      kwordMap := kwordMap["null" := LtNull];
      kwordMap := kwordMap["true" := LtTrue];
      kwordMap := kwordMap["false" := LtFalse];
    }

    /** lexNext */
    method LexNext() returns (r: Result<Token>)
      requires Valid()
      modifies this`pos, this`line
      ensures Valid()
      ensures Scan.LexStep(r, pos, line) == Scan.Next(symbols, old(pos), old(line))
    {
      if IsAtEnd() {
        return Ok(Token(limit, 1, Eof));
      }
      var peeked := PeekSymbol().value;
      if IsSpacing(peeked) {
        var t := LexWhitespace();
        return Ok(t);
      }
      if peeked == '{' {
        var t := LexSingle(LBrace);
        return Ok(t);
      } else if peeked == '}' {
        var t := LexSingle(RBrace);
        return Ok(t);
      } else if peeked == '[' {
        var t := LexSingle(LBrack);
        return Ok(t);
      } else if peeked == ']' {
        var t := LexSingle(RBrack);
        return Ok(t);
      } else if peeked == ':' {
        var t := LexSingle(Colon);
        return Ok(t);
      } else if peeked == ',' {
        var t := LexSingle(Comma);
        return Ok(t);
      } else if peeked == '"' {
        r := LexBetween('"', LtStrBody);
        return;
      }
      if IsNumeric(peeked) {
        var t := LexNumber();
        return Ok(t);
      } else if IsWordSymbol(peeked) {
        var t := LexKeyword();
        return Ok(t);
      }
      // The one-character Unknown fallback of the source: IsWordSymbol accepts every character,
      // so control never gets here (Chars.WordSymbolTautology).
      assert false;
    }

    function IsAtEnd(): bool
      reads this
    {
      pos >= limit
    }

    /** string_view::at: the character under the cursor, or std::out_of_range at the end. */
    function PeekSymbol(): (r: Result<char>)
      reads this
      ensures r.Ok? <==> pos < |symbols|
      ensures r.Ok? ==> r.value == symbols[pos]
    {
      if pos < |symbols| then Ok(symbols[pos]) else Err(OutOfRange)
    }

    /** Read the character under the cursor and step past it; a failed read does not step. */
    method ConsumeSymbol() returns (r: Result<char>)
      modifies this`pos
      ensures r == old(PeekSymbol())
      ensures pos == if r.Ok? then old(pos) + 1 else old(pos)
    {
      r := PeekSymbol();
      if r.Ok? {
        pos := pos + 1;
      }
    }

    /** A one-character token of the given kind at the cursor. */
    method LexSingle(kind: TokenType) returns (t: Token)
      modifies this`pos
      ensures t == Token(old(pos), 1, kind)
      ensures pos == old(pos) + 1
    {
      var begin := pos;
      pos := pos + 1;
      t := Token(begin, 1, kind);
    }

    /** lexBetween, called with the cursor on the opening delimiter. */
    method LexBetween(delim: char, kind: TokenType) returns (r: Result<Token>)
      requires Valid() && pos < limit
      modifies this`pos
      ensures Valid()
      ensures Scan.LexStep(r, pos, line) == Scan.Between(symbols, old(pos), line, delim, kind)
    {
      pos := pos + 1;
      var begin := pos;
      var length := 0;
      var closed := false;
      while !IsAtEnd()
        invariant Valid() && begin <= pos
        invariant !closed && pos == begin + length
        invariant forall k :: begin <= k < pos ==> symbols[k] != delim
        decreases limit - pos
      {
        var c := ConsumeSymbol();
        if c.value == delim {
          closed := true;
          var after := ConsumeSymbol();
          if after.Err? {
            return Err(after.error);
          }
          break;
        }
        length := length + 1;
      }
      assert Scan.Find(symbols, begin, delim) == begin + length;
      r := Ok(Token(begin, length, if closed then kind else Unknown));
    }

    /** lexWhitespace */
    method LexWhitespace() returns (t: Token)
      requires Valid()
      modifies this`pos, this`line
      ensures Valid()
      ensures Scan.LexStep(Ok(t), pos, line) == Scan.Whitespace(symbols, old(pos), old(line))
    {
      var begin := pos;
      var length := 0;
      while !IsAtEnd()
        invariant Valid() && begin <= pos
        invariant begin + length <= limit
        invariant pos == begin + length
        invariant forall k :: begin <= k < begin + length ==> IsSpacing(symbols[k])
        invariant line == old(line) + multiset(symbols[begin .. begin + length])['\n']
        decreases limit - pos
      {
        var c := ConsumeSymbol();
        if !IsSpacing(c.value) {
          break;
        }
        assert symbols[begin .. begin + length + 1] == symbols[begin .. begin + length] + [c.value];
        if c.value == '\n' {
          line := line + 1;
        }
        length := length + 1;
      }
      assert begin + length == limit || !IsSpacing(symbols[begin + length]);
      assert pos == Scan.AfterRun(symbols, begin, length);
      Scan.RunUnique(symbols, begin, Scan.Spacing, length);
      t := Token(begin, length, TokenType.Whitespace);
    }

    /** lexKeyword: begin stays 0 and the lookup uses getLexeme of that token. */
    method LexKeyword() returns (t: Token)
      requires Valid()
      modifies this`pos
      ensures Valid()
      ensures Scan.LexStep(Ok(t), pos, line) == Scan.Keyword(symbols, old(pos), line)
    {
      var start := pos;
      var begin := 0;
      var length := 0;
      while !IsAtEnd()
        invariant Valid() && start <= pos
        invariant start + length <= limit
        invariant pos == start + length
        invariant forall k :: start <= k < start + length ==> IsWordSymbol(symbols[k])
        decreases limit - pos
      {
        var c := ConsumeSymbol();
        if !IsWordSymbol(c.value) {
          break;
        }
        length := length + 1;
      }
      assert pos == Scan.AfterRun(symbols, start, length);
      Scan.RunUnique(symbols, start, Scan.Word, length);
      var result := Token(begin, length, Unknown);
      var lexeme := GetLexeme(result, symbols);
      if lexeme !in kwordMap {
        return result;
      }
      t := result.(kind := kwordMap[lexeme]);
    }

    /** lexNumber: begin stays 0; the dots in the run decide between a number and Unknown. */
    method LexNumber() returns (t: Token)
      requires Valid()
      modifies this`pos
      ensures Valid()
      ensures Scan.LexStep(Ok(t), pos, line) == Scan.Number(symbols, old(pos), line)
    {
      var start := pos;
      var begin := 0;
      var length := 0;
      var dots := 0;
      while !IsAtEnd()
        invariant Valid() && start <= pos
        invariant start + length <= limit
        invariant pos == start + length
        invariant forall k :: start <= k < start + length ==> IsNumeric(symbols[k])
        invariant dots == multiset(symbols[start .. start + length])['.']
        decreases limit - pos
      {
        var c := ConsumeSymbol();
        if !IsNumeric(c.value) {
          break;
        }
        assert symbols[start .. start + length + 1] == symbols[start .. start + length] + [c.value];
        if c.value == '.' {
          dots := dots + 1;
        }
        length := length + 1;
      }
      assert start + length == limit || !IsNumeric(symbols[start + length]);
      assert pos == Scan.AfterRun(symbols, start, length);
      Scan.RunUnique(symbols, start, Scan.Numeric, length);
      if dots == 0 || dots == 1 {
        return Token(begin, length, LtNumber);
      }
      t := Token(begin, length, Unknown);
    }
  }
}
