/** The Parser class of src/frontend/Parser.cpp: it owns a Lexer, keeps the current and previous
    tokens in fields and advances them in place; each method is proved to do what the matching
    Grammar function says. The diagnostics logErrorBy writes are kept in a field. */
module Parsing {
  import opened Outcomes
  import opened Tokens
  import opened ParseInfo
  import opened Messages
  import opened Values
  import opened Grammar
  import Lexing
  import Scan

  class Parser {
    const lexer: Lexing.Lexer
    var current: Token
    var previous: Token
    const symbols: string
    var diagnostics: seq<string>

    /** The parser's state as the Grammar functions see it. */
    function State(): PState
      reads this, lexer
    {
      PState(lexer.pos, lexer.line, current, previous, diagnostics)
    }

    ghost predicate Valid()
      reads this, lexer
    {
      lexer.Valid() && lexer.symbols == symbols && Grammar.Valid(symbols, State())
    }

    /** Both tokens start as {0, 0, unknown}, over a fresh lexer of the same buffer. */
    constructor (sv: string)
      ensures Valid() && fresh(lexer)
      ensures symbols == sv && State() == Initial()
    {
      lexer := new Lexing.Lexer(sv);
      current := Token(0, 0, Unknown);
      previous := Token(0, 0, Unknown);
      symbols := sv;
      diagnostics := [];
    }

    /** parseToADT */
    method ParseToADT(name: string) returns (r: Result<Document>)
      requires Valid()
      modifies this, lexer`pos, lexer`line
      ensures Valid()
      ensures Step(r, State()) == ParseFrom(symbols, old(State()), name)
    {
      var c := ConsumeToken([]);
      if c.Err? {
        return Err(c.error);
      }
      var root := ParseValue();
      if root.Err? {
        return Err(root.error);
      }
      return Ok(Document(name, root.value));
    }

    /** logErrorBy: the message goes to the diagnostics instead of the error stream. */
    method LogErrorBy(culprit: Token, status: ParseStatus, msg: string)
      modifies this`diagnostics
      ensures diagnostics == old(diagnostics) + [ErrorMessage(culprit, status, msg)]
    {
      diagnostics := diagnostics + [ErrorMessage(culprit, status, msg)];
    }

    /** isAtEOF: never true while the parser is valid, since no end of input token is ever
        stored in current. */
    function IsAtEOF(): (r: bool)
      reads this, lexer
      ensures Valid() ==> !r
    {
      current.kind == Eof
    }

    /** doAdvance */
    method DoAdvance() returns (r: Result<Token>)
      requires Valid()
      modifies this`diagnostics, lexer`pos, lexer`line
      ensures Valid()
      ensures Advanced(r, lexer.pos, lexer.line, diagnostics)
        == Advance(symbols, old(lexer.pos), old(lexer.line), old(diagnostics), old(IsAtEOF()))
    {
      ghost var target := Advance(symbols, lexer.pos, lexer.line, diagnostics, IsAtEOF());
      var more := true;
      r := Ok(Token(0, 0, Unknown));
      while more
        invariant Valid()
        invariant more ==> Advance(symbols, lexer.pos, lexer.line, diagnostics, IsAtEOF()) == target
        invariant !more ==> Advanced(r, lexer.pos, lexer.line, diagnostics) == target
        decreases |symbols| - lexer.pos, more
      {
        Scan.NextBounds(symbols, lexer.pos, lexer.line);
        r := lexer.LexNext();
        if r.Err? {
          more := false;
        } else if r.value.kind == Unknown {
          LogErrorBy(r.value, ErrUnknownToken, "Unknown token!\n");
          more := !IsAtEOF();
        } else if r.value.kind == TokenType.Whitespace {
          more := !IsAtEOF();
        } else {
          more := false;
        }
      }
    }

    /** consumeToken */
    method ConsumeToken(types: seq<TokenType>) returns (r: Result<()>)
      requires Valid()
      modifies this, lexer`pos, lexer`line
      ensures Valid()
      ensures Step(r, State()) == Consume(symbols, old(State()), types)
    {
      if IsAtEOF() {
        return Ok(());
      }
      var temp := DoAdvance();
      if temp.Err? {
        return Err(temp.error);
      }
      if MatchToken(temp.value, types) {
        previous := current;
        current := temp.value;
        return Ok(());
      }
      return Err(MisplacedToken(temp.value));
    }

    /** parseValue */
    method ParseValue() returns (r: Result<Field>)
      requires Valid()
      modifies this, lexer`pos, lexer`line
      ensures Valid()
      ensures Step(r, State()) == Value(symbols, old(State()))
      decreases |symbols| - lexer.pos, 1
    {
      ValueCases(symbols, State());
      var peeked := current.kind;
      if StartsScalar(peeked) {
        var leaf: Field;
        if peeked == LtNull {
          leaf := NullField;
        } else if peeked == LtTrue || peeked == LtFalse {
          leaf := BooleanField(peeked == LtTrue);
        } else if peeked == LtNumber {
          var lexeme := GetLexeme(current, symbols);
          leaf := NumberField(lexeme);
        } else {
          var lexeme := GetLexeme(current, symbols);
          leaf := StringField(lexeme);
        }
        assert leaf == Scalar(current, symbols);
        var c := ConsumeToken([]);
        r := if c.Ok? then Ok(leaf) else Err(c.error);
      } else if peeked == LBrack {
        r := ParseArray();
      } else if peeked == LBrace {
        r := ParseObject();
      } else {
        r := Err(UnexpectedForValue(current));
      }
    }

    /** parseArray: the items vector grows in place until ']' is consumed. */
    method ParseArray() returns (r: Result<Field>)
      requires Valid()
      modifies this, lexer`pos, lexer`line
      ensures Valid()
      ensures Step(r, State()) == ArrayRule(symbols, old(State()))
      decreases |symbols| - lexer.pos, 0
    {
      var c := ConsumeToken([]);
      if c.Err? {
        return Err(c.error);
      }
      var items: seq<Field> := [];
      ghost var target := ArrayLoop(symbols, State(), items);
      while !IsAtEOF()
        invariant Valid()
        invariant lexer.pos > old(lexer.pos)
        invariant ArrayLoop(symbols, State(), items) == target
        decreases |symbols| - lexer.pos
      {
        if MatchToken(current, [RBrack]) {
          var closing := ConsumeToken([]);
          if closing.Err? {
            return Err(closing.error);
          }
          break;
        }
        var item := ParseValue();
        if item.Err? {
          return Err(item.error);
        }
        items := items + [item.value];
        if MatchToken(current, [Comma]) {
          var comma := ConsumeToken([]);
          if comma.Err? {
            return Err(comma.error);
          }
        } else if MatchToken(current, [RBrack]) {
          continue;
        } else {
          return Err(UnexpectedInArray(current));
        }
      }
      return Ok(ArrayField(items));
    }

    /** parseObject. Its loop never comes back to its head (see Grammar.ObjectRule), so it is
        written as one pass; the map it would fill stays empty. */
    method ParseObject() returns (r: Result<Field>)
      requires Valid()
      modifies this, lexer`pos, lexer`line
      ensures Valid()
      ensures Step(r, State()) == ObjectRule(symbols, old(State()))
      decreases |symbols| - lexer.pos, 0
    {
      var c := ConsumeToken([]);
      if c.Err? {
        return Err(c.error);
      }
      if !IsAtEOF() {
        if MatchToken(current, [RBrace]) {
          var closing := ConsumeToken([]);
          if closing.Err? {
            return Err(closing.error);
          }
          return Ok(ObjectField(map[]));
        }
        var key := GetLexeme(current, symbols);
        var colon := ConsumeToken([Colon]);
        if colon.Err? {
          return Err(colon.error);
        }
        var value := ParseValue();
        assert value.Err?;
        return Err(value.error);
      }
      return Ok(ObjectField(map[]));
    }
  }
}
