/** The recursive-descent parser of src/frontend/Parser.cpp as functions of the buffer and the
    parser state. The Parser class is proved against these; the lemmas below state what the
    parser accepts and rejects. */
module Grammar {
  import opened Outcomes
  import opened Tokens
  import opened ParseInfo
  import opened Messages
  import opened Values
  import Scan
  import Chars

  /** What the parser holds between calls: the lexer's cursor and line counter, the current and
      previous tokens, and the diagnostics logErrorBy has written so far. */
  datatype PState = PState(pos: nat, line: nat, current: Token, previous: Token, log: seq<string>)

  /** A result together with the state it leaves behind. */
  datatype Step<T> = Step(result: Result<T>, st: PState)

  /** The outcome of doAdvance: the token fetched, the lexer's new cursor and line, the log. */
  datatype Advanced = Advanced(result: Result<Token>, pos: nat, line: nat, log: seq<string>)

  /** The state the Parser constructor makes: both tokens are {0, 0, unknown}. */
  function Initial(): PState {
    PState(0, 0, Token(0, 0, Unknown), Token(0, 0, Unknown), [])
  }

  /** The parser's invariant: the cursor is inside the buffer and the current token is never end
      of input and always lies inside the buffer. */
  predicate Valid(src: string, st: PState) {
    st.pos <= |src| && st.current.kind != Eof && Fits(st.current, |src|)
  }

  /** getLexeme, as a value (Tokens.GetLexeme is proved to compute it). */
  function Lexeme(t: Token, src: string): string
    requires Fits(t, |src|)
  {
    src[t.begin .. t.begin + t.length]
  }

  /** The diagnostic doAdvance writes for a skipped Unknown token (src/frontend/Parser.cpp:80). */
  function UnknownDiagnostic(t: Token): string {
    ErrorMessage(t, ErrUnknownToken, "Unknown token!\n")
  }

  /** doAdvance: pull tokens from the lexer, logging each Unknown one, until one that is neither
      whitespace nor Unknown comes back (or the parser's current token is end of input). */
  function Advance(src: string, pos: nat, line: nat, log: seq<string>, atEof: bool): (a: Advanced)
    requires pos <= |src|
    ensures pos <= a.pos <= |src|
    ensures a.line >= line
    ensures log <= a.log
    ensures a.result.Err? ==> a.pos == |src|
    ensures a.result.Ok? && a.result.value.kind != Eof ==> pos < a.pos && Fits(a.result.value, |src|)
    ensures a.result.Ok? && !atEof ==> a.result.value.kind !in {Unknown, TokenType.Whitespace}
    decreases |src| - pos
  {
    var s := Scan.Next(src, pos, line);
    Scan.NextBounds(src, pos, line);
    match s.result
    case Err(e) => Advanced(Err(e), s.pos, s.line, log)
    case Ok(t) =>
      var log' := if t.kind == Unknown then log + [UnknownDiagnostic(t)] else log;
      if (t.kind == Unknown || t.kind == TokenType.Whitespace) && !atEof then
        Advance(src, s.pos, s.line, log', atEof)
      else
        Advanced(Ok(t), s.pos, s.line, log')
  }

  /** matchToken: end of input never matches, not even the empty list. */
  function MatchToken(t: Token, types: seq<TokenType>): (r: bool)
    ensures t.kind == Eof ==> !r
    ensures t.kind != Eof ==> r == MatchTokenImpl(t, types)
  {
    if t.kind == Eof then false else MatchTokenImpl(t, types)
  }

  /** The runtime_error consumeToken throws for a token that does not match
      (src/frontend/Parser.cpp:112). */
  function MisplacedToken(t: Token): Failure {
    RuntimeError(ErrorMessage(t, ErrMisplacedToken, "Unexpected token!\n"))
  }

  /** consumeToken: nothing when the current token is end of input; otherwise fetch the next
      substantive token and, if it matches, shift it into current, else throw. */
  function Consume(src: string, st: PState, types: seq<TokenType>): (c: Step<()>)
    requires Valid(src, st)
    ensures Valid(src, c.st)
    ensures c.st.pos >= st.pos
    ensures c.result.Ok? ==>
      c.st.pos > st.pos && c.st.previous == st.current && MatchToken(c.st.current, types)
    ensures c.result.Err? ==> c.st.current == st.current && c.st.previous == st.previous
    ensures var a := Advance(src, st.pos, st.line, st.log, false);
      && (a.result.Err? ==> c.result == Err(a.result.error))
      && (a.result.Ok? ==>
            && (c.result.Ok? <==> MatchToken(a.result.value, types))
            && (c.result.Ok? ==> c.st.current == a.result.value)
            && (c.result.Err? ==> c.result.error == MisplacedToken(a.result.value)))
  {
    if st.current.kind == Eof then Step(Ok(()), st)
    else
      var a := Advance(src, st.pos, st.line, st.log, st.current.kind == Eof);
      var moved := st.(pos := a.pos, line := a.line, log := a.log);
      match a.result
      case Err(e) => Step(Err(e), moved)
      case Ok(t) =>
        if MatchToken(t, types) then Step(Ok(()), moved.(previous := st.current, current := t))
        else Step(Err(MisplacedToken(t)), moved)
  }

  /** The kinds parseValue has a case for. */
  predicate StartsValue(k: TokenType) {
    k in {LtNull, LtTrue, LtFalse, LtNumber, LtStrBody, LBrack, LBrace}
  }

  /** The kinds parseValue turns into a leaf before consuming the token. */
  predicate StartsScalar(k: TokenType) {
    k in {LtNull, LtTrue, LtFalse, LtNumber, LtStrBody}
  }

  /** The leaf parseValue builds from a scalar token. */
  function Scalar(t: Token, src: string): Field
    requires StartsScalar(t.kind) && Fits(t, |src|)
  {
    match t.kind
    case LtNull => NullField
    case LtNumber => NumberField(Lexeme(t, src))
    case LtStrBody => StringField(Lexeme(t, src))
    case _ => BooleanField(t.kind == LtTrue)
  }

  /** A field in which every object, at any depth, is empty. */
  predicate OnlyEmptyObjects(f: Field) {
    match f
    case ObjectField(props) => props == map[]
    case ArrayField(items) => forall i :: 0 <= i < |items| ==> OnlyEmptyObjects(items[i])
    case _ => true
  }

  /** The runtime_error parseValue throws for a token that starts no value
      (src/frontend/Parser.cpp:139). */
  function UnexpectedForValue(t: Token): Failure {
    RuntimeError(ErrorMessage(t, ErrMisplacedToken, "Unexpected token for value.\n"))
  }

  /** The runtime_error parseArray throws for a token after an element that is neither ',' nor ']'
      (src/frontend/Parser.cpp:162). */
  function UnexpectedInArray(t: Token): Failure {
    RuntimeError(ErrorMessage(t, ErrMisplacedToken, "Unexpected token in Array.\n"))
  }

  /** The value v, unless the consume before it threw. */
  function Then<T>(c: Step<()>, v: T): Step<T> {
    Step(if c.result.Ok? then Ok(v) else Err(c.result.error), c.st)
  }

  /** parseValue. Whatever it builds holds only empty objects, at any depth. */
  function Value(src: string, st: PState): (v: Step<Field>)
    requires Valid(src, st)
    ensures Valid(src, v.st)
    ensures v.st.pos >= st.pos
    ensures v.result.Ok? ==> v.st.pos > st.pos
    ensures !StartsValue(st.current.kind) ==> v == Step(Err(UnexpectedForValue(st.current)), st)
    ensures v.result.Ok? && st.current.kind == LBrack ==> v.result.value.ArrayField?
    ensures v.result.Ok? && st.current.kind == LBrace ==> v.result.value == ObjectField(map[])
    ensures v.result.Ok? ==> OnlyEmptyObjects(v.result.value)
    decreases |src| - st.pos, 1
  {
    var k := st.current.kind;
    if k == LtNull then Then(Consume(src, st, []), NullField)
    else if k == LtTrue || k == LtFalse then Then(Consume(src, st, []), BooleanField(k == LtTrue))
    else if k == LtNumber then
      var lexeme := Lexeme(st.current, src);
      Then(Consume(src, st, []), NumberField(lexeme))
    else if k == LtStrBody then
      var lexeme := Lexeme(st.current, src);
      Then(Consume(src, st, []), StringField(lexeme))
    else if k == LBrack then ArrayRule(src, st)
    else if k == LBrace then ObjectRule(src, st)
    else Step(Err(UnexpectedForValue(st.current)), st)
  }

  /** parseArray, up to its loop. */
  function ArrayRule(src: string, st: PState): (v: Step<Field>)
    requires Valid(src, st)
    ensures Valid(src, v.st)
    ensures v.st.pos >= st.pos
    ensures v.result.Ok? ==> v.st.pos > st.pos
    ensures v.result.Ok? ==> v.result.value.ArrayField? && OnlyEmptyObjects(v.result.value)
    decreases |src| - st.pos, 0
  {
    var c := Consume(src, st, []);
    if c.result.Err? then Step(Err(c.result.error), c.st)
    else ArrayLoop(src, c.st, [])
  }

  /** The loop of parseArray, with the items gathered so far; it only ever appends to them. */
  function ArrayLoop(src: string, st: PState, items: seq<Field>): (v: Step<Field>)
    requires Valid(src, st)
    ensures Valid(src, v.st)
    ensures v.st.pos >= st.pos
    ensures v.result.Ok? ==> v.result.value.ArrayField? && items <= v.result.value.items
    ensures v.result.Ok? && (forall i :: 0 <= i < |items| ==> OnlyEmptyObjects(items[i])) ==>
      OnlyEmptyObjects(v.result.value)
    decreases |src| - st.pos, 2
  {
    if st.current.kind == Eof then Step(Ok(ArrayField(items)), st)
    else if MatchToken(st.current, [RBrack]) then Then(Consume(src, st, []), ArrayField(items))
    else
      var e := Value(src, st);
      if e.result.Err? then Step(Err(e.result.error), e.st)
      else
        var more := items + [e.result.value];
        var s1 := e.st;
        if MatchToken(s1.current, [Comma]) then
          var c := Consume(src, s1, []);
          if c.result.Err? then Step(Err(c.result.error), c.st)
          else ArrayLoop(src, c.st, more)
        else if MatchToken(s1.current, [RBrack]) then ArrayLoop(src, s1, more)
        else Step(Err(UnexpectedInArray(s1.current)), s1)
  }

  /** parseObject. The only object it can build is the empty one (see ObjectMember). */
  function ObjectRule(src: string, st: PState): (v: Step<Field>)
    requires Valid(src, st)
    ensures Valid(src, v.st)
    ensures v.st.pos >= st.pos
    ensures v.result.Ok? ==> v.st.pos > st.pos
    ensures v.result.Ok? ==> v.result.value == ObjectField(map[])
    decreases |src| - st.pos, 0
  {
    var c := Consume(src, st, []);
    if c.result.Err? then Step(Err(c.result.error), c.st)
    else
      var s1 := c.st;
      if s1.current.kind == Eof then Step(Ok(ObjectField(map[])), s1)
      else if MatchToken(s1.current, [RBrace]) then Then(Consume(src, s1, []), ObjectField(map[]))
      else ObjectMember(src, s1)
  }

  /** The body of parseObject's loop from the key on, with the key as the current token.
      consumeToken({colon}) makes ':' the current token and parseValue rejects it there, so this
      always fails: the insertion into the map and the ',' / '}' test after it are never
      reached. */
  function ObjectMember(src: string, st: PState): (m: Step<Field>)
    requires Valid(src, st)
    ensures Valid(src, m.st)
    ensures m.st.pos >= st.pos
    ensures m.result.Err?
    ensures var c := Consume(src, st, [Colon]);
      c.result.Ok? ==>
        c.st.current.kind == Colon && m == Step(Err(UnexpectedForValue(c.st.current)), c.st)
    decreases |src| - st.pos, 0
  {
    var c := Consume(src, st, [Colon]);
    if c.result.Err? then Step(Err(c.result.error), c.st)
    else
      var e := Value(src, c.st);
      Step(Err(e.result.error), e.st)
  }

  /** parseToADT: load the first token, then parse one value. */
  function ParseFrom(src: string, st: PState, title: string): (d: Step<Document>)
    requires Valid(src, st)
    ensures Valid(src, d.st)
    ensures d.result.Ok? ==> d.result.value.title == title && OnlyEmptyObjects(d.result.value.root)
  {
    var c := Consume(src, st, []);
    if c.result.Err? then Step(Err(c.result.error), c.st)
    else
      var e := Value(src, c.st);
      if e.result.Err? then Step(Err(e.result.error), e.st)
      else Step(Ok(Document(title, e.result.value)), e.st)
  }

  /** Constructing a Parser over src and calling parseToADT(title). */
  function Parse(src: string, title: string): Result<Document> {
    ParseFrom(src, Initial(), title).result
  }

  /* ---- Properties ---- */

  /** The first Unknown token doAdvance skips is reported next in the log, with its own position;
      later ones follow by applying this again from the state after it. */
  lemma AdvanceReportsUnknown(src: string, pos: nat, line: nat, log: seq<string>)
    requires pos <= |src|
    requires Scan.Next(src, pos, line).result.Ok? && Scan.Next(src, pos, line).result.value.kind == Unknown
    ensures var a := Advance(src, pos, line, log, false);
      |a.log| > |log| && a.log[|log|] == UnknownDiagnostic(Scan.Next(src, pos, line).result.value)
  {
    Scan.NextBounds(src, pos, line);
  }

  /** Nothing but blanks is left: the characters from i on are all spacing. */
  predicate BlankFrom(src: string, i: nat) {
    forall k :: i <= k < |src| ==> Chars.IsSpacing(src[k])
  }

  /** Over a blank tail, doAdvance skips one whitespace token and returns end of input. */
  lemma AdvanceOverBlank(src: string, pos: nat, line: nat, log: seq<string>)
    requires pos <= |src| && BlankFrom(src, pos)
    ensures Advance(src, pos, line, log, false).result == Ok(Token(|src|, 1, Eof))
    ensures Advance(src, pos, line, log, false).log == log
  {
    if pos < |src| {
      Scan.NextWhitespace(src, pos, |src| - pos, line);
      var s := Scan.Next(src, pos, line);
      Scan.NextAtEnd(src, s.pos, s.line);
    } else {
      Scan.NextAtEnd(src, pos, line);
    }
  }

  /** So a consume with only blanks left fails, with the misplaced-token error at the end of
      input token {limit, 1, eof}: the last value of a document must be followed by another
      token. */
  lemma ConsumeAtBlankTailFails(src: string, st: PState, types: seq<TokenType>)
    requires Valid(src, st) && BlankFrom(src, st.pos)
    ensures Consume(src, st, types).result == Err(MisplacedToken(Token(|src|, 1, Eof)))
  {
    AdvanceOverBlank(src, st.pos, st.line, st.log);
  }

  /** Empty or all-blank input is rejected at the first consume. */
  lemma BlankInputRejected(src: string, title: string)
    requires BlankFrom(src, 0)
    ensures Parse(src, title) == Err(MisplacedToken(Token(|src|, 1, Eof)))
  {
    ConsumeAtBlankTailFails(src, Initial(), []);
  }

  /** A ']' met at the head of the loop closes the array with the items gathered so far; this is
      also what happens to a ']' after a trailing ','. */
  lemma ArrayLoopCloses(src: string, st: PState, items: seq<Field>)
    requires Valid(src, st) && st.current.kind == RBrack
    ensures var v := ArrayLoop(src, st, items);
      v.result.Ok? <==> Consume(src, st, []).result.Ok?
    ensures var v := ArrayLoop(src, st, items);
      v.result.Ok? ==> v.result.value == ArrayField(items)
  {
  }

  /** An element followed by ',' is appended and the loop goes on after the ','. */
  lemma ArrayLoopAfterComma(src: string, st: PState, items: seq<Field>)
    requires Valid(src, st) && st.current.kind != RBrack
    requires Value(src, st).result.Ok? && Value(src, st).st.current.kind == Comma
    requires Consume(src, Value(src, st).st, []).result.Ok?
    ensures ArrayLoop(src, st, items) ==
      ArrayLoop(src, Consume(src, Value(src, st).st, []).st, items + [Value(src, st).result.value])
  {
  }

  /** A trailing comma: an element, a ',' and then a ']' close the array with that element
      last. */
  lemma TrailingCommaCloses(src: string, st: PState, items: seq<Field>)
    requires Valid(src, st) && st.current.kind != RBrack
    ensures var e := Value(src, st);
      var c := Consume(src, e.st, []);
      e.result.Ok? && e.st.current.kind == Comma && c.result.Ok? && c.st.current.kind == RBrack ==>
        ArrayLoop(src, st, items) == Then(Consume(src, c.st, []), ArrayField(items + [e.result.value]))
  {
    var e := Value(src, st);
    var c := Consume(src, e.st, []);
    if e.result.Ok? && e.st.current.kind == Comma && c.result.Ok? && c.st.current.kind == RBrack {
      ArrayLoopAfterComma(src, st, items);
      ArrayLoopCloses(src, c.st, items + [e.result.value]);
    }
  }

  /** An element followed directly by ']': the loop goes back to its head, which consumes the ']'
      and closes the array with that element last. */
  lemma ArrayLoopClosesAfterElement(src: string, st: PState, items: seq<Field>)
    requires Valid(src, st) && st.current.kind != RBrack
    ensures var e := Value(src, st);
      e.result.Ok? && e.st.current.kind == RBrack ==>
        ArrayLoop(src, st, items) == Then(Consume(src, e.st, []), ArrayField(items + [e.result.value]))
  {
    var e := Value(src, st);
    if e.result.Ok? && e.st.current.kind == RBrack {
      assert !MatchToken(e.st.current, [Comma]);
      ArrayLoopCloses(src, e.st, items + [e.result.value]);
    }
  }

  /** After an element, a token that is neither ',' nor ']' is rejected where it stands. */
  lemma ArrayLoopRejectsStray(src: string, st: PState, items: seq<Field>)
    requires Valid(src, st) && !MatchToken(st.current, [RBrack])
    requires Value(src, st).result.Ok?
    requires Value(src, st).st.current.kind !in {Comma, RBrack}
    ensures ArrayLoop(src, st, items)
      == Step(Err(UnexpectedInArray(Value(src, st).st.current)), Value(src, st).st)
  {
    var s1 := Value(src, st).st;
    assert !MatchToken(s1.current, [Comma]);
    assert !MatchToken(s1.current, [RBrack]);
  }

  /** parseValue's dispatch: a scalar is built and its token consumed, '[' and '{' go to their
      rules. */
  lemma ValueCases(src: string, st: PState)
    requires Valid(src, st)
    ensures StartsScalar(st.current.kind) ==>
      Value(src, st) == Then(Consume(src, st, []), Scalar(st.current, src))
    ensures st.current.kind == LBrack ==> Value(src, st) == ArrayRule(src, st)
    ensures st.current.kind == LBrace ==> Value(src, st) == ObjectRule(src, st)
  {
  }

  /** '{' followed directly by '}' is the empty object, once the '}' is consumed. */
  lemma ObjectRuleClosesEmpty(src: string, st: PState)
    requires Valid(src, st)
    ensures var c := Consume(src, st, []);
      c.result.Ok? && c.st.current.kind == RBrace ==>
        ObjectRule(src, st) == Then(Consume(src, c.st, []), ObjectField(map[]))
  {
  }

  /** consumeToken on a punctuation character: that one-character token becomes current. */
  lemma ConsumePunctuation(src: string, st: PState, types: seq<TokenType>)
    requires Valid(src, st) && st.pos < |src| && Scan.IsPunctuation(src[st.pos])
    requires MatchTokenImpl(Token(st.pos, 1, Scan.PunctuationKind(src[st.pos])), types)
    ensures Consume(src, st, types) == Step(Ok(()),
      st.(pos := st.pos + 1, previous := st.current,
          current := Token(st.pos, 1, Scan.PunctuationKind(src[st.pos]))))
  {
    Scan.NextPunctuation(src, st.pos, st.line);
  }

  /** consumeToken at a string closed before the last character: its body becomes current and
      the cursor moves past the character after the closing quote. */
  lemma ConsumeClosedString(src: string, st: PState, q: nat, types: seq<TokenType>)
    requires Valid(src, st) && st.pos < q < |src| - 1
    requires src[st.pos] == '"' && src[q] == '"'
    requires forall k :: st.pos < k < q ==> src[k] != '"'
    requires MatchTokenImpl(Token(st.pos + 1, q - st.pos - 1, LtStrBody), types)
    ensures Consume(src, st, types) == Step(Ok(()),
      st.(pos := q + 2, previous := st.current, current := Token(st.pos + 1, q - st.pos - 1, LtStrBody)))
  {
    Scan.NextClosedString(src, st.pos, q, st.line);
  }

  /** doAdvance over one blank followed by a character it swallows and then a punctuation
      character: that punctuation token comes back. */
  lemma AdvanceSkipsBlank(src: string, pos: nat, line: nat, log: seq<string>, atEof: bool)
    requires pos + 2 < |src| && Chars.IsSpacing(src[pos]) && !Chars.IsSpacing(src[pos + 1])
    requires Scan.IsPunctuation(src[pos + 2]) && !atEof
    ensures Advance(src, pos, line, log, atEof) ==
      Advanced(Ok(Token(pos + 2, 1, Scan.PunctuationKind(src[pos + 2]))), pos + 3,
               line + multiset(src[pos .. pos + 1])['\n'], log)
  {
    Scan.NextWhitespace(src, pos, 1, line);
    Scan.NextPunctuation(src, pos + 2, line + multiset(src[pos .. pos + 1])['\n']);
  }

  /* ---- Worked inputs ---- */

  /** "[]]": the array closes at the first ']', and the second one is the token the final consume
      needs. */
  lemma EmptyArrayDocument(src: string)
    requires src == "[]]"
    ensures Parse(src, "doc") == Ok(Document("doc", ArrayField([])))
  {
    var s1 := PState(1, 0, Token(0, 1, LBrack), Token(0, 0, Unknown), []);
    var s2 := PState(2, 0, Token(1, 1, RBrack), Token(0, 1, LBrack), []);
    var s3 := PState(3, 0, Token(2, 1, RBrack), Token(1, 1, RBrack), []);
    ConsumePunctuation(src, Initial(), []);
    ConsumePunctuation(src, s1, []);
    ConsumePunctuation(src, s2, []);
    ArrayLoopCloses(src, s2, []);
    assert Value(src, s1) == Step(Ok(ArrayField([])), s3);
  }

  /** "true" alone fails: the consume after it finds only the end of input. */
  lemma LoneKeywordRejected(src: string)
    requires src == "true"
    ensures Parse(src, "doc") == Err(MisplacedToken(Token(4, 1, Eof)))
  {
    Scan.NextKeyword(src, 0, 0);
    assert src[0 .. 4] == "true";
    var s1 := PState(4, 0, Token(0, 4, LtTrue), Token(0, 0, Unknown), []);
    assert Consume(src, Initial(), []) == Step(Ok(()), s1);
    ConsumeAtBlankTailFails(src, s1, []);
    assert Value(src, s1).result == Err(MisplacedToken(Token(4, 1, Eof)));
  }

  /** "{}}": '{' followed directly by '}' is the empty object. */
  lemma EmptyObjectDocument(src: string)
    requires src == "{}}"
    ensures Parse(src, "doc") == Ok(Document("doc", ObjectField(map[])))
  {
    var s1 := PState(1, 0, Token(0, 1, LBrace), Token(0, 0, Unknown), []);
    var s2 := PState(2, 0, Token(1, 1, RBrace), Token(0, 1, LBrace), []);
    var s3 := PState(3, 0, Token(2, 1, RBrace), Token(1, 1, RBrace), []);
    ConsumePunctuation(src, Initial(), []);
    ConsumePunctuation(src, s1, []);
    ConsumePunctuation(src, s2, []);
    assert Value(src, s1) == Step(Ok(ObjectField(map[])), s3);
  }

  /** {"a": 1}, from the state with the key current: the blank is skipped with the '1' it
      swallows, and '}' at position 7 is what consumeToken({colon}) meets. */
  lemma KeyThenBlank(src: string)
    requires src == "{\"a\": 1}"
    ensures Consume(src, PState(5, 0, Token(2, 1, LtStrBody), Token(0, 1, LBrace), []), [Colon]).result
      == Err(MisplacedToken(Token(7, 1, RBrace)))
  {
    AdvanceSkipsBlank(src, 5, 0, [], false);
  }

  /** {"a": 1}: the string scan steps over the ':' along with the closing quote, so the key is
      followed by the blank, and the document is rejected at the '}' in position 7. */
  lemma KeyColonSwallowed(src: string)
    requires src == "{\"a\": 1}"
    ensures Parse(src, "doc") == Err(MisplacedToken(Token(7, 1, RBrace)))
  {
    var s1 := PState(1, 0, Token(0, 1, LBrace), Token(0, 0, Unknown), []);
    ConsumePunctuation(src, Initial(), []);
    ConsumeClosedString(src, s1, 3, []);
    KeyThenBlank(src);
    ValueCases(src, s1);
  }

  /** "[1 ]]" after the '[': the number token has begin 0 and the blank after it is swallowed. */
  lemma NumberAfterBracket(src: string)
    requires src == "[1 ]]"
    ensures Consume(src, PState(1, 0, Token(0, 1, LBrack), Token(0, 0, Unknown), []), []) ==
      Step(Ok(()), PState(3, 0, Token(0, 1, LtNumber), Token(0, 1, LBrack), []))
  {
    Scan.NextNumber(src, 1, 1, 0);
  }

  /** "[1 ]]" at the number token: its lexeme is "[", and the ']' after it becomes current. */
  lemma NumberElement(src: string)
    requires src == "[1 ]]"
    ensures Value(src, PState(3, 0, Token(0, 1, LtNumber), Token(0, 1, LBrack), [])) ==
      Step(Ok(NumberField("[")), PState(4, 0, Token(3, 1, RBrack), Token(0, 1, LtNumber), []))
  {
    var s2 := PState(3, 0, Token(0, 1, LtNumber), Token(0, 1, LBrack), []);
    ConsumePunctuation(src, s2, []);
    ValueCases(src, s2);
    assert Scalar(s2.current, src) == NumberField(src[0 .. 1]) == NumberField("[");
  }

  /** "[1 ]]" from the number token: the loop closes at the first ']' with that one element. */
  lemma NumberElementCloses(src: string)
    requires src == "[1 ]]"
    ensures ArrayLoop(src, PState(3, 0, Token(0, 1, LtNumber), Token(0, 1, LBrack), []), []) ==
      Step(Ok(ArrayField([NumberField("[")])),
           PState(5, 0, Token(4, 1, RBrack), Token(3, 1, RBrack), []))
  {
    var s2 := PState(3, 0, Token(0, 1, LtNumber), Token(0, 1, LBrack), []);
    var s3 := PState(4, 0, Token(3, 1, RBrack), Token(0, 1, LtNumber), []);
    var items: seq<Field> := [NumberField("[")];
    NumberElement(src);
    ConsumePunctuation(src, s3, []);
    ArrayLoopClosesAfterElement(src, s2, []);
    assert [] + [NumberField("[")] == items;
    assert ArrayLoop(src, s2, []) == Then(Consume(src, s3, []), ArrayField(items));
  }

  /** "[1 ]]": lexNumber reports begin 0, so the number's lexeme is the first character of the
      buffer, "[", not "1". */
  lemma NumberReadsBufferPrefix(src: string)
    requires src == "[1 ]]"
    ensures Parse(src, "doc") == Ok(Document("doc", ArrayField([NumberField("[")])))
  {
    var s1 := PState(1, 0, Token(0, 1, LBrack), Token(0, 0, Unknown), []);
    ConsumePunctuation(src, Initial(), []);
    NumberAfterBracket(src);
    NumberElementCloses(src);
    ValueCases(src, s1);
  }
}
