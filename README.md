# Toy JSON parser: a Dafny model

This project models the front end and value model of Toy_JSON_Parser_2, a small hand-written
C++ JSON reader, and proves what that code does.

## What is modelled

The reader has three parts.

- **Lexer.** A pull-based character scanner. It holds a buffer, its length `limit`, a cursor
  `pos` and a `line` counter. Each `lexNext` call classifies the character under the cursor and
  returns an offset/length/kind token.
- **Parser.** A recursive-descent parser with one token of lookahead. The `current` and
  `previous` tokens are fields. `consumeToken` and `doAdvance` pull tokens from the lexer, and
  three mutually recursive rules build values: value, array and object.
- **Value model.** Six JSON field classes behind an `AnyField` variant, their getters and
  `toBoxedValue`, and the `ToyJsonDocument` that pairs a title with a root value.

The code is modelled as written, quirks included, and the quirks are stated as properties:

- `isWordSymbol` accepts every character, so any character that reaches the keyword branch
  starts a keyword scan that runs to the end of the buffer.
- `lexNumber` and `lexKeyword` report `begin = 0`. The keyword lookup therefore reads the first
  characters of the buffer, not the scanned run.
- Every scanner reads the character that ends its run. The string scanner also reads the
  character after the closing quote, which swallows a `:` after an object key.
- `matchToken` rejects end of input even for an empty kind list. So `current` never holds end of
  input, and `isAtEOF` is always false.
- As a result, the last value of a document must be followed by one more substantive token.
- `parseObject` leaves `:` as the current token before `parseValue`, which rejects it. So the
  only object the parser can build is the empty one.

Each core file keeps the form it has in the source, and is modelled as follows.

- **Pure code** becomes functions and lemmas:
  - the character predicates: `Chars`;
  - token matching and `viewLexeme`: `Tokens`;
  - `toErrorName`: `ParseInfo`;
  - the message text of `createErrorMsg`: `Messages`;
  - the value classes: `Values`.
- **The imperative lexer** is the class `Lexing.Lexer`. It has the source's fields, and its
  scanners are `while` loops.
  - Each method is proved to match a pure function in `Scan`, which states what one `lexNext`
    call does.
  - The `Scan` lemmas state the token, cursor and line that each kind of character produces.
- **The imperative parser** is the class `Parsing.Parser`. It owns a `Lexing.Lexer` and updates
  `current`, `previous` and the lexer's cursor in place.
  - Each method ensures that its result and its new state equal those of a function in
    `Grammar`.
  - `Grammar` is the parser written as mutually recursive functions over the buffer and a parser
    state. The grammar lemmas are stated about those functions.
  - `Grammar.Valid` is the parser's invariant, and every method preserves it. It says the cursor
    lies inside the buffer and the current token fits the buffer and is never end of input. The
    constructor establishes it.
  - The functions in `Grammar` require `Valid`. This matches the source: with `current` never
    end of input, the `isAtEOF` early returns are never taken.
- **Exceptions** are `Outcomes.Failure` values carried in a `Result`. These are
  `std::runtime_error` with its text, `std::out_of_range` from `at` and
  `std::bad_variant_access`. There is no case for the `std::invalid_argument` that `std::stod`
  can throw (see "## Left out").

## Model

| member | source | states |
|---|---|---|
| Chars.IsSpacing | include/frontend/Lexer.hpp:10-12 | definition only (see Chars.SpacingExactly) |
| Chars.IsWordSymbol | include/frontend/Lexer.hpp:14-16 | definition only, as written (see Chars.WordSymbolTautology) |
| Chars.IsNumeric | include/frontend/Lexer.hpp:18-20 | definition only (see Chars.NumericExactly) |
| Chars.SpacingExactly | include/frontend/Lexer.hpp:10-12 | a character is spacing exactly when it is space, tab, carriage return or line feed |
| Chars.NumericExactly | include/frontend/Lexer.hpp:18-20 | a character is numeric exactly when it is a decimal digit or '.' |
| Chars.WordSymbolTautology | include/frontend/Lexer.hpp:14-16 | every character is a word symbol, because the lower-case range test is a disjunction |
| Chars.SpacingNumericDisjoint | include/frontend/Lexer.hpp:10-20 | no character is both spacing and numeric |
| Tokens.Search | include/frontend/Token.hpp:40-45 | the for loop over the list finds the kind exactly when the kind is in the list |
| Tokens.MatchTokenImpl | include/frontend/Token.hpp:36-46 | the empty list accepts every token; a non-empty list accepts exactly the tokens whose kind it contains |
| Tokens.MatchIgnoresSpan | include/frontend/Token.hpp:36-46 | two tokens of the same kind match the same lists, whatever their begin and length |
| Tokens.EmptyListMatchesEof | include/frontend/Token.hpp:37-38 | an end-of-input token matches the empty list |
| Tokens.MatchMonotone | include/frontend/Token.hpp:40-45 | a match against a non-empty list carries over to any list that contains all of its kinds |
| Tokens.ViewLexeme | src/frontend/Token.cpp:17-22 | end of input views ""; any other token views the substring from begin, clamped at the end of the source and its characters in order; it throws out_of_range exactly when begin is past the end |
| Tokens.GetLexeme | src/frontend/Token.cpp:24-37 | for a span inside the source, the copy has the token's length and is exactly the characters from begin to begin + length |
| Tokens.ViewMatchesCopy | src/frontend/Token.cpp:17-37 | for a token that is not end of input and lies inside the source, viewLexeme yields what getLexeme copies |
| ParseInfo.ToErrorName | include/frontend/ParseInfo.hpp:14-25 | every status has a non-empty name |
| ParseInfo.OkOnlyForNone | include/frontend/ParseInfo.hpp:14-25 | the name is "OK" exactly for the no-error status |
| ParseInfo.ToErrorNameInjective | include/frontend/ParseInfo.hpp:14-25 | distinct statuses have distinct names |
| Messages.NatToString | src/frontend/Parser.cpp:52 | the position is printed as a non-empty string of decimal digits, with a leading 0 only for 0 |
| Messages.DecimalOfNatToString | src/frontend/Parser.cpp:52 | reading the printed position back as a decimal number gives the position |
| Messages.NatToStringInjective | src/frontend/Parser.cpp:52 | different positions print differently |
| Messages.ErrorMessage | src/frontend/Parser.cpp:49-55 | definition only: status name, " at position ", the culprit's begin, ": ", the message (see the two lemmas below) |
| Messages.ErrorMessageIdentifiesPosition | src/frontend/Parser.cpp:49-55 | two messages with the same status and text are equal only if their culprits begin at the same offset |
| Messages.ErrorMessageStartsWithName | src/frontend/Parser.cpp:49-55 | the message starts with the status name |
| Scan.Run | src/frontend/Lexer.cpp:118-128 | the run length is maximal: every character in the run has the class and the one after it does not, or the buffer ends |
| Scan.RunUnique | src/frontend/Lexer.cpp:118-128 | any length with those two properties is the run length |
| Scan.Find | src/frontend/Lexer.cpp:94-104 | the first index holding the delimiter, or the buffer's end when there is none |
| Scan.Keywords | src/frontend/Lexer.cpp:19-21 | definition only: the three entries null, true and false (see Lexing.Lexer.constructor) |
| Scan.KeywordKind | src/frontend/Lexer.cpp:19-21 | definition only: the kind the keyword table gives, Unknown when absent (see Scan.NextKeyword) |
| Scan.Whitespace | src/frontend/Lexer.cpp:113-131 | definition only: what lexWhitespace computes (see Scan.NextWhitespace and Lexing.Lexer.LexWhitespace) |
| Scan.Number | src/frontend/Lexer.cpp:158-183 | definition only: what lexNumber computes (see Scan.NextNumber) |
| Scan.Keyword | src/frontend/Lexer.cpp:133-156 | definition only: what lexKeyword computes (see Scan.NextKeyword) |
| Scan.Between | src/frontend/Lexer.cpp:88-111 | definition only: what lexBetween computes (see the three string lemmas) |
| Scan.Next | src/frontend/Lexer.cpp:24-60 | definition only: what one lexNext call computes (see the Scan.Next lemmas below) |
| Scan.NextAtEnd | src/frontend/Lexer.cpp:24-26 | at or past the end, lexNext returns {limit, 1, eof} and leaves the cursor where it is, so it returns that token forever |
| Scan.NextBounds | src/frontend/Lexer.cpp:24-60 | the cursor never passes the end and the line never decreases; end of input comes exactly at the end; any other token moves the cursor forward and lies inside the buffer; an exception leaves the cursor at the end |
| Scan.NextPunctuation | src/frontend/Lexer.cpp:33-45 | each of { } [ ] : , gives a length-1 token of its kind at the cursor and a cursor one step on |
| Scan.NextClosedString | src/frontend/Lexer.cpp:88-111 | a closed string gives a string-body token one past the opening quote, spanning the characters up to the closing quote; the cursor lands past the character after the closing quote |
| Scan.NextStringClosedAtEnd | src/frontend/Lexer.cpp:97-100 | when the closing quote is the last character, the extra read throws out_of_range |
| Scan.NextUnterminatedString | src/frontend/Lexer.cpp:88-111 | an unterminated string gives an Unknown token over the rest of the buffer and leaves the cursor at the end |
| Scan.NextWhitespace | src/frontend/Lexer.cpp:113-131 | the whitespace token begins at the cursor and spans the maximal blank run; the line grows by the line feeds in it; the character ending the run is consumed too |
| Scan.NextNumber | src/frontend/Lexer.cpp:158-183 | begin is 0 and the length is the maximal digit/dot run; the kind is number with at most one dot and Unknown with two or more; the terminator is consumed |
| Scan.NextKeyword | src/frontend/Lexer.cpp:133-156 | a keyword scan runs to the end: begin 0, length limit minus start, cursor at the end; the kind is null, true or false exactly when the first that-many characters of the buffer spell it, and Unknown otherwise |
| Scan.FallbackUnreachable | src/frontend/Lexer.cpp:52-59 | some earlier branch of lexNext always applies, so the one-character Unknown fallback is never taken |
| Lexing.Lexer.constructor | src/frontend/Lexer.cpp:17-22 | the cursor and line start at 0, limit is the buffer length, and the keyword table holds null, true and false |
| Lexing.Lexer.LexNext | src/frontend/Lexer.cpp:24-60 | the token and the new cursor and line are those of one Scan.Next step from the old cursor and line |
| Lexing.Lexer.IsAtEnd | src/frontend/Lexer.cpp:64-66 | definition only: the cursor is at or past limit |
| Lexing.Lexer.PeekSymbol | src/frontend/Lexer.cpp:68-70 | the character under the cursor, or out_of_range exactly when the cursor is at or past the end |
| Lexing.Lexer.ConsumeSymbol | src/frontend/Lexer.cpp:72-78 | returns what peekSymbol returns and steps the cursor by one only when that read succeeds |
| Lexing.Lexer.LexSingle | src/frontend/Lexer.cpp:80-86 | a length-1 token of the given kind at the old cursor, with the cursor one step on |
| Lexing.Lexer.LexBetween | src/frontend/Lexer.cpp:88-111 | the token, the exception and the new cursor are those of Scan.Between |
| Lexing.Lexer.LexWhitespace | src/frontend/Lexer.cpp:113-131 | the token, the new cursor and the new line are those of Scan.Whitespace |
| Lexing.Lexer.LexKeyword | src/frontend/Lexer.cpp:133-156 | the token and the new cursor are those of Scan.Keyword |
| Lexing.Lexer.LexNumber | src/frontend/Lexer.cpp:158-183 | the token and the new cursor are those of Scan.Number |
| Values.Field.GetType | src/data/Value.cpp:20-101 | each field class has its own tag, never j_any, and that tag's variant position is the field's alternative |
| Values.Field.VariantIndex | include/data/Value.hpp:138 | the alternative's index in the six-way variant is below 6 |
| Values.Field.ToBoxedValue | src/data/Value.cpp:24-105 | null boxes nothing and the scalars box their payload; arrays and objects, and only they, throw "Not implemented" |
| Values.Field.IsEmpty | src/data/Value.cpp:79-113 | an array is empty exactly when its length is 0, an object exactly when its property count is 0 |
| Values.Field.GetLength | src/data/Value.cpp:83-85 | definition only: the number of items (see Values.Field.IsEmpty) |
| Values.Field.GetItemPtr | src/data/Value.cpp:87-89 | returns the item at the position, and throws out_of_range exactly when the position is not below the length |
| Values.Field.GetValuePtr | src/data/Value.cpp:119-121 | returns the value mapped to the key, and throws out_of_range exactly when the object lacks the key |
| Values.VariantPos | include/data/Value.hpp:98-113 | each position is below 6, so a valid index into the variant |
| Values.Field.GetPropertyCount | src/data/Value.cpp:111-113 | definition only: the number of keys (see Values.Field.IsEmpty) |
| Values.Field.HasProperty | src/data/Value.cpp:115-117 | definition only: the key is in the map (see Values.Field.GetValuePtr) |
| Values.AnyField.GetType | src/data/Value.cpp:142-145 | definition only: j_any (see Values.AnyTagDistinct) |
| Values.AnyField.ToBoxedValue | src/data/Value.cpp:147-150 | definition only: boxes the wrapper itself and never throws |
| Values.AnyField.UnpackValue | include/data/Value.hpp:130-136 | returns the held field exactly when the requested class's position is that field's alternative, else bad_variant_access |
| Values.VariantOrderMatchesTypeOrder | include/data/Value.hpp:138 | the variant's alternative order is the JsonType declaration order |
| Values.VariantPosIsTypeOrdinal | include/data/Value.hpp:98-113 | toAnyVariantPos of every field class is that class's position in the JsonType enum |
| Values.UnpackSelectsOwnAlternative | include/data/Value.hpp:130-138 | unpacking a wrapped field succeeds exactly for the field's own class, and then returns the field |
| Values.AnyTagDistinct | src/data/Value.cpp:142-145 | the wrapper's tag, j_any, differs from the tag of anything it holds |
| Values.DefaultArrayEmpty | src/data/Value.cpp:65-89 | a default array is empty, has length 0, and its first item throws out_of_range |
| Values.DefaultObjectEmpty | src/data/Value.cpp:93-117 | a default object is empty, has no properties, and lacks every key |
| Values.Document.GetTitle | src/data/Value.cpp:157-159 | definition only: the title (see Values.DocumentGetters) |
| Values.Document.GetRoot | src/data/Value.cpp:161-163 | definition only: the root value (see Values.DocumentGetters) |
| Values.DocumentGetters | src/data/Value.cpp:154-163 | getTitle and getRoot return the constructor arguments |
| Grammar.UnknownDiagnostic | src/frontend/Parser.cpp:80 | definition only: the unknown-token message for a skipped Unknown token (see Grammar.AdvanceReportsUnknown) |
| Grammar.MisplacedToken | src/frontend/Parser.cpp:112 | definition only: the misplaced-token runtime_error of consumeToken (see Grammar.Consume) |
| Grammar.UnexpectedForValue | src/frontend/Parser.cpp:139 | definition only: the runtime_error of parseValue (see Grammar.Value) |
| Grammar.UnexpectedInArray | src/frontend/Parser.cpp:162 | definition only: the runtime_error of parseArray (see Grammar.ArrayLoopRejectsStray) |
| Grammar.Initial | src/frontend/Parser.cpp:36-37 | definition only: cursor and line 0, both tokens {0, 0, unknown}, empty log (see Parsing.Parser.constructor) |
| Grammar.Parse | src/frontend/Parser.cpp:36-45 | definition only: a fresh parser over the buffer, then parseToADT (see the worked inputs) |
| Grammar.Advance | src/frontend/Parser.cpp:73-91 | the cursor never moves back and stays within the buffer; the line never decreases; the log only grows; an exception leaves the cursor at the end; a token that is not end of input lies in the buffer past the old cursor and is neither whitespace nor Unknown |
| Grammar.MatchToken | src/frontend/Parser.cpp:93-98 | end of input never matches, not even the empty list; any other token matches as matchTokenImpl says |
| Grammar.Consume | src/frontend/Parser.cpp:100-113 | keeps the invariant; an exception from doAdvance is passed on; otherwise it succeeds exactly when the fetched token matches the kinds, and then the fetched token becomes current, the old current becomes previous and the cursor has moved; a mismatch throws the misplaced-token error at the fetched token and leaves current and previous unchanged |
| Grammar.Value | src/frontend/Parser.cpp:115-141 | keeps the invariant; success moves the cursor; a token that starts no value is rejected with "Unexpected token for value." at its position and nothing moves; '[' yields an array and '{' the empty object; every object in the result, at any depth, is empty |
| Grammar.ArrayRule | src/frontend/Parser.cpp:143-167 | keeps the invariant; a success moves the cursor and is an array with only empty objects inside |
| Grammar.ArrayLoop | src/frontend/Parser.cpp:148-166 | keeps the invariant; the items gathered so far are a prefix of the final array's items |
| Grammar.ObjectRule | src/frontend/Parser.cpp:169-198 | keeps the invariant; the only object it can return is the empty one |
| Grammar.ObjectRuleClosesEmpty | src/frontend/Parser.cpp:170-177 | from any state, '{' followed directly by '}' gives the empty object, once the '}' is consumed |
| Grammar.ObjectMember | src/frontend/Parser.cpp:180-184 | after a key it always fails; when ':' is consumed it becomes current, and parseValue rejects it at its position with "Unexpected token for value." |
| Grammar.ParseFrom | src/frontend/Parser.cpp:39-45 | keeps the invariant; a document it returns has the given title and only empty objects |
| Grammar.AdvanceReportsUnknown | src/frontend/Parser.cpp:79-81 | a skipped Unknown token is logged next, as an unknown-token message at its own position |
| Grammar.AdvanceOverBlank | src/frontend/Parser.cpp:73-91 | over a blank tail, doAdvance returns {limit, 1, eof} and logs nothing |
| Grammar.ConsumeAtBlankTailFails | src/frontend/Parser.cpp:100-113 | with only blanks left, consumeToken throws the misplaced-token error at {limit, 1, eof}, whatever kinds it is given |
| Grammar.BlankInputRejected | src/frontend/Parser.cpp:36-45 | empty or all-blank input is rejected at the first consume |
| Grammar.ArrayLoopCloses | src/frontend/Parser.cpp:148-152 | a ']' at the head of the loop closes the array with the items gathered so far, exactly when consuming it succeeds |
| Grammar.ArrayLoopAfterComma | src/frontend/Parser.cpp:154-158 | an element followed by ',' is appended after the earlier items, and the loop continues after the ',' |
| Grammar.TrailingCommaCloses | src/frontend/Parser.cpp:148-164 | an element, a ',' and then ']' close the array with that element last |
| Grammar.ArrayLoopClosesAfterElement | src/frontend/Parser.cpp:154-160 | an element followed directly by ']' is appended, and the loop head then consumes the ']' and closes the array with it last |
| Grammar.ArrayLoopRejectsStray | src/frontend/Parser.cpp:157-163 | after an element, a token that is neither ',' nor ']' fails with "Unexpected token in Array." at its position |
| Grammar.ValueCases | src/frontend/Parser.cpp:115-137 | a scalar token becomes its leaf (the number or string keeps its lexeme) and is consumed; '[' and '{' go to the array and object rules |
| Grammar.ConsumePunctuation | src/frontend/Parser.cpp:100-113 | consuming at a punctuation character makes its one-character token current |
| Grammar.ConsumeClosedString | src/frontend/Parser.cpp:100-113 | consuming at a string closed before the last character makes its body current, with the cursor past the character after the quote |
| Grammar.AdvanceSkipsBlank | src/frontend/Parser.cpp:73-91 | a blank, a swallowed character, then punctuation: doAdvance skips the whitespace token and returns the punctuation token |
| Grammar.EmptyArrayDocument | src/frontend/Parser.cpp:143-152 | "[]]" parses to an empty array |
| Grammar.LoneKeywordRejected | src/frontend/Parser.cpp:122-124 | "true" alone is rejected: the consume after it meets end of input at position 4 |
| Grammar.EmptyObjectDocument | src/frontend/Parser.cpp:169-178 | "{}}" parses to an empty object |
| Grammar.KeyThenBlank | src/frontend/Parser.cpp:182 | in {"a": 1} with the key current, consuming the colon skips the blank and the '1' it swallows and throws at the '}' in position 7 |
| Grammar.KeyColonSwallowed | src/frontend/Parser.cpp:169-184 | {"a": 1} as a whole document is rejected at the '}' in position 7, because the key's string scan took the ':' |
| Grammar.NumberAfterBracket | src/frontend/Lexer.cpp:158-183 | in "[1 ]]", consuming after the '[' makes the number token {0, 1} current and swallows the blank |
| Grammar.NumberElement | src/frontend/Parser.cpp:126-129 | in "[1 ]]", the number value takes the lexeme of {0, 1}, which is "[" |
| Grammar.NumberElementCloses | src/frontend/Parser.cpp:148-166 | in "[1 ]]", the loop closes at the first ']' with that one number |
| Grammar.NumberReadsBufferPrefix | src/frontend/Parser.cpp:126-129 | "[1 ]]" parses to an array holding one number whose text is "[", because number tokens begin at 0 |
| Parsing.Parser.constructor | src/frontend/Parser.cpp:36-37 | both tokens start as {0, 0, unknown} over a fresh lexer of the same buffer, and the invariant holds |
| Parsing.Parser.ParseToADT | src/frontend/Parser.cpp:39-45 | the result and the new state are those of Grammar.ParseFrom from the old state |
| Parsing.Parser.LogErrorBy | src/frontend/Parser.cpp:57-59 | appends the createErrorMsg text to the diagnostics |
| Parsing.Parser.IsAtEOF | src/frontend/Parser.cpp:69-71 | false whenever the invariant holds |
| Parsing.Parser.DoAdvance | src/frontend/Parser.cpp:73-91 | the token, the lexer's new cursor and line and the diagnostics are those of Grammar.Advance |
| Parsing.Parser.ConsumeToken | src/frontend/Parser.cpp:100-113 | the result and the new state are those of Grammar.Consume |
| Parsing.Parser.ParseValue | src/frontend/Parser.cpp:115-141 | the result and the new state are those of Grammar.Value |
| Parsing.Parser.ParseArray | src/frontend/Parser.cpp:143-167 | the result and the new state are those of Grammar.ArrayRule; the loop keeps Grammar.ArrayLoop of the current state and items equal to its value at loop entry |
| Parsing.Parser.ParseObject | src/frontend/Parser.cpp:169-198 | the result and the new state are those of Grammar.ObjectRule |

## Left out

- `std::stod` (src/frontend/Parser.cpp:129): a number field keeps its lexeme, because floating-point conversion is outside the model. Its failure path is gone with it. A number token begins at 0, so a number anywhere but at the start of the buffer has a prefix of the buffer as its lexeme, such as "[". On that text `std::stod` throws `std::invalid_argument`, which `Outcomes.Failure` has no case for. The model accepts such input instead: `Grammar.NumberReadsBufferPrefix` shows "[1 ]]" parsing to a number with text "[", where the source throws.
- `logErrorBy` writes to `std::cerr`. Here the message is appended to a `diagnostics` sequence in the parser state.
- `ostringstream` formatting is plain string concatenation. A `size_t` is printed by `Messages.NatToString`.
- `size_t` and `int` are unbounded here. Overflow of the `size_t` fields `pos`, `begin` and `length` is not modelled. Nor is overflow of the signed `int` counters, which is undefined behaviour after 2^31 − 1 increments: for `line` that means line feeds over the whole input, and for `dots` the dots in one number run.
- Each Dafny `char` stands for one byte of the `string_view`, so every position is a byte offset. There is no character decoding.
- `shared_ptr`/`unique_ptr` ownership, virtual dispatch through `IJsonValue` and `std::any` boxing are not modelled. Each becomes a datatype value: `Field`, `AnyField` and `Boxed`.
- The parser wraps every value it builds, the root and each array item, in an `AnyField`. The model's document and arrays hold the bare `Field`. So on a parsed value the source's `getType` gives j_any, and its `toBoxedValue` boxes the wrapper without throwing. The model's `Values.Field.GetType` and `Values.Field.ToBoxedValue` instead describe the held field class, and for arrays and objects they throw "Not implemented". `Values.AnyField` models the wrapper's own behaviour on its own.
- `peekCurrent` and `peekPrevious` are reads of the `current` and `previous` fields and have no members of their own.
- The `shared_ptr` return types in include/frontend/Parser.hpp versus `unique_ptr` in Parser.cpp are a C++ typing mismatch, not behaviour.
- Parsing.Parser.ParseObject: its loop is written as one pass. The loop body always throws at `parseValue`, so it never returns to its head, and the key is computed and then dropped. The map insertion and the ',' / '}' test after it (src/frontend/Parser.cpp:186-194) are unreachable and have no counterpart.
- Lexing.Lexer.LexNext: the final one-character Unknown branch (src/frontend/Lexer.cpp:57-59) is unreachable, because `isWordSymbol` accepts every character. The method marks it dead, and `Scan.Next` keeps it as written.
- Grammar.AdvanceReportsUnknown: describes the report for the first Unknown token skipped. Later ones follow by applying the lemma again from the state after it.
- src/utils/FileUtils.cpp and include/utils/FileUtils.hpp read files from disk, which is I/O and not modelled.
- src/Main.cpp is a test driver printing to the console. It is not part of this model.
