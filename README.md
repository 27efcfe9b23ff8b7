# Lumina front end in Dafny

This is a model of the two passes at the front of Lumina, a small C-like language.

- **The lexer** (`lexico.py`) turns source text into a list of tokens.
  - Each token has a category, the matched text, and the line and column where it starts.
  - At every offset it tries an ordered table of patterns and takes the first entry that matches, not the longest match.
  - White space and comments are dropped, but they still move the line and column.
  - Names are looked up in a case-sensitive keyword table.
  - One end-of-input token closes the list.
  - The lexer fails at the first character where no entry matches.
- **The parser** (`sintatico.py`) is a recursive-descent recognizer.
  - It has one method per nonterminal and walks an index over the token list.
  - It looks one token ahead, or two where a name may start a call.
  - It accepts the list or stops at the first mismatch.

The model has these modules:

- `Tokens`: the token categories, positions and the token record, plus Option and Result.
  - The categories form a `newtype` numbered 0 to 32.
- `Patterns`: one hand-written matcher per table entry, the ordered table and the first-match rule.
- `LexSpec`: what `tokenize` computes, written as functions.
  - These are the position update, the scan into pieces, token emission and the final outcome.
  - Lemmas give tiling of the text, the end-of-input token, increasing positions and the error case.
- `Priority`: which table entry wins for each kind of leading character.
- `Lexico`: the `Lexer` class with the source's own fields `text`, `pos`, `line` and `column`.
  - Its loops are proved to compute `LexSpec.Tokenize`.
- `Grammar`: the recognizer as functions. The result is the index reached, or the first syntax error.
- `Sintatico`: the `Parser` class with fields `tokens`, `index` and `current`.
  - It has one method per nonterminal.
  - Each method's result and final index are proved equal to the `Grammar` function's.
- `GrammarFacts`, `Scenarios`, `LexScenarios`, `Pipeline`: what the recognizer accepts and rejects, small programs and texts, and the two passes together.

Three behaviours of the code a reader might not expect:

- after a comma, a parameter's type may be a token of any category;
- a `for` initialiser may not be `void`, although a declaration statement may be;
- `5.` is a whole number, because the fraction part is `\.\d*`.

## Model

| member | source | states |
|---|---|---|
| Patterns.SpanEnd | lexico.py:34 | the greedy end of a character-class run: it never goes back, and it stops at the end of the text or at the first character outside the class |
| Patterns.SpanEndInClass | lexico.py:55 | every character up to the span's end belongs to the class, so `\s+`, `\d+` and the name pattern take the longest run |
| Patterns.CloseEnd | lexico.py:32 | a block comment's end, when there is one, lies just past a star-slash at or after the start |
| Patterns.CloseEndFirst | lexico.py:32 | the non-greedy `.*?` with DOTALL: the end is the first star-slash after the opener, newlines included, and without a star-slash there is no end |
| Patterns.LineEnd | lexico.py:33 | a line comment runs to the end of the text or up to (not including) a newline |
| Patterns.LineEndNoNewline | lexico.py:33 | what a line comment takes holds no newline |
| Patterns.QuoteEnd | lexico.py:47 | a string literal's end lies past the opening quote, just after a closing quote |
| Patterns.QuoteEndSound | lexico.py:47 | the body between the quotes is a sequence of escape pairs and characters that are neither a quote nor a backslash |
| Patterns.QuoteEndComplete | lexico.py:47 | every body of that shape followed by a quote is found, so the matcher accepts exactly the regular expression's literals |
| Patterns.Match | lexico.py:31-56 | every pattern of the table needs at least one character and stays inside the text |
| Patterns.FirstMatchFrom | lexico.py:59-60 | a hit comes from an entry at or after the starting entry and has a non-empty length inside the text |
| Patterns.FirstMatch | lexico.py:75 | the combined expression's hit is a table entry with a non-empty match, and it never claims the end-of-input category |
| Patterns.TableHasNoEof | lexico.py:31-56 | no table entry produces the end-of-input category |
| Patterns.FirstMatchFromIsFirst | lexico.py:59-60 | the hit is an entry that matches here, and every entry before it does not; with no hit, no entry matches |
| Patterns.FirstMatchIsFirst | lexico.py:75 | alternation order: the hit is the first table entry that matches at the offset, and none matches when there is no hit |
| Patterns.FirstMatchAt | lexico.py:75 | conversely, an entry that matches with every earlier entry failing is the hit |
| Patterns.MatchOpens | lexico.py:31-56 | a pattern matches only where one of its possible first characters stands |
| Priority.CompoundOperatorWins | lexico.py:35-41 | `==`, `!=`, `<=` and `>=` are each cut as a single token of their own category, never as `=`, `<` or `>` followed by `=` |
| Priority.SingleOperatorWhenAlone | lexico.py:39-41 | `=`, `<` and `>` not followed by `=` are one-character tokens |
| Priority.LineCommentWins | lexico.py:33 | `//` starts a line comment, not a division |
| Priority.BlockCommentWins | lexico.py:32 | slash-star with a later star-slash is a block comment running to the first star-slash |
| Priority.SlashIsDivision | lexico.py:45 | a slash that starts no comment is a division, also when the slash-star is never closed |
| Priority.StuckIffCannotStart | lexico.py:76-77 | the lexer is stuck exactly at a character that begins no table entry, and a lone `!` is one of them |
| Priority.CanStartMatches | lexico.py:31-56 | where a character that can begin an entry stands, some entry matches |
| Priority.MatchedCanStart | lexico.py:31-56 | where some entry matches, the character there can begin an entry |
| Priority.BangNeedsEquals | lexico.py:36 | the `!=` entry matches only a `!` followed by `=` |
| Priority.NameWins | lexico.py:55 | a letter or `_` starts the longest run of name characters, cut as one identifier piece, since no earlier entry begins with one |
| Priority.NumberWins | lexico.py:46 | a digit starts a number: its digit run, then optionally a dot and a further digit run |
| Priority.StringLiteralWins | lexico.py:47 | a quote with a closing quote later starts a string literal that runs to the first unescaped quote |
| LexSpec.AdvanceAppend | lexico.py:63-69 | moving the position over two texts in turn is the same as moving it over their concatenation |
| LexSpec.AdvanceLine | lexico.py:65-67 | the line grows by the number of newlines consumed |
| LexSpec.AdvanceSameLine | lexico.py:68-69 | text without a newline moves only the column, by its length |
| LexSpec.AdvanceAfterNewline | lexico.py:65-69 | after the last newline the column restarts at 1 and counts the characters that follow |
| LexSpec.AdvanceGrows | lexico.py:63-69 | consuming at least one character moves the position strictly forward in reading order |
| LexSpec.LookupFromFinds | lexico.py:93 | a word gets a keyword's category exactly when it equals one of the table's words from that point on, and then it gets that keyword's category |
| LexSpec.DistinctKeywords | lexico.py:24-28 | the keyword table has distinct words and none maps to the identifier category |
| LexSpec.KeywordKindExact | lexico.py:24-28 | the lookup is exact and case-sensitive: a name stays an identifier exactly when it is spelled as no keyword, and otherwise takes that keyword's category |
| LexSpec.PieceAt | lexico.py:75-80 | the piece cut at an offset is a non-empty slice of the text there, not of the end-of-input category, and there is none exactly when no entry matches |
| LexSpec.Scan | lexico.py:74-86 | the scan ends inside the text; it ends either at the end or stuck at a character of the text |
| LexSpec.ScanTiles | lexico.py:74-86 | the pieces are first-match pieces cut one after another, their lexemes (filler included) concatenate back to the text consumed, and a stuck scan stops where no entry matches |
| LexSpec.ScanStep | lexico.py:75-86 | one loop pass: the scan from an offset is its piece followed by the scan from the piece's end |
| LexSpec.LexStep | lexico.py:82-97 | the outcome from an offset is the piece's token, if any, followed by the outcome of the rest, lexed from the position reached after the piece |
| LexSpec.LexSkipsFiller | lexico.py:85-90 | white space and comments add no token but still move the line and column through all their characters |
| LexSpec.LexEmitsToken | lexico.py:82-97 | any other piece adds exactly one token, stamped with the position before its first character, with the matched text as value and the keyword lookup applied to names |
| LexSpec.LexAtEnd | lexico.py:99-101 | at the end of the text the outcome is the single end-of-input token, with no value and the current position |
| LexSpec.LexStuckHere | lexico.py:76-77 | where no entry matches, lexing fails with that character and the current position |
| LexSpec.TilesWellCut | lexico.py:31-56 | every piece of a tiling is non-empty and none claims the end-of-input category |
| LexSpec.EmitNoEof | lexico.py:89-97 | tokens made from pieces are never end-of-input tokens and always carry a value and a position |
| LexSpec.EmitBounds | lexico.py:82-85 | emitted positions lie between the start position and the position after the last piece |
| LexSpec.EmitSorted | lexico.py:82-85 | emitted positions strictly increase in reading order |
| LexSpec.AssembleShape | lexico.py:99-101 | a finished scan gives the emitted tokens, then one end-of-input token at the final position, and every other token is a real one |
| LexSpec.LexEndsWithEof | lexico.py:99-101 | a successful outcome is non-empty, its last token is the only end-of-input token, and it has no value and the final line and column |
| LexSpec.LexPositionsIncrease | lexico.py:82-100 | token positions in a successful outcome strictly increase, end-of-input token included |
| LexSpec.LexFailsAtUnmatched | lexico.py:74-77 | lexing fails exactly when the scan gets stuck, and then reports the character where no entry matches and the position reached before it |
| Lexico.Lexer.constructor | lexico.py:17-21 | a fresh lexer stands at offset 0, line 1, column 1 |
| Lexico.Lexer.UpdatePosition | lexico.py:63-69 | the new line and column are the old ones moved over the text, a newline starting the next line at column 1; the offset is unchanged |
| Lexico.Lexer.Step | lexico.py:75-97 | one pass of the loop body: if no entry matches, nothing changes; otherwise the piece is the first-match piece, the offset moves past it, the position moves over it and the token made is the piece's token at the old position |
| Lexico.Lexer.Tokenize | lexico.py:72-101 | the loop computes the lexing outcome of the text from the lexer's offset and position; on success the offset reaches the end, and on failure it stays at a character no entry matches, which is reported with the lexer's current position |
| Lexico.TokenizeText | lexico.py:17-101 | a fresh lexer's `tokenize` gives the outcome `LexSpec.Tokenize` of its text |
| LexScenarios.OneWord | lexico.py:91-100 | a text that is one word lexes to that word's token, categorised by the keyword table at line 1, column 1, then the end-of-input token just after it |
| LexScenarios.TypeKeyword | lexico.py:26 | `int` lexes as the type keyword |
| LexScenarios.CapitalisedIsName | lexico.py:24-28 | `Int` lexes as an identifier: the lookup is case-sensitive |
| LexScenarios.EofIsName | lexico.py:24-28 | the word `EOF` is no keyword: it lexes as an identifier, and the only end-of-input token is the final one |
| LexScenarios.StringKeyword | lexico.py:26 | the keyword `string` lexes with the category of string literals |
| Grammar.Fail | sintatico.py:27-28 | an error carries its reason, the current token's category and the current token's position |
| Grammar.Eat | sintatico.py:20-24 | consumption succeeds exactly when the current category is the expected one, and then advances by exactly one; otherwise it fails expecting that category, naming the category found and the current position |
| Grammar.Program | sintatico.py:36-38 | an accepted program ends past the end-of-input token |
| Grammar.FunDeclList | sintatico.py:41-43 | the declaration loop stops only at an end-of-input token |
| Grammar.FunDecl | sintatico.py:46-56 | a declaration consumes tokens only when it starts with a return type, and fails with a return-type error otherwise |
| Grammar.ParameterList | sintatico.py:53-55 | a parameter list takes at least its two parentheses |
| Grammar.Parameters | sintatico.py:59-64 | without a leading type keyword the parameters are empty; otherwise the loop stops at a token that is not a comma |
| Grammar.ParamRest | sintatico.py:62-64 | the comma loop stops at a token that is not a comma |
| Grammar.Parameter | sintatico.py:67-69 | a parameter is accepted exactly when a name follows its first token, whatever that token is, and it takes those two tokens |
| Grammar.Block | sintatico.py:72-75 | a block takes at least its two braces |
| Grammar.StatementList | sintatico.py:78-82 | the statement loop stops only at `}` or the end of input |
| Grammar.Statement | sintatico.py:85-102 | a statement takes at least one token, and a category that starts no statement fails at once |
| Grammar.CallStatement | sintatico.py:105-109 | a call takes at least its name and two parentheses |
| Grammar.Arguments | sintatico.py:112-117 | the arguments are empty before `)`, and the loop stops at a token that is not a comma |
| Grammar.ArgRest | sintatico.py:115-117 | the comma loop stops at a token that is not a comma |
| Grammar.Declaration | sintatico.py:120-125 | a declaration takes at least a type and a name |
| Grammar.Assignment | sintatico.py:128-131 | an assignment takes at least a name, `=` and one token of expression |
| Grammar.IfStatement | sintatico.py:134-142 | an `if` statement takes at least one token |
| Grammar.ElsePart | sintatico.py:140-142 | the `else` part is empty unless `else` is the current token |
| Grammar.Condition | sintatico.py:136-138 | a condition takes at least its parentheses and one token of expression |
| Grammar.WhileStatement | sintatico.py:145-150 | a `while` statement takes at least one token |
| Grammar.ForInit | sintatico.py:156-159 | without a type keyword or a name the initialiser is empty |
| Grammar.ForStatement | sintatico.py:153-165 | a `for` statement takes at least one token |
| Grammar.ForAfterInit | sintatico.py:160-165 | the header after the initialiser takes at least one token, and without a leading `;` it fails expecting `;` at the current token |
| Grammar.ReturnStatement | sintatico.py:168-171 | `return` directly before `;` is a complete statement, leaving the `;` |
| Grammar.Expression | sintatico.py:174-178 | an expression stops only where no additive, relational or multiplicative operator follows |
| Grammar.ExprRest | sintatico.py:176-178 | the operator loop of `expression` stops only where no operator of its tier follows |
| Grammar.Term | sintatico.py:181-185 | a term stops only where no `*` or `/` follows |
| Grammar.TermRest | sintatico.py:183-185 | the loop of `term` stops only where no `*` or `/` follows |
| Grammar.Factor | sintatico.py:188-206 | a factor takes at least one token, and a name not followed by `(` is a variable of one token |
| GrammarFacts.ProgramIsDeclarationList | sintatico.py:36-38 | a program is accepted exactly when its declaration list is, and then the final end-of-input token is consumed too |
| GrammarFacts.BlockIsBraced | sintatico.py:72-75 | an accepted block opens with `{` and closes with `}` |
| GrammarFacts.FunDeclEndsWithBrace | sintatico.py:46-56 | an accepted function declaration ends with the `}` of its body |
| GrammarFacts.DeclarationsStopAtFinalEof | sintatico.py:41-43 | on lexer output the declaration list stops at the final token |
| GrammarFacts.AcceptedProgramConsumesAll | sintatico.py:36-38 | on lexer output an accepted program consumes every token |
| GrammarFacts.OnlyFunctionsAtTopLevel | sintatico.py:41-47 | a top-level token that is neither a return type nor the end of input fails at once with a return-type error |
| GrammarFacts.BlockAccepted | sintatico.py:72-82 | a block is accepted exactly when its statement list is and a `}` follows it |
| GrammarFacts.UnclosedBlockFails | sintatico.py:72-82 | an unclosed block fails expecting `}`, finding the end of input |
| GrammarFacts.DoubleSemicolonFails | sintatico.py:78-82 | at most one `;` follows a statement: a second one fails as a bad statement |
| GrammarFacts.StatementListStep | sintatico.py:78-82 | after a statement the loop takes one `;` if it is there and goes on either way, so the `;` is optional |
| GrammarFacts.CallStatementIsCallFactor | sintatico.py:88-92 | a name directly followed by `(` is a call, both as a statement and as a factor |
| GrammarFacts.NameWithoutAssignmentFails | sintatico.py:88-92 | a name not followed by `(` is an assignment, so without `=` it fails expecting `=` |
| GrammarFacts.NameStartsAssignment | sintatico.py:88-92 | a statement that is a name not followed by `(` is exactly an assignment |
| GrammarFacts.ForRejectsVoidInit | sintatico.py:156-160 | `void` cannot start a `for` initialiser: the header then fails expecting `;` |
| GrammarFacts.ForInitOptional | sintatico.py:156-160 | the `for` initialiser may be left out |
| GrammarFacts.ForInitChoice | sintatico.py:156-159 | a type keyword other than `void` starts a declaration as the initialiser, and a name starts an assignment |
| GrammarFacts.ForAfterInitNeedsHeader | sintatico.py:160-165 | an accepted rest of a `for` header is always `;`, a condition, `;`, an update assignment and `)`, and its outcome is that of the block after them |
| GrammarFacts.ReturnWithValue | sintatico.py:168-171 | `return` followed by anything but `;` parses an expression |
| GrammarFacts.ReturnBeforeBraceFails | sintatico.py:168-206 | `return }` fails where a factor was expected, finding the `}` |
| GrammarFacts.ExprRestOverChain | sintatico.py:174-185 | a run of operator and number pairs is consumed whole by the loop of `expression` |
| GrammarFacts.FlatOperatorTier | sintatico.py:174-178 | additive and relational operators share one tier, so a chain of them is one expression |
| GrammarFacts.ParameterTakesAnyToken | sintatico.py:60-69 | after a comma, a parameter's first token may be of any category |
| GrammarFacts.ColonIsNeverExpected | sintatico.py:41-206 | a `:` fails at top level, as a statement and as a factor |
| Pipeline.LexedTextHasSingleFinalEof | lexico.py:99-101 | any successful lexer output ends in its only end-of-input token |
| Pipeline.AcceptedTextConsumesAll | sintatico.py:36-38 | when the parser accepts the lexer's tokens, it consumes all of them |
| Scenarios.LoneOperand | sintatico.py:188-196 | a number, or a name not followed by `(`, is a whole expression of one token |
| Scenarios.BinaryOperation | sintatico.py:174-178 | two operands around an operator of the first tier make one expression |
| Scenarios.EmptyBlock | sintatico.py:72-75 | `{}` is a block |
| Scenarios.OneStatementBlock | sintatico.py:72-82 | a block may hold one statement followed by `;` |
| Scenarios.OneFunction | sintatico.py:36-56 | one function declaration before the end of input is a program, consumed to the end |
| Scenarios.FunDeclOf | sintatico.py:46-56 | a return type, a name, a parameter list and a block make a function declaration |
| Scenarios.NoParameters | sintatico.py:53-55 | `()` is a parameter list |
| Scenarios.DeclarationInMain | sintatico.py:36-125 | `int main(){int x=5;}` is accepted, consumed to the end |
| Scenarios.UnclosedMain | sintatico.py:72-75 | `int main(){` fails at the end of input, expecting `}` |
| Scenarios.IfElseStatement | sintatico.py:134-142 | `if(x<=5){}else{}` is one statement |
| Scenarios.CallThenSemicolon | sintatico.py:105-109 | `foo();` is a call statement that leaves the `;` to the statement list |
| Scenarios.AssignmentThenSemicolon | sintatico.py:128-131 | `foo = 1;` is an assignment that leaves the `;` |
| Scenarios.StatementAtTopLevel | sintatico.py:41-47 | `x = 1;` outside a function is refused, a return type being expected |
| Scenarios.NameAsParameterType | sintatico.py:59-69 | `void f(int a, x b){ return; }` is accepted, with a name as the second parameter's type |
| Scenarios.AssignmentOf | sintatico.py:128-131 | a name, `=` and an expression make an assignment |
| Scenarios.ForAfterInitOf | sintatico.py:160-165 | `;`, a condition, `;`, an update assignment, `)` and a block complete a `for` header |
| Scenarios.ForStatementOf | sintatico.py:153-165 | `for (`, an initialiser and the rest of the header make a statement |
| Scenarios.ForLoop | sintatico.py:153-165 | `for(i=0; i<3; i=i+1){}` is one statement |
| Scenarios.VoidDeclarationStatement | sintatico.py:85-87 | `void x` is a complete declaration statement |
| Scenarios.TwoStatementsNoSemicolon | sintatico.py:72-82 | `{x=1 y=2}` is a block: the `;` between statements may be left out |
| Sintatico.Parser.constructor | sintatico.py:6-9 | a fresh parser stands at index 0 with the first token current |
| Sintatico.Parser.Advance | sintatico.py:12-17 | the index grows by one; within the list the current token is the one at the index, past it a virtual end-of-input token with neither value nor position |
| Sintatico.Parser.Error | sintatico.py:27-28 | the error names the reason, the current category and the current token's position |
| Sintatico.Parser.Eat | sintatico.py:20-24 | the outcome and the new index are those of `Grammar.Eat`, and a failure leaves the index unchanged |
| Sintatico.Parser.Program | sintatico.py:36-38 | outcome and final index equal `Grammar.Program` |
| Sintatico.Parser.FunctionDeclarationList | sintatico.py:41-43 | outcome and final index equal `Grammar.FunDeclList` |
| Sintatico.Parser.FunctionDeclaration | sintatico.py:46-56 | outcome and final index equal `Grammar.FunDecl` |
| Sintatico.Parser.Parameters | sintatico.py:59-64 | outcome and final index equal `Grammar.Parameters` |
| Sintatico.Parser.Parameter | sintatico.py:67-69 | outcome and final index equal `Grammar.Parameter` |
| Sintatico.Parser.Block | sintatico.py:72-75 | outcome and final index equal `Grammar.Block` |
| Sintatico.Parser.StatementList | sintatico.py:78-82 | outcome and final index equal `Grammar.StatementList` |
| Sintatico.Parser.Statement | sintatico.py:85-102 | outcome and final index equal `Grammar.Statement` |
| Sintatico.Parser.FunctionCallStatement | sintatico.py:105-109 | outcome and final index equal `Grammar.CallStatement` |
| Sintatico.Parser.Arguments | sintatico.py:112-117 | outcome and final index equal `Grammar.Arguments` |
| Sintatico.Parser.Declaration | sintatico.py:120-125 | outcome and final index equal `Grammar.Declaration` |
| Sintatico.Parser.Assignment | sintatico.py:128-131 | outcome and final index equal `Grammar.Assignment` |
| Sintatico.Parser.IfStatement | sintatico.py:134-142 | outcome and final index equal `Grammar.IfStatement` |
| Sintatico.Parser.WhileStatement | sintatico.py:145-150 | outcome and final index equal `Grammar.WhileStatement` |
| Sintatico.Parser.ForStatement | sintatico.py:153-159 | outcome and final index equal `Grammar.ForStatement` |
| Sintatico.Parser.ForAfterInit | sintatico.py:160-165 | outcome and final index equal `Grammar.ForAfterInit` |
| Sintatico.Parser.ReturnStatement | sintatico.py:168-171 | outcome and final index equal `Grammar.ReturnStatement` |
| Sintatico.Parser.Expression | sintatico.py:174-178 | outcome and final index equal `Grammar.Expression` |
| Sintatico.Parser.Term | sintatico.py:181-185 | outcome and final index equal `Grammar.Term` |
| Sintatico.Parser.Factor | sintatico.py:188-206 | outcome and final index equal `Grammar.Factor` |
| Sintatico.Parse | sintatico.py:31-33 | `parse` succeeds exactly when the recognizer accepts the token list, and a failure reports the recognizer's error |

## Left out

- The `__main__` blocks of both files are not modelled. They read `argv`, read files and print.
- The success message of `parse` is not modelled, and neither is `Token.__repr__`.
- Error messages are structured values, not the Portuguese message strings:
  - a lexical error is the offending character and the position;
  - a syntax error is the reason, the category found and the current token's position.
  - Exceptions become `Result` and `Option` values.
- Python's `re` engine and the building of the combined expression are not modelled. Each table entry has a hand-written matcher instead.
  - The unused third field of the table entries is dropped.
- `\s` and `\d` are read as ASCII. White space is space, tab, newline, carriage return, vertical tab, form feed and the separators 0x1C to 0x1F; digits are `0` to `9`. Non-ASCII white space (such as 0x85 or 0xA0) and non-ASCII digits, which Python's `\s` and `\d` also take, are not modelled: on them the model reports a lexical error where the source would skip or take the character.
- Numbers are kept as text, as in the source. No numeric value is computed.
- Python's recursion limit is not modelled. Nesting deep enough makes the source's recursive descent raise `RecursionError`, while the model accepts any depth.
- The token categories are numbered constants of one `newtype`, not strings. Only equality between categories is used.
- Sintatico.Parser.constructor: requires a non-empty token list, because the source reads the first token at once and fails on an empty list.
- Sintatico.Parser.Program: requires index 0 and every other parser method requires its index to be within the list plus one virtual position. These hold for every call the source makes from `parse`.
- Sintatico.Parser.Program, Sintatico.Parser.Block and the other nonterminal methods do not state the index after a syntax error; they state only the error itself. The source raises there, so that index is never observed.
- Lexico.Lexer.Step: one pass of the source's loop body, together with its `continue` for filler, is written as a method of its own that `Tokenize` calls.
- The pattern table is one constant built from four segments that keep the source's order. Lemmas about the whole table call on each segment.
