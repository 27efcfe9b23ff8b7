/** The lexer and the parser together: the lexer's output always has the
    shape the parser's end-of-input reasoning needs. */
module Pipeline {
  import opened Tokens
  import opened LexSpec
  import opened Grammar
  import opened GrammarFacts

  /** A text the lexer accepts yields a non-empty token list with a single
      end-of-input token, at its end. */
  lemma {:induction false} LexedTextHasSingleFinalEof(text: string)
    requires Tokenize(text).Ok?
    ensures SingleFinalEof(Tokenize(text).value)
  {
    LexEndsWithEof(text, 0, Pos(1, 1));
  }

  /** When the parser accepts the lexer's tokens of a text, it has consumed
      all of them. */
  lemma {:induction false} AcceptedTextConsumesAll(text: string)
    requires Tokenize(text).Ok? && Program(Tokenize(text).value).Ok?
    ensures Program(Tokenize(text).value).value == |Tokenize(text).value|
  {
    LexedTextHasSingleFinalEof(text);
    AcceptedProgramConsumesAll(Tokenize(text).value);
  }
}
