/** Small texts and the token lists the lexer makes of them. */
module LexScenarios {
  import opened Tokens
  import opened Patterns
  import opened LexSpec
  import opened Priority

  /** A text that is one word (a letter or `_`, then letters, digits and
      `_`) lexes to one token carrying the word, categorised by the keyword
      table, at line 1, column 1, and the end-of-input token just after it. */
  lemma {:induction false} OneWord(w: string)
    requires |w| > 0 && IsNameStart(w[0])
    requires forall k :: 0 <= k < |w| ==> IsNameChar(w[k])
    ensures Tokenize(w) == Ok([Token(KeywordKind(w), Some(w), Some(Pos(1, 1))), Token(Eof, None, Some(Pos(1, 1 + |w|)))])
  {
    var e := SpanEnd(w, 1, NameChar);
    assert e == |w|;
    assert w[0..e] == w;
    NameWins(w, 0);
    var p := Piece(Emits(Identificador), w);
    assert PieceAt(w, 0) == Some(p);
    LexEmitsToken(w, 0, Pos(1, 1), p);
    assert MakeToken(Identificador, w, Pos(1, 1)) == Token(KeywordKind(w), Some(w), Some(Pos(1, 1)));
    assert forall k :: 0 <= k < |w| ==> w[k] != '\n' by {
      forall k | 0 <= k < |w| ensures w[k] != '\n' {
        assert IsNameChar(w[k]);
      }
    }
    AdvanceSameLine(Pos(1, 1), w);
    LexAtEnd(w, Pos(1, 1 + |w|));
    var t := Token(KeywordKind(w), Some(w), Some(Pos(1, 1)));
    var eof := Token(Eof, None, Some(Pos(1, 1 + |w|)));
    assert |p.lexeme| == |w|;
    assert Lex(w, |w|, Advance(Pos(1, 1), w)) == Ok([eof]);
    assert Lex(w, 0, Pos(1, 1)) == Glue([t], Ok([eof]));
    assert [t] + [eof] == [t, eof];
  }

  /** `int` is the type keyword. */
  lemma {:induction false} TypeKeyword()
    ensures Tokenize("int") == Ok([Token(Int, Some("int"), Some(Pos(1, 1))), Token(Eof, None, Some(Pos(1, 4)))])
  {
    var w := "int";
    assert KeywordKind(w) == Int;
    OneWord(w);
  }

  /** The lookup is case-sensitive: `Int` is a plain name. */
  lemma {:induction false} CapitalisedIsName()
    ensures Tokenize("Int") == Ok([Token(Identificador, Some("Int"), Some(Pos(1, 1))), Token(Eof, None, Some(Pos(1, 4)))])
  {
    var w := "Int";
    assert KeywordKind(w) == Identificador;
    OneWord(w);
  }

  /** The end-of-input category has no keyword: the word `EOF` makes an
      identifier, and the only end-of-input token is the final one. */
  lemma {:induction false} EofIsName()
    ensures Tokenize("EOF").Ok? && |Tokenize("EOF").value| == 2
    ensures Tokenize("EOF").value[0].kind == Identificador && Tokenize("EOF").value[0].value == Some("EOF")
    ensures Tokenize("EOF").value[1] == Token(Eof, None, Some(Pos(1, 4)))
  {
    var w := "EOF";
    assert KeywordKind(w) == Identificador;
    OneWord(w);
  }

  /** The keyword `string` has the category of string literals. */
  lemma {:induction false} StringKeyword()
    ensures Tokenize("string") == Ok([Token(String, Some("string"), Some(Pos(1, 1))), Token(Eof, None, Some(Pos(1, 7)))])
  {
    var w := "string";
    assert KeywordKind(w) == String;
    OneWord(w);
  }
}
