/** The lexer object: the text, the offset reached and the current line and
    column, which `Tokenize` advances piece by piece. Its result is proved
    equal to the functional definition `LexSpec.Lex`, so every property proved
    there holds of what the method returns. */
module Lexico {
  import opened Tokens
  import opened Patterns
  import opened LexSpec

  /** Prepending in two steps is prepending once. */
  lemma {:induction false} GlueGlue(a: seq<Token>, b: seq<Token>, r: Result<seq<Token>, LexErr>)
    ensures Glue(a, Glue(b, r)) == Glue(a + b, r)
  {
    match r
    case Ok(rest) => assert a + (b + rest) == (a + b) + rest;
    case Err(_) =>
  }

  lemma {:induction false} GlueNothing(r: Result<seq<Token>, LexErr>)
    ensures Glue([], r) == r
  {
    match r
    case Ok(rest) => assert [] + rest == rest;
    case Err(_) =>
  }

  /** What the lexing loop keeps about its result: the tokens so far, glued
      to the lexing of the rest of the text from the current offset and
      position, give `goal`, the lexing of the whole text. */
  ghost predicate ResultSoFar(text: string, goal: Result<seq<Token>, LexErr>, tokens: seq<Token>, pos: nat, at: Pos) {
    pos <= |text| && goal == Glue(tokens, Lex(text, pos, at))
  }

  /** What the lexing loop keeps about its position: it is the one the text
      consumed since the start leads to. */
  ghost predicate PositionSoFar(text: string, pos0: nat, at0: Pos, pos: nat, at: Pos) {
    pos0 <= pos <= |text| && at == Advance(at0, text[pos0..pos])
  }

  lemma {:induction false} LoopStart(text: string, pos: nat, at: Pos)
    requires pos <= |text|
    ensures ResultSoFar(text, Lex(text, pos, at), [], pos, at)
    ensures PositionSoFar(text, pos, at, pos, at)
  {
    assert text[pos..pos] == [];
    GlueNothing(Lex(text, pos, at));
  }

  /** One piece consumed keeps the result invariant, with the piece's tokens
      appended. */
  lemma {:induction false} ResultStep(text: string, goal: Result<seq<Token>, LexErr>, tokens: seq<Token>, pos: nat, at: Pos, p: Piece,
                   tokens': seq<Token>, pos': nat, at': Pos)
    requires ResultSoFar(text, goal, tokens, pos, at)
    requires pos < |text| && PieceAt(text, pos) == Some(p)
    requires tokens' == tokens + EmitOne(p, at) && pos' == pos + |p.lexeme| && at' == Advance(at, p.lexeme)
    ensures ResultSoFar(text, goal, tokens', pos', at')
  {
    LexStepTo(text, pos, at, p, pos', at');
    GlueChain(goal, Lex(text, pos, at), Lex(text, pos', at'), tokens, EmitOne(p, at));
  }

  lemma {:induction false} LexStepTo(text: string, pos: nat, at: Pos, p: Piece, pos': nat, at': Pos)
    requires pos < |text| && PieceAt(text, pos) == Some(p)
    requires pos' == pos + |p.lexeme| && at' == Advance(at, p.lexeme)
    ensures Lex(text, pos, at) == Glue(EmitOne(p, at), Lex(text, pos', at'))
  {
    LexStep(text, pos, at, p);
  }

  lemma {:induction false} GlueChain(r0: Result<seq<Token>, LexErr>, r1: Result<seq<Token>, LexErr>, r2: Result<seq<Token>, LexErr>,
                  a: seq<Token>, b: seq<Token>)
    requires r0 == Glue(a, r1) && r1 == Glue(b, r2)
    ensures r0 == Glue(a + b, r2)
  {
    GlueGlue(a, b, r2);
  }

  /** One piece consumed keeps the position invariant. */
  lemma {:induction false} PositionStep(text: string, pos0: nat, at0: Pos, pos: nat, at: Pos, lexeme: string)
    requires PositionSoFar(text, pos0, at0, pos, at)
    requires pos + |lexeme| <= |text| && lexeme == text[pos..pos + |lexeme|]
    ensures PositionSoFar(text, pos0, at0, pos + |lexeme|, Advance(at, lexeme))
  {
    SliceAppend(text, pos0, pos, pos + |lexeme|);
    AdvanceAppend(at0, text[pos0..pos], text[pos..pos + |lexeme|]);
  }

  lemma {:induction false} SliceAppend(text: string, i: nat, j: nat, k: nat)
    requires i <= j <= k <= |text|
    ensures text[i..j] + text[j..k] == text[i..k]
  {
  }

  /** One piece consumed keeps both loop invariants: the state before the
      piece is `tokens`, `pos`, `at`; the state after it is `tokens'`,
      `pos'`, `at'`. */
  lemma {:induction false} LoopStep(text: string, goal: Result<seq<Token>, LexErr>, pos0: nat, at0: Pos,
                 tokens: seq<Token>, pos: nat, at: Pos, p: Piece, tokens': seq<Token>, pos': nat, at': Pos)
    requires ResultSoFar(text, goal, tokens, pos, at) && PositionSoFar(text, pos0, at0, pos, at)
    requires pos < |text| && PieceAt(text, pos) == Some(p)
    requires tokens' == tokens + EmitOne(p, at) && pos' == pos + |p.lexeme| && at' == Advance(at, p.lexeme)
    ensures ResultSoFar(text, goal, tokens', pos', at') && PositionSoFar(text, pos0, at0, pos', at')
  {
    ResultStep(text, goal, tokens, pos, at, p, tokens', pos', at');
    PositionStep(text, pos0, at0, pos, at, p.lexeme);
  }

  /** Leaving the loop at the end of the text: one end-of-input token at the
      final position completes the result. */
  lemma {:induction false} LoopDone(text: string, goal: Result<seq<Token>, LexErr>, tokens: seq<Token>, at: Pos)
    requires ResultSoFar(text, goal, tokens, |text|, at)
    ensures goal == Ok(tokens + [Token(Eof, None, Some(at))])
  {
    LexAtEnd(text, at);
  }

  /** Leaving the loop where nothing matches. */
  lemma {:induction false} LoopStuck(text: string, goal: Result<seq<Token>, LexErr>, tokens: seq<Token>, pos: nat, at: Pos)
    requires ResultSoFar(text, goal, tokens, pos, at)
    requires pos < |text| && PieceAt(text, pos).None?
    ensures goal == Err(LexErr(text[pos], at))
  {
    LexStuckHere(text, pos, at);
  }

  class Lexer {
    const text: string
    var pos: nat
    var line: nat
    var column: nat

    /** The line and column the next character stands at. */
    function At(): Pos
      reads this
    {
      Pos(line, column)
    }

    predicate Valid()
      reads this
    {
      pos <= |text|
    }

    /** A fresh lexer: offset 0, line 1, column 1. */
    constructor(text: string)
      ensures this.text == text && pos == 0 && line == 1 && column == 1
      ensures Valid()
    {
      this.text := text;
      pos := 0;
      line := 1;
      column := 1;
    }

    /** Moves line and column over `value`, one character at a time: a newline
        starts the next line at column 1, anything else moves one column. */
    method UpdatePosition(value: string)
      modifies this
      ensures At() == Advance(old(At()), value)
      ensures pos == old(pos)
    {
      for i := 0 to |value|
        invariant At() == Advance(old(At()), value[..i])
        invariant pos == old(pos)
      {
        assert value[..i + 1][..i] == value[..i];
        if value[i] == '\n' {
          line := line + 1;
          column := 1;
        } else {
          column := column + 1;
        }
      }
      assert value[..|value|] == value;
    }

    /** One pass of the lexing loop's body: the first entry that matches
        at the offset decides the piece; if none does, nothing changes.
        Otherwise the line and column move over the lexeme, the offset moves
        past it, and the token it makes is given, stamped with the line and
        column before it: none for filler, a keyword or an identifier for a
        name, the entry's category for anything else. */
    method Step() returns (m: Option<Piece>, emitted: seq<Token>)
      requires Valid() && pos < |text|
      modifies this
      ensures m == PieceAt(text, old(pos)) && Valid()
      ensures m.None? ==> pos == old(pos) && At() == old(At())
      ensures m.Some? ==> pos == old(pos) + |m.value.lexeme| && At() == Advance(old(At()), m.value.lexeme)
      ensures m.Some? ==> emitted == EmitOne(m.value, old(At()))
    {
      m := PieceAt(text, pos);
      if m.None? {
        return m, [];
      }
      var value := m.value.lexeme;
      var group := m.value.group;
      var currentLine, currentColumn := line, column;
      UpdatePosition(value);
      pos := pos + |value|;
      if IsFiller(group) {
        emitted := [];
      } else if group.kind == Identificador {
        var kind := KeywordKind(value);
        emitted := [Token(kind, Some(value), Some(Pos(currentLine, currentColumn)))];
      } else {
        emitted := [Token(group.kind, Some(value), Some(Pos(currentLine, currentColumn)))];
      }
    }

    /** Cuts the rest of the text into tokens: at each offset the first table
        entry that matches decides the piece; filler is dropped, identifiers
        are looked up among the keywords, and a final end-of-input token is
        added. Where nothing matches, the offending character and the current
        line and column are reported and the offset stays there. */
    method Tokenize() returns (r: Result<seq<Token>, LexErr>)
      requires Valid()
      modifies this
      ensures r == Lex(text, old(pos), old(At()))
      ensures Valid()
      ensures r.Ok? ==> pos == |text|
      ensures r.Err? ==> old(pos) <= pos < |text| && FirstMatch(text, pos).None? && r.error == LexErr(text[pos], At())
      ensures At() == Advance(old(At()), text[old(pos)..pos])
    {
      ghost var pos0, at0 := pos, At();
      ghost var goal := Lex(text, pos, At());
      var tokens: seq<Token> := [];
      LoopStart(text, pos, At());
      while pos < |text|
        invariant ResultSoFar(text, goal, tokens, pos, At())
        invariant PositionSoFar(text, pos0, at0, pos, At())
        decreases |text| - pos
      {
        ghost var tokens1, pos1, at1 := tokens, pos, At();
        var m, emitted := Step();
        if m.None? {
          LoopStuck(text, goal, tokens, pos, At());
          return Err(LexErr(text[pos], At()));
        }
        tokens := tokens + emitted;
        LoopStep(text, goal, pos0, at0, tokens1, pos1, at1, m.value, tokens, pos, At());
      }
      LoopDone(text, goal, tokens, At());
      tokens := tokens + [Token(Eof, None, Some(At()))];
      r := Ok(tokens);
    }
  }

  /** A fresh lexer's `Tokenize` computes `LexSpec.Tokenize` of its text. */
  method TokenizeText(text: string) returns (r: Result<seq<Token>, LexErr>)
    ensures r == Tokenize(text)
  {
    var lexer := new Lexer(text);
    r := lexer.Tokenize();
  }
}
