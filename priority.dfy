/** Consequences of the order of the pattern table: which entry wins where
    several could match, and which characters no entry matches at all. */
module Priority {
  import opened Tokens
  import opened Patterns
  import opened LexSpec

  /** The two-character comparisons, each with its category, in table order. */
  const Compound: seq<(string, Kind)> :=
    [("==", Igual), ("!=", Diferente), ("<=", MenorIgual), (">=", MaiorIgual)]

  /** `==`, `!=`, `<=` and `>=` are read as one token each, not as `=`, `<` or
      `>` followed by `=`, because their entries come first. */
  lemma {:induction false} CompoundOperatorWins(text: string, pos: nat, i: nat)
    requires i < |Compound| && StartsWith(text, pos, Compound[i].0)
    ensures PieceAt(text, pos) == Some(Piece(Emits(Compound[i].1), Compound[i].0))
  {
    CompoundHit(text, pos, i);
    PieceUpTo(text, pos, 3 + i, Emits(Compound[i].1), pos + 2);
  }

  lemma {:induction false} CompoundHit(text: string, pos: nat, i: nat)
    requires i < |Compound| && StartsWith(text, pos, Compound[i].0)
    ensures FirstMatch(text, pos) == Some(Hit(3 + i, Emits(Compound[i].1), 2))
  {
    var c := text[pos];
    assert c == text[pos..pos + 2][0] == Compound[i].0[0];
    assert MatchEntry(TokenSpecs, 3 + i, text, pos) == Some(2);
    CompoundOpener(c, i);
    OpenerWins(TokenSpecs, text, pos, 0, 3 + i, 2);
  }

  /** The first character of each two-character comparison first opens that
      comparison's entry. */
  lemma {:induction false} CompoundOpener(c: char, i: nat)
    requires i < |Compound| && c == Compound[i].0[0]
    ensures FirstOpener(TokenSpecs, c, 0) == 3 + i
  {
    if i == 3 {
      assert FirstOpener(TokenSpecs, c, 6) == 6;
      assert FirstOpener(TokenSpecs, c, 5) == 6;
      assert FirstOpener(TokenSpecs, c, 4) == 6;
      assert FirstOpener(TokenSpecs, c, 3) == 6;
    } else if i == 2 {
      assert FirstOpener(TokenSpecs, c, 5) == 5;
      assert FirstOpener(TokenSpecs, c, 4) == 5;
      assert FirstOpener(TokenSpecs, c, 3) == 5;
    } else if i == 1 {
      assert FirstOpener(TokenSpecs, c, 4) == 4;
      assert FirstOpener(TokenSpecs, c, 3) == 4;
    }
    assert FirstOpener(TokenSpecs, c, 2) == 3 + i;
  }

  /** The one-character comparisons and assignment, in table order. */
  const Single: seq<(char, Kind)> := [('=', Atribuir), ('<', Menor), ('>', Maior)]

  /** `=`, `<` and `>` not followed by `=` are one-character tokens. */
  lemma {:induction false} SingleOperatorWhenAlone(text: string, pos: nat, i: nat)
    requires i < |Single| && pos < |text| && text[pos] == Single[i].0
    requires pos + 1 == |text| || text[pos + 1] != '='
    ensures PieceAt(text, pos) == Some(Piece(Emits(Single[i].1), [Single[i].0]))
  {
    SingleHit(text, pos, i);
    assert text[pos..pos + 1] == [Single[i].0];
    PieceUpTo(text, pos, 7 + i, Emits(Single[i].1), pos + 1);
  }

  lemma {:induction false} SingleHit(text: string, pos: nat, i: nat)
    requires i < |Single| && pos < |text| && text[pos] == Single[i].0
    requires pos + 1 == |text| || text[pos + 1] != '='
    ensures FirstMatch(text, pos) == Some(Hit(7 + i, Emits(Single[i].1), 1))
  {
    if i == 0 {
      AloneHit(text, pos, 3, 7);
    } else if i == 1 {
      AloneHit(text, pos, 5, 8);
    } else {
      AloneHit(text, pos, 6, 9);
    }
  }

  /** A character whose first opener `k` is its compound operator, which
      fails for want of a following `=`, and whose next opener `e` is its
      own one-character entry. */
  lemma {:induction false} AloneHit(text: string, pos: nat, k: nat, e: nat)
    requires pos < |text| && (k, e) in {(3, 7), (5, 8), (6, 9)}
    requires text[pos] == (if k == 3 then '=' else if k == 5 then '<' else '>')
    requires pos + 1 == |text| || text[pos + 1] != '='
    ensures FirstMatch(text, pos) == Some(Hit(e, TokenSpecs[e].group, 1))
  {
    var c := text[pos];
    AloneEntries(text, pos, k, e);
    if k == 3 {
      AssignOpeners(c);
    } else if k == 5 {
      LessOpeners(c);
    } else {
      GreaterOpeners(c);
    }
    FailThenOpenerWins(TokenSpecs, text, pos, 0, k, e, 1);
  }

  /** The compound entry `k` fails without a following `=`, and the
      one-character entry `e` matches. */
  lemma {:induction false} AloneEntries(text: string, pos: nat, k: nat, e: nat)
    requires pos < |text| && (k, e) in {(3, 7), (5, 8), (6, 9)}
    requires text[pos] == (if k == 3 then '=' else if k == 5 then '<' else '>')
    requires pos + 1 == |text| || text[pos + 1] != '='
    ensures MatchEntry(TokenSpecs, k, text, pos).None? && MatchEntry(TokenSpecs, e, text, pos) == Some(1)
  {
    assert pos + 1 < |text| ==> text[pos..pos + 2][1] == text[pos + 1];
    assert text[pos..pos + 1] == [text[pos]];
  }

  /** `=` begins `==` and then `=`. */
  lemma {:induction false} AssignOpeners(c: char)
    requires c == '='
    ensures FirstOpener(TokenSpecs, c, 0) == 3 && FirstOpener(TokenSpecs, c, 4) == 7
  {
    assert FirstOpener(TokenSpecs, c, 6) == 7;
    assert FirstOpener(TokenSpecs, c, 5) == 7;
    assert FirstOpener(TokenSpecs, c, 4) == 7;
    assert FirstOpener(TokenSpecs, c, 2) == 3;
    assert FirstOpener(TokenSpecs, c, 1) == 3;
    assert FirstOpener(TokenSpecs, c, 0) == 3;
  }

  /** `<` begins `<=` and then `<`. */
  lemma {:induction false} LessOpeners(c: char)
    requires c == '<'
    ensures FirstOpener(TokenSpecs, c, 0) == 5 && FirstOpener(TokenSpecs, c, 6) == 8
  {
    assert FirstOpener(TokenSpecs, c, 7) == 8;
    assert FirstOpener(TokenSpecs, c, 6) == 8;
    assert FirstOpener(TokenSpecs, c, 4) == 5;
    assert FirstOpener(TokenSpecs, c, 3) == 5;
    assert FirstOpener(TokenSpecs, c, 2) == 5;
    assert FirstOpener(TokenSpecs, c, 1) == 5;
    assert FirstOpener(TokenSpecs, c, 0) == 5;
  }

  /** `>` begins `>=` and then `>`. */
  lemma {:induction false} GreaterOpeners(c: char)
    requires c == '>'
    ensures FirstOpener(TokenSpecs, c, 0) == 6 && FirstOpener(TokenSpecs, c, 7) == 9
  {
    assert FirstOpener(TokenSpecs, c, 8) == 9;
    assert FirstOpener(TokenSpecs, c, 7) == 9;
    assert FirstOpener(TokenSpecs, c, 5) == 6;
    assert FirstOpener(TokenSpecs, c, 4) == 6;
    assert FirstOpener(TokenSpecs, c, 3) == 6;
    assert FirstOpener(TokenSpecs, c, 2) == 6;
    assert FirstOpener(TokenSpecs, c, 1) == 6;
    assert FirstOpener(TokenSpecs, c, 0) == 6;
  }

  /** `//` starts a comment that runs to the end of its line, newline
      excluded. */
  lemma {:induction false} LineCommentWins(text: string, pos: nat)
    requires StartsWith(text, pos, "//")
    ensures PieceAt(text, pos) == Some(Piece(ComentarioLinha, text[pos..LineEnd(text, pos + 2)]))
  {
    assert text[pos + 1] == text[pos..pos + 2][1] == '/';
    FirstMatchAt(text, pos, 1, LineEnd(text, pos + 2) - pos);
  }

  /** Slash-star starts a comment that ends at the first star-slash after it,
      across lines. */
  lemma {:induction false} BlockCommentWins(text: string, pos: nat)
    requires StartsWith(text, pos, "/*") && CloseEnd(text, pos + 2).Some?
    ensures PieceAt(text, pos) == Some(Piece(ComentarioLinhas, text[pos..CloseEnd(text, pos + 2).value]))
  {
    FirstMatchAt(text, pos, 0, CloseEnd(text, pos + 2).value - pos);
  }

  /** A slash that starts no comment, including a slash-star that is never
      closed, is a division operator on its own. */
  lemma {:induction false} SlashIsDivision(text: string, pos: nat)
    requires pos < |text| && text[pos] == '/'
    requires !StartsWith(text, pos, "//")
    requires !StartsWith(text, pos, "/*") || CloseEnd(text, pos + 2).None?
    ensures PieceAt(text, pos) == Some(Piece(Emits(Divisao), "/"))
  {
    SlashHit(text, pos);
    assert text[pos..pos + 1] == "/";
    PieceUpTo(text, pos, 13, Emits(Divisao), pos + 1);
  }

  lemma {:induction false} SlashHit(text: string, pos: nat)
    requires pos < |text| && text[pos] == '/'
    requires !StartsWith(text, pos, "//")
    requires !StartsWith(text, pos, "/*") || CloseEnd(text, pos + 2).None?
    ensures FirstMatch(text, pos) == Some(Hit(13, Emits(Divisao), 1))
  {
    CommentEntriesFail(text, pos);
    SlashOpener(text[pos]);
    assert text[pos..pos + 1] == "/";
    FailTwiceThenOpenerWins(TokenSpecs, text, pos, 0, 13, 1);
  }

  /** Past the comment entries, only the division entry begins with `/`. */
  lemma {:induction false} SlashOpener(c: char)
    requires c == '/'
    ensures FirstOpener(TokenSpecs, c, 2) == 13
  {
    assert FirstOpener(TokenSpecs, c, 12) == 13;
    assert FirstOpener(TokenSpecs, c, 11) == 13;
    assert FirstOpener(TokenSpecs, c, 10) == 13;
    assert FirstOpener(TokenSpecs, c, 9) == 13;
    assert FirstOpener(TokenSpecs, c, 8) == 13;
    assert FirstOpener(TokenSpecs, c, 7) == 13;
    assert FirstOpener(TokenSpecs, c, 6) == 13;
    assert FirstOpener(TokenSpecs, c, 5) == 13;
    assert FirstOpener(TokenSpecs, c, 4) == 13;
    assert FirstOpener(TokenSpecs, c, 3) == 13;
  }

  lemma {:induction false} CommentEntriesFail(text: string, pos: nat)
    requires pos < |text| && !StartsWith(text, pos, "//")
    requires !StartsWith(text, pos, "/*") || CloseEnd(text, pos + 2).None?
    ensures MatchEntry(TokenSpecs, 0, text, pos).None? && MatchEntry(TokenSpecs, 1, text, pos).None?
  {
  }

  /** The characters that can begin some entry's match, on their own terms. */
  predicate CanStart(text: string, pos: nat)
    requires pos < |text|
  {
    var c := text[pos];
    IsSpace(c) || IsDigit(c) || IsNameStart(c) ||
    c in Operators || c in Delimiters ||
    (c == '!' && pos + 1 < |text| && text[pos + 1] == '=') ||
    (c == '"' && QuoteEnd(text, pos + 1).Some?)
  }

  /** Some entry matching is enough for a hit. */
  lemma {:induction false} SomeEntryMatches(text: string, pos: nat, k: nat)
    requires pos <= |text| && k < |TokenSpecs| && MatchEntry(TokenSpecs, k, text, pos).Some?
    ensures FirstMatch(text, pos).Some?
  {
    FirstMatchIsFirst(text, pos);
  }

  /** The one-character operators and delimiters: entries 7 to 13 and 16 to 22. */
  const Operators: string := "=<>+-*/"
  const Delimiters: string := "(){};,:"

  lemma {:induction false} OperatorEntryMatches(text: string, pos: nat, m: nat)
    requires pos < |text| && m < |Operators| && text[pos] == Operators[m]
    ensures MatchEntry(TokenSpecs, 7 + m, text, pos).Some?
  {
    assert TokenSpecs[7 + m].pattern == Exactly([Operators[m]]);
    assert text[pos..pos + 1] == [Operators[m]];
  }

  lemma {:induction false} DelimiterEntryMatches(text: string, pos: nat, m: nat)
    requires pos < |text| && m < |Delimiters| && text[pos] == Delimiters[m]
    ensures MatchEntry(TokenSpecs, 16 + m, text, pos).Some?
  {
    assert TokenSpecs[16 + m].pattern == Exactly([Delimiters[m]]);
    assert text[pos..pos + 1] == [Delimiters[m]];
  }

  /** Where a character that begins some entry stands, some entry matches. */
  lemma {:induction false} CanStartMatches(text: string, pos: nat)
    requires pos < |text| && CanStart(text, pos)
    ensures FirstMatch(text, pos).Some?
  {
    var c := text[pos];
    if IsSpace(c) {
      SomeEntryMatches(text, pos, 2);
    } else if IsDigit(c) {
      SomeEntryMatches(text, pos, 14);
    } else if IsNameStart(c) {
      SomeEntryMatches(text, pos, 23);
    } else if c == '!' {
      assert text[pos..pos + 2] == "!=";
      SomeEntryMatches(text, pos, 4);
    } else if c == '"' {
      SomeEntryMatches(text, pos, 15);
    } else if c in Operators {
      var m :| 0 <= m < |Operators| && Operators[m] == c;
      OperatorEntryMatches(text, pos, m);
      SomeEntryMatches(text, pos, 7 + m);
    } else {
      assert c in Delimiters;
      var m :| 0 <= m < |Delimiters| && Delimiters[m] == c;
      DelimiterEntryMatches(text, pos, m);
      SomeEntryMatches(text, pos, 16 + m);
    }
  }

  /** Where some entry matches, the character there begins that entry. */
  lemma {:induction false} MatchedCanStart(text: string, pos: nat)
    requires pos < |text| && FirstMatch(text, pos).Some?
    ensures CanStart(text, pos)
  {
    FirstMatchIsFirst(text, pos);
    var e := FirstMatch(text, pos).value.entry;
    if e == 4 {
      BangNeedsEquals(text, pos);
    } else if e == 15 {
      assert MatchEntry(TokenSpecs, 15, text, pos).Some?;
    } else {
      MatchOpens(TokenSpecs[e].pattern, text, pos);
    }
  }

  lemma {:induction false} BangNeedsEquals(text: string, pos: nat)
    requires pos < |text| && MatchEntry(TokenSpecs, 4, text, pos).Some?
    ensures text[pos] == '!' && pos + 1 < |text| && text[pos + 1] == '='
  {
    assert text[pos..pos + 2] == "!=";
    assert text[pos + 1] == text[pos..pos + 2][1];
  }

  /** The lexer gets stuck at exactly the characters that begin no entry:
      a `!` without `=`, a quote with no closing quote, and every character
      outside the language's alphabet. */
  lemma {:induction false} StuckIffCannotStart(text: string, pos: nat)
    requires pos < |text|
    ensures FirstMatch(text, pos).None? <==> !CanStart(text, pos)
  {
    if CanStart(text, pos) {
      CanStartMatches(text, pos);
    }
    if FirstMatch(text, pos).Some? {
      MatchedCanStart(text, pos);
    }
  }

  // ---------------------------------------------------------------------
  // Where the scan of the table first stops, by the character it reads.

  /** The piece the lexer takes at a hit that ends at `end`. */
  lemma {:induction false} PieceUpTo(text: string, pos: nat, entry: nat, group: Group, end: nat)
    requires pos < end <= |text| && FirstMatch(text, pos) == Some(Hit(entry, group, end - pos))
    ensures PieceAt(text, pos) == Some(Piece(group, text[pos..end]))
  {
  }

  /** No entry before the name entry can begin with a letter or `_`. */
  lemma {:induction false} NameOpener(c: char)
    requires IsNameStart(c)
    ensures FirstOpener(TokenSpecs, c, 0) == 23
  {
    assert FirstOpener(TokenSpecs, c, 22) == 23;
    assert FirstOpener(TokenSpecs, c, 21) == 23;
    assert FirstOpener(TokenSpecs, c, 20) == 23;
    assert FirstOpener(TokenSpecs, c, 19) == 23;
    assert FirstOpener(TokenSpecs, c, 18) == 23;
    assert FirstOpener(TokenSpecs, c, 17) == 23;
    assert FirstOpener(TokenSpecs, c, 16) == 23;
    assert FirstOpener(TokenSpecs, c, 15) == 23;
    assert FirstOpener(TokenSpecs, c, 14) == 23;
    NoOperatorOpens(c, 23);
  }

  /** An entry from 3 to 13 begins only with a comparison or arithmetic
      character; the filler entries 0 to 2 only with a slash or a space. */
  lemma {:induction false} NoOperatorOpens(c: char, e: nat)
    requires 14 <= e <= |TokenSpecs| && FirstOpener(TokenSpecs, c, 14) == e
    requires !IsSpace(c) && c !in "=!<>+-*/"
    ensures FirstOpener(TokenSpecs, c, 0) == e
  {
    assert FirstOpener(TokenSpecs, c, 13) == e;
    assert FirstOpener(TokenSpecs, c, 12) == e;
    assert FirstOpener(TokenSpecs, c, 11) == e;
    assert FirstOpener(TokenSpecs, c, 10) == e;
    assert FirstOpener(TokenSpecs, c, 9) == e;
    assert FirstOpener(TokenSpecs, c, 8) == e;
    assert FirstOpener(TokenSpecs, c, 7) == e;
    assert FirstOpener(TokenSpecs, c, 6) == e;
    assert FirstOpener(TokenSpecs, c, 5) == e;
    assert FirstOpener(TokenSpecs, c, 4) == e;
    assert FirstOpener(TokenSpecs, c, 3) == e;
    assert FirstOpener(TokenSpecs, c, 2) == e;
    assert FirstOpener(TokenSpecs, c, 1) == e;
  }

  /** A letter or underscore starts the longest run of name characters, so a
      keyword followed by more name characters is one identifier. */
  lemma {:induction false} NameWins(text: string, pos: nat)
    requires pos < |text| && IsNameStart(text[pos])
    ensures PieceAt(text, pos) == Some(Piece(Emits(Identificador), text[pos..SpanEnd(text, pos + 1, NameChar)]))
  {
    NameHit(text, pos);
    PieceUpTo(text, pos, 23, Emits(Identificador), SpanEnd(text, pos + 1, NameChar));
  }

  lemma {:induction false} NameHit(text: string, pos: nat)
    requires pos < |text| && IsNameStart(text[pos])
    ensures FirstMatch(text, pos) == Some(Hit(23, Emits(Identificador), SpanEnd(text, pos + 1, NameChar) - pos))
  {
    NameOpener(text[pos]);
    NameMatch(text, pos);
    OpenerWins(TokenSpecs, text, pos, 0, 23, SpanEnd(text, pos + 1, NameChar) - pos);
  }

  lemma {:induction false} NameMatch(text: string, pos: nat)
    requires pos < |text| && IsNameStart(text[pos])
    ensures MatchEntry(TokenSpecs, 23, text, pos) == Some(SpanEnd(text, pos + 1, NameChar) - pos)
  {
  }

  /** Where a number's digits (and its optional dot and fraction) end. */
  function NumberEnd(text: string, pos: nat): (end: nat)
    requires pos < |text| && IsDigit(text[pos])
    ensures pos < end <= |text|
  {
    var e := SpanEnd(text, pos, Digit);
    if e < |text| && text[e] == '.' then SpanEnd(text, e + 1, Digit) else e
  }

  lemma {:induction false} NumberMatch(text: string, pos: nat)
    requires pos < |text| && IsDigit(text[pos])
    ensures MatchEntry(TokenSpecs, 14, text, pos) == Some(NumberEnd(text, pos) - pos)
  {
  }

  /** A digit starts a number: the digits, then optionally one dot and the
      digits after it (possibly none). */
  lemma {:induction false} NumberWins(text: string, pos: nat)
    requires pos < |text| && IsDigit(text[pos])
    ensures PieceAt(text, pos) == Some(Piece(Emits(Numero), text[pos..NumberEnd(text, pos)]))
  {
    NumberHit(text, pos);
    PieceUpTo(text, pos, 14, Emits(Numero), NumberEnd(text, pos));
  }

  lemma {:induction false} NumberHit(text: string, pos: nat)
    requires pos < |text| && IsDigit(text[pos])
    ensures FirstMatch(text, pos) == Some(Hit(14, Emits(Numero), NumberEnd(text, pos) - pos))
  {
    assert FirstOpener(TokenSpecs, text[pos], 14) == 14;
    NoOperatorOpens(text[pos], 14);
    NumberMatch(text, pos);
    OpenerWins(TokenSpecs, text, pos, 0, 14, NumberEnd(text, pos) - pos);
  }

  /** A quote starts a string literal that runs to the first unescaped quote,
      across lines; its token keeps both quotes. */
  lemma {:induction false} StringLiteralWins(text: string, pos: nat)
    requires pos < |text| && text[pos] == '"' && QuoteEnd(text, pos + 1).Some?
    ensures PieceAt(text, pos) == Some(Piece(Emits(String), text[pos..QuoteEnd(text, pos + 1).value]))
  {
    StringHit(text, pos);
    PieceUpTo(text, pos, 15, Emits(String), QuoteEnd(text, pos + 1).value);
  }

  lemma {:induction false} StringHit(text: string, pos: nat)
    requires pos < |text| && text[pos] == '"' && QuoteEnd(text, pos + 1).Some?
    ensures FirstMatch(text, pos) == Some(Hit(15, Emits(String), QuoteEnd(text, pos + 1).value - pos))
  {
    assert FirstOpener(TokenSpecs, text[pos], 14) == 15;
    NoOperatorOpens(text[pos], 15);
    assert MatchEntry(TokenSpecs, 15, text, pos) == Some(QuoteEnd(text, pos + 1).value - pos);
    OpenerWins(TokenSpecs, text, pos, 0, 15, QuoteEnd(text, pos + 1).value - pos);
  }
}
