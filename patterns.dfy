/** The lexer's ordered pattern table. Each entry's regular expression is
    replaced by a hand-written matcher that returns the length of the match
    starting exactly at `pos`, or None; `FirstMatch` takes the first entry
    that matches, in table order, as the alternation of the combined regular
    expression does. Character classes are ASCII. */
module Patterns {
  import opened Tokens

  /** `\s`, restricted to ASCII: space, tab, newline, carriage return,
      vertical tab, form feed and the four separators 0x1C to 0x1F (file,
      group, record and unit separator), which Python's `\s` also takes. */
  predicate IsSpace(c: char) {
    c == ' ' || c == '\t' || c == '\n' || c == '\r' || c == '\U{000B}' || c == '\U{000C}' ||
    ('\U{001C}' <= c <= '\U{001F}')
  }

  /** `\d`, restricted to ASCII. */
  predicate IsDigit(c: char) {
    '0' <= c <= '9'
  }

  predicate IsLetter(c: char) {
    ('a' <= c <= 'z') || ('A' <= c <= 'Z')
  }

  /** `[a-zA-Z_]` */
  predicate IsNameStart(c: char) {
    IsLetter(c) || c == '_'
  }

  /** `[a-zA-Z0-9_]` */
  predicate IsNameChar(c: char) {
    IsNameStart(c) || IsDigit(c)
  }

  datatype CharClass = Space | Digit | NameChar

  predicate InClass(c: char, cls: CharClass) {
    match cls
    case Space => IsSpace(c)
    case Digit => IsDigit(c)
    case NameChar => IsNameChar(c)
  }

  /** The end of the longest run of `cls` characters starting at `j`: a greedy
      `cls*`. */
  function SpanEnd(text: string, j: nat, cls: CharClass): (e: nat)
    requires j <= |text|
    ensures j <= e <= |text|
    ensures e == |text| || !InClass(text[e], cls)
    decreases |text| - j
  {
    if j < |text| && InClass(text[j], cls) then SpanEnd(text, j + 1, cls) else j
  }

  /** Every character of the run is in the class. */
  lemma {:induction false} SpanEndInClass(text: string, j: nat, cls: CharClass)
    requires j <= |text|
    ensures forall k :: j <= k < SpanEnd(text, j, cls) ==> InClass(text[k], cls)
    decreases |text| - j
  {
    if j < |text| && InClass(text[j], cls) {
      SpanEndInClass(text, j + 1, cls);
    }
  }

  predicate ClosesAt(text: string, k: nat) {
    k + 1 < |text| && text[k] == '*' && text[k + 1] == '/'
  }

  // The end of the first star-slash pair at or after `j`: the lazy `.*?`
  // of the block-comment pattern under DOTALL, so newlines are crossed.
  function CloseEnd(text: string, j: nat): (r: Option<nat>)
    requires j <= |text|
    ensures r.Some? ==> j + 2 <= r.value <= |text| && ClosesAt(text, r.value - 2)
    decreases |text| - j
  {
    if j + 1 >= |text| then None
    else if ClosesAt(text, j) then Some(j + 2)
    else CloseEnd(text, j + 1)
  }

  /** The pair CloseEnd stops at is the first one, and when it finds none
      there is none. */
  lemma {:induction false} CloseEndFirst(text: string, j: nat)
    requires j <= |text|
    ensures CloseEnd(text, j).Some? ==> forall k :: j <= k < CloseEnd(text, j).value - 2 ==> !ClosesAt(text, k)
    ensures CloseEnd(text, j).None? ==> forall k :: j <= k < |text| ==> !ClosesAt(text, k)
    decreases |text| - j
  {
    if j + 1 < |text| && !ClosesAt(text, j) {
      CloseEndFirst(text, j + 1);
    }
  }

  /** The end of the line that contains `j`: the first newline at or after
      `j`, or the end of the text (`[^\n]*`, greedy). */
  function LineEnd(text: string, j: nat): (e: nat)
    requires j <= |text|
    ensures j <= e <= |text|
    ensures e == |text| || text[e] == '\n'
    decreases |text| - j
  {
    if j < |text| && text[j] != '\n' then LineEnd(text, j + 1) else j
  }

  /** The line up to LineEnd holds no newline. */
  lemma {:induction false} LineEndNoNewline(text: string, j: nat)
    requires j <= |text|
    ensures forall k :: j <= k < LineEnd(text, j) ==> text[k] != '\n'
    decreases |text| - j
  {
    if j < |text| && text[j] != '\n' {
      LineEndNoNewline(text, j + 1);
    }
  }

  /** The body of a string literal as `(\\.|[^"\\])*` reads it: escape pairs
      and characters other than the quote and the backslash. */
  predicate EscapedBody(s: string)
    decreases |s|
  {
    s == [] ||
    (s[0] == '\\' && |s| >= 2 && EscapedBody(s[2..])) ||
    (s[0] != '"' && s[0] != '\\' && EscapedBody(s[1..]))
  }

  /** The end (just past the closing quote) of a string literal whose body
      starts at `j`. */
  function QuoteEnd(text: string, j: nat): (r: Option<nat>)
    requires j <= |text|
    ensures r.Some? ==> j < r.value <= |text| && text[r.value - 1] == '"'
    decreases |text| - j
  {
    if j >= |text| then None
    else if text[j] == '"' then Some(j + 1)
    else if text[j] == '\\' then (if j + 1 < |text| then QuoteEnd(text, j + 2) else None)
    else QuoteEnd(text, j + 1)
  }

  /** QuoteEnd finds exactly the literals the regular expression accepts:
      a well-escaped body followed by a quote. */
  lemma {:induction false} QuoteEndSound(text: string, j: nat)
    requires j <= |text|
    requires QuoteEnd(text, j).Some?
    ensures EscapedBody(text[j..QuoteEnd(text, j).value - 1])
    decreases |text| - j
  {
    if text[j] == '"' {
    } else if text[j] == '\\' {
      QuoteEndSound(text, j + 2);
      var e := QuoteEnd(text, j).value;
      assert text[j..e - 1][2..] == text[j + 2..e - 1];
    } else {
      QuoteEndSound(text, j + 1);
      var e := QuoteEnd(text, j).value;
      assert text[j..e - 1][1..] == text[j + 1..e - 1];
    }
  }

  lemma {:induction false} QuoteEndComplete(text: string, j: nat, k: nat)
    requires j <= k < |text|
    requires EscapedBody(text[j..k]) && text[k] == '"'
    ensures QuoteEnd(text, j) == Some(k + 1)
    decreases k - j
  {
    if j < k {
      var body := text[j..k];
      assert body[0] == text[j];
      if text[j] == '\\' {
        assert body[2..] == text[j + 2..k];
        QuoteEndComplete(text, j + 2, k);
      } else {
        assert body[1..] == text[j + 1..k];
        QuoteEndComplete(text, j + 1, k);
      }
    }
  }

  /** The shape of one table entry's regular expression. */
  datatype Pattern =
    | BlockComment        // /\*.*?\*/   (DOTALL)
    | LineComment         // //[^\n]*
    | Whitespace          // \s+
    | Exactly(s: string)  // a fixed operator or delimiter
    | Number              // \d+(\.\d*)?
    | Quoted              // "(\\.|[^"\\])*"
    | Name                // [a-zA-Z_][a-zA-Z0-9_]*

  predicate StartsWith(text: string, pos: nat, s: string) {
    pos + |s| <= |text| && text[pos..pos + |s|] == s
  }

  /** The length of the match of `p` starting exactly at `pos`. */
  function Match(p: Pattern, text: string, pos: nat): (r: Option<nat>)
    requires pos <= |text|
    ensures r.Some? ==> 1 <= r.value <= |text| - pos
  {
    match p
    case BlockComment =>
      if StartsWith(text, pos, "/*") then
        match CloseEnd(text, pos + 2)
        case Some(e) => Some(e - pos)
        case None => None
      else None
    case LineComment =>
      if StartsWith(text, pos, "//") then Some(LineEnd(text, pos + 2) - pos) else None
    case Whitespace =>
      if pos < |text| && IsSpace(text[pos]) then Some(SpanEnd(text, pos, Space) - pos) else None
    case Exactly(s) =>
      if s != [] && StartsWith(text, pos, s) then Some(|s|) else None
    case Number =>
      if pos < |text| && IsDigit(text[pos]) then
        var e := SpanEnd(text, pos, Digit);
        if e < |text| && text[e] == '.' then Some(SpanEnd(text, e + 1, Digit) - pos)
        else Some(e - pos)
      else None
    case Quoted =>
      if pos < |text| && text[pos] == '"' then
        match QuoteEnd(text, pos + 1)
        case Some(e) => Some(e - pos)
        case None => None
      else None
    case Name =>
      if pos < |text| && IsNameStart(text[pos]) then Some(SpanEnd(text, pos + 1, NameChar) - pos)
      else None
  }

  /** What a table entry produces: one of the three filler categories, which
      emit nothing, or a token of the given category. */
  datatype Group = ComentarioLinhas | ComentarioLinha | Ignorar | Emits(kind: Kind)

  predicate IsFiller(g: Group) {
    !g.Emits?
  }

  datatype Entry = Entry(group: Group, pattern: Pattern)

  /** The pattern table, in its load-bearing order: comments and white space,
      the operators (two-character ones first), number and string literals,
      the delimiters, and names last. */
  const TokenSpecs: seq<Entry> := CommentSpecs + OperatorSpecs + LiteralSpecs + DelimiterSpecs + [Entry(Emits(Identificador), Name)]

  /** Entries 0 to 2. */
  const CommentSpecs: seq<Entry> := [
    Entry(ComentarioLinhas, BlockComment),
    Entry(ComentarioLinha, LineComment),
    Entry(Ignorar, Whitespace)]
  /** Entries 3 to 13. */
  const OperatorSpecs: seq<Entry> := [
    Entry(Emits(Igual), Exactly("==")),
    Entry(Emits(Diferente), Exactly("!=")),
    Entry(Emits(MenorIgual), Exactly("<=")),
    Entry(Emits(MaiorIgual), Exactly(">=")),
    Entry(Emits(Atribuir), Exactly("=")),
    Entry(Emits(Menor), Exactly("<")),
    Entry(Emits(Maior), Exactly(">")),
    Entry(Emits(Soma), Exactly("+")),
    Entry(Emits(Subtracao), Exactly("-")),
    Entry(Emits(Multiplicacao), Exactly("*")),
    Entry(Emits(Divisao), Exactly("/"))]
  /** Entries 14 and 15. */
  const LiteralSpecs: seq<Entry> := [
    Entry(Emits(Numero), Number),
    Entry(Emits(String), Quoted)]
  /** Entries 16 to 22. */
  const DelimiterSpecs: seq<Entry> := [
    Entry(Emits(ParenteseEsq), Exactly("(")),
    Entry(Emits(ParenteseDir), Exactly(")")),
    Entry(Emits(ChaveEsq), Exactly("{")),
    Entry(Emits(ChaveDir), Exactly("}")),
    Entry(Emits(PontoVirgula), Exactly(";")),
    Entry(Emits(Virgula), Exactly(",")),
    Entry(Emits(DoisPontos), Exactly(":"))]

  /** The entry that matched, its group and the length of its match. */
  datatype Hit = Hit(entry: nat, group: Group, len: nat)

  /** Whether entry `k` of a pattern table matches at `pos`, and how far. */
  function MatchEntry(specs: seq<Entry>, k: nat, text: string, pos: nat): Option<nat>
    requires k < |specs| && pos <= |text|
  {
    Match(specs[k].pattern, text, pos)
  }

  /** The first entry of `specs`, from `k` on, whose pattern matches at `pos`. */
  function FirstMatchFrom(specs: seq<Entry>, text: string, pos: nat, k: nat): (r: Option<Hit>)
    requires pos <= |text| && k <= |specs|
    ensures r.Some? ==> k <= r.value.entry < |specs| && 1 <= r.value.len <= |text| - pos
    decreases |specs| - k
  {
    if k == |specs| then None
    else match MatchEntry(specs, k, text, pos)
      case Some(n) => Some(Hit(k, specs[k].group, n))
      case None => FirstMatchFrom(specs, text, pos, k + 1)
  }

  /** The first entry, in table order, whose pattern matches at `pos`: not the
      longest match. */
  function FirstMatch(text: string, pos: nat): (r: Option<Hit>)
    requires pos <= |text|
    ensures r.Some? ==> r.value.entry < |TokenSpecs| && 1 <= r.value.len <= |text| - pos
    ensures r.Some? ==> r.value.group != Emits(Eof)
  {
    TableHasNoEof();
    FirstMatchFromIsFirst(TokenSpecs, text, pos, 0);
    FirstMatchFrom(TokenSpecs, text, pos, 0)
  }

  /** No entry of the table produces the end-of-input category. */
  lemma {:induction false} TableHasNoEof()
    ensures forall k :: 0 <= k < |TokenSpecs| ==> TokenSpecs[k].group != Emits(Eof)
  {
  }

  lemma {:induction false} FirstMatchFromIsFirst(specs: seq<Entry>, text: string, pos: nat, k: nat)
    requires pos <= |text| && k <= |specs|
    ensures var r := FirstMatchFrom(specs, text, pos, k);
      (r.Some? ==> r.value.group == specs[r.value.entry].group) &&
      (r.Some? ==> MatchEntry(specs, r.value.entry, text, pos) == Some(r.value.len)) &&
      (r.Some? ==> forall j :: k <= j < r.value.entry ==> MatchEntry(specs, j, text, pos).None?) &&
      (r.None? ==> forall j :: k <= j < |specs| ==> MatchEntry(specs, j, text, pos).None?)
    decreases |specs| - k
  {
    if k < |specs| && MatchEntry(specs, k, text, pos).None? {
      FirstMatchFromIsFirst(specs, text, pos, k + 1);
    }
  }

  /** The priority rule: the hit is an entry that matches here, every entry
      before it fails here, and there is no hit only when every entry fails. */
  lemma {:induction false} FirstMatchIsFirst(text: string, pos: nat)
    requires pos <= |text|
    ensures var r := FirstMatch(text, pos);
      (r.Some? ==> r.value.group == TokenSpecs[r.value.entry].group) &&
      (r.Some? ==> MatchEntry(TokenSpecs, r.value.entry, text, pos) == Some(r.value.len)) &&
      (r.Some? ==> forall j :: 0 <= j < r.value.entry ==> MatchEntry(TokenSpecs, j, text, pos).None?) &&
      (r.None? ==> forall j :: 0 <= j < |TokenSpecs| ==> MatchEntry(TokenSpecs, j, text, pos).None?)
  {
    FirstMatchFromIsFirst(TokenSpecs, text, pos, 0);
  }

  lemma {:induction false} FirstMatchFromAt(specs: seq<Entry>, text: string, pos: nat, k: nat, e: nat, n: nat)
    requires pos <= |text| && k <= e < |specs|
    requires forall j :: k <= j < e ==> MatchEntry(specs, j, text, pos).None?
    requires MatchEntry(specs, e, text, pos) == Some(n)
    ensures FirstMatchFrom(specs, text, pos, k) == Some(Hit(e, specs[e].group, n))
    decreases e - k
  {
    if k < e {
      FirstMatchFromAt(specs, text, pos, k + 1, e, n);
    }
  }

  /** The converse of the priority rule: an entry that matches, with every
      entry before it failing, is the hit. */
  lemma {:induction false} FirstMatchAt(text: string, pos: nat, e: nat, n: nat)
    requires pos <= |text| && e < |TokenSpecs|
    requires forall j :: 0 <= j < e ==> MatchEntry(TokenSpecs, j, text, pos).None?
    requires MatchEntry(TokenSpecs, e, text, pos) == Some(n)
    ensures FirstMatch(text, pos) == Some(Hit(e, TokenSpecs[e].group, n))
  {
    FirstMatchFromAt(TokenSpecs, text, pos, 0, e, n);
  }

  /** The characters a pattern's match can begin with. */
  predicate Opens(p: Pattern, c: char) {
    match p
    case BlockComment => c == '/'
    case LineComment => c == '/'
    case Whitespace => IsSpace(c)
    case Exactly(s) => s != [] && c == s[0]
    case Number => IsDigit(c)
    case Quoted => c == '"'
    case Name => IsNameStart(c)
  }

  /** A pattern matches only where a character it can begin with stands. */
  lemma {:induction false} MatchOpens(p: Pattern, text: string, pos: nat)
    requires pos <= |text| && Match(p, text, pos).Some?
    ensures pos < |text| && Opens(p, text[pos])
  {
    match p
    case Exactly(s) => assert text[pos..pos + |s|][0] == text[pos];
    case _ =>
  }

  /** The first entry from `k` on whose pattern can begin with `c`, or the
      length of the table when there is none. */
  function FirstOpener(specs: seq<Entry>, c: char, k: nat): (r: nat)
    requires k <= |specs|
    ensures k <= r <= |specs|
    decreases |specs| - k
  {
    if k == |specs| || Opens(specs[k].pattern, c) then k else FirstOpener(specs, c, k + 1)
  }

  /** The scan of the table skips every entry that cannot begin with the
      character at `pos`. */
  lemma {:induction false} SkipToOpener(specs: seq<Entry>, text: string, pos: nat, k: nat)
    requires pos < |text| && k <= |specs|
    ensures FirstMatchFrom(specs, text, pos, k) == FirstMatchFrom(specs, text, pos, FirstOpener(specs, text[pos], k))
    decreases |specs| - k
  {
    if k < |specs| && !Opens(specs[k].pattern, text[pos]) {
      if MatchEntry(specs, k, text, pos).Some? {
        MatchOpens(specs[k].pattern, text, pos);
      }
      SkipToOpener(specs, text, pos, k + 1);
    }
  }

  /** The scan of the table passes over an entry that does not match. */
  lemma {:induction false} PassFailing(specs: seq<Entry>, text: string, pos: nat, k: nat)
    requires pos <= |text| && k < |specs| && MatchEntry(specs, k, text, pos).None?
    ensures FirstMatchFrom(specs, text, pos, k) == FirstMatchFrom(specs, text, pos, k + 1)
  {
  }

  /** The scan of the table stops at an entry that matches. */
  lemma {:induction false} StopAt(specs: seq<Entry>, text: string, pos: nat, k: nat, n: nat)
    requires pos <= |text| && k < |specs| && MatchEntry(specs, k, text, pos) == Some(n)
    ensures FirstMatchFrom(specs, text, pos, k) == Some(Hit(k, specs[k].group, n))
  {
  }

  /** The first entry that can begin with the character at `pos`, when it
      matches, is the hit. */
  lemma {:induction false} OpenerWins(specs: seq<Entry>, text: string, pos: nat, k: nat, e: nat, n: nat)
    requires pos < |text| && k <= e < |specs| && FirstOpener(specs, text[pos], k) == e
    requires MatchEntry(specs, e, text, pos) == Some(n)
    ensures FirstMatchFrom(specs, text, pos, k) == Some(Hit(e, specs[e].group, n))
  {
    SkipToOpener(specs, text, pos, k);
    StopAt(specs, text, pos, e, n);
  }

  /** An entry that fails, then the first entry after it that can begin
      with the character at `pos`, when that one matches. */
  lemma {:induction false} FailThenOpenerWins(specs: seq<Entry>, text: string, pos: nat, k0: nat, k: nat, e: nat, n: nat)
    requires pos < |text| && k0 <= k < e < |specs| && FirstOpener(specs, text[pos], k0) == k
    requires MatchEntry(specs, k, text, pos).None?
    requires FirstOpener(specs, text[pos], k + 1) == e && MatchEntry(specs, e, text, pos) == Some(n)
    ensures FirstMatchFrom(specs, text, pos, k0) == Some(Hit(e, specs[e].group, n))
  {
    SkipToOpener(specs, text, pos, k0);
    PassFailing(specs, text, pos, k);
    OpenerWins(specs, text, pos, k + 1, e, n);
  }

  /** Two entries that fail, then the first entry after them that can begin
      with the character at `pos`, when that one matches. */
  lemma {:induction false} FailTwiceThenOpenerWins(specs: seq<Entry>, text: string, pos: nat, k: nat, e: nat, n: nat)
    requires pos < |text| && k + 2 <= e < |specs|
    requires MatchEntry(specs, k, text, pos).None? && MatchEntry(specs, k + 1, text, pos).None?
    requires FirstOpener(specs, text[pos], k + 2) == e && MatchEntry(specs, e, text, pos) == Some(n)
    ensures FirstMatchFrom(specs, text, pos, k) == Some(Hit(e, specs[e].group, n))
  {
    PassFailing(specs, text, pos, k);
    PassFailing(specs, text, pos, k + 1);
    OpenerWins(specs, text, pos, k + 2, e, n);
  }
}
