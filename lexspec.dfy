/** What `Lexer.tokenize` computes, as functions: the position update rule,
    the scan of the text into matched pieces (filler included), and the
    tokens those pieces emit. */
module LexSpec {
  import opened Tokens
  import opened Patterns

  /** The position update for one consumed character. */
  function Step(p: Pos, c: char): Pos {
    if c == '\n' then Pos(p.line + 1, 1) else Pos(p.line, p.column + 1)
  }

  /** The position reached after consuming `s` from `p`, one character at a
      time from the left. */
  function Advance(p: Pos, s: string): Pos
    decreases |s|
  {
    if s == [] then p else Step(Advance(p, s[..|s| - 1]), s[|s| - 1])
  }

  function Newlines(s: string): nat
    decreases |s|
  {
    if s == [] then 0 else (if s[|s| - 1] == '\n' then 1 else 0) + Newlines(s[..|s| - 1])
  }

  lemma {:induction false} AdvanceAppend(p: Pos, a: string, b: string)
    ensures Advance(p, a + b) == Advance(Advance(p, a), b)
    decreases |b|
  {
    if b != [] {
      assert (a + b)[..|a + b| - 1] == a + b[..|b| - 1];
      AdvanceAppend(p, a, b[..|b| - 1]);
    } else {
      assert a + b == a;
    }
  }

  /** Each newline consumed adds one line. */
  lemma {:induction false} AdvanceLine(p: Pos, s: string)
    ensures Advance(p, s).line == p.line + Newlines(s)
    decreases |s|
  {
    if s != [] {
      AdvanceLine(p, s[..|s| - 1]);
    }
  }

  /** Text without a newline moves the column by its length. */
  lemma {:induction false} AdvanceSameLine(p: Pos, s: string)
    requires forall k :: 0 <= k < |s| ==> s[k] != '\n'
    ensures Advance(p, s) == Pos(p.line, p.column + |s|)
    decreases |s|
  {
    if s != [] {
      AdvanceSameLine(p, s[..|s| - 1]);
    }
  }

  /** After a newline the column restarts at 1 and counts what follows it. */
  lemma {:induction false} AdvanceAfterNewline(p: Pos, a: string, b: string)
    requires forall k :: 0 <= k < |b| ==> b[k] != '\n'
    ensures Advance(p, a + ['\n'] + b) == Pos(Advance(p, a).line + 1, 1 + |b|)
  {
    AdvanceAppend(p, a + ['\n'], b);
    assert (a + ['\n'])[..|a + ['\n']| - 1] == a;
    AdvanceSameLine(Advance(p, a + ['\n']), b);
  }

  /** Consuming at least one character moves strictly forward in reading order. */
  lemma {:induction false} AdvanceGrows(p: Pos, s: string)
    requires s != []
    ensures Lt(p, Advance(p, s))
    decreases |s|
  {
    if |s| > 1 {
      AdvanceGrows(p, s[..|s| - 1]);
    }
  }

  /** The keyword table: exact, case-sensitive. */
  const Keywords: seq<(string, Kind)> := [
    ("if", If), ("else", Else), ("while", While), ("for", For),
    ("int", Int), ("float", Float), ("string", String), ("bool", Bool),
    ("true", True), ("false", False), ("return", Return), ("void", Void)
  ]

  function LookupFrom(word: string, k: nat): Kind
    requires k <= |Keywords|
    decreases |Keywords| - k
  {
    if k == |Keywords| then Identificador
    else if Keywords[k].0 == word then Keywords[k].1
    else LookupFrom(word, k + 1)
  }

  /** The category of a matched identifier: its keyword's, or `Identificador`. */
  function KeywordKind(word: string): Kind {
    LookupFrom(word, 0)
  }

  /** The keyword lookup is exact: a word gets a keyword category precisely
      when it is spelled as one of the table's words, letter case included. */
  lemma {:induction false} LookupFromFinds(word: string, k: nat)
    requires k <= |Keywords|
    ensures LookupFrom(word, k) == Identificador <==> forall j :: k <= j < |Keywords| ==> Keywords[j].0 != word
    ensures forall j :: k <= j < |Keywords| && Keywords[j].0 == word ==> LookupFrom(word, k) == Keywords[j].1
    decreases |Keywords| - k
  {
    if k < |Keywords| {
      LookupFromFinds(word, k + 1);
      if Keywords[k].0 == word {
        forall j | k < j < |Keywords| ensures Keywords[j].0 != word {
          DistinctKeywords(k, j);
        }
      }
    }
  }

  lemma {:induction false} DistinctKeywords(i: nat, j: nat)
    requires i < j < |Keywords|
    ensures Keywords[i].0 != Keywords[j].0 && Keywords[i].1 != Identificador
  {
  }

  lemma {:induction false} KeywordKindExact(word: string)
    ensures KeywordKind(word) == Identificador <==> forall j :: 0 <= j < |Keywords| ==> Keywords[j].0 != word
    ensures forall j :: 0 <= j < |Keywords| && Keywords[j].0 == word ==> KeywordKind(word) == Keywords[j].1
  {
    LookupFromFinds(word, 0);
  }

  /** One matched stretch of text and the table group that matched it. */
  datatype Piece = Piece(group: Group, lexeme: string)

  /** The piece the first matching entry cuts at `k`. */
  function PieceAt(text: string, k: nat): (r: Option<Piece>)
    requires k <= |text|
    ensures r.Some? ==> 1 <= |r.value.lexeme| <= |text| - k
    ensures r.Some? ==> r.value.lexeme == text[k..k + |r.value.lexeme|]
    ensures r.Some? ==> r.value.group != Emits(Eof)
    ensures r.None? <==> FirstMatch(text, k).None?
  {
    match FirstMatch(text, k)
    case Some(h) => Some(Piece(h.group, text[k..k + h.len]))
    case None => None
  }

  function Concat(ps: seq<Piece>): string
    decreases |ps|
  {
    if ps == [] then [] else ps[0].lexeme + Concat(ps[1..])
  }

  /** `ps` is the sequence of first-match pieces cut one after another from `k`. */
  predicate Tiles(text: string, k: nat, ps: seq<Piece>)
    decreases |ps|
  {
    k <= |text| &&
    (ps == [] ||
     (PieceAt(text, k) == Some(ps[0]) && Tiles(text, k + |ps[0].lexeme|, ps[1..])))
  }

  /** The scan either consumes the whole text or gets stuck at an offset where
      no entry matches, after the pieces cut so far. */
  datatype Scanned = Done(pieces: seq<Piece>) | Stuck(pieces: seq<Piece>, offset: nat)

  function Reached(r: Scanned, text: string): nat {
    if r.Done? then |text| else r.offset
  }

  function Prefix(p: Piece, r: Scanned): Scanned {
    match r
    case Done(ps) => Done([p] + ps)
    case Stuck(ps, k) => Stuck([p] + ps, k)
  }

  /** The scanning loop: cut the first-match piece at `pos` until the end of
      the text, or stop where nothing matches. What the pieces are is stated
      by `ScanTiles`. */
  function Scan(text: string, pos: nat): (r: Scanned)
    requires pos <= |text|
    ensures pos <= Reached(r, text) <= |text|
    ensures r.Stuck? ==> r.offset < |text|
    decreases |text| - pos
  {
    if pos == |text| then Done([])
    else match PieceAt(text, pos)
      case None => Stuck([], pos)
      case Some(p) => Prefix(p, Scan(text, pos + |p.lexeme|))
  }

  /** The pieces of the scan `r` from `pos` tile the text up to where it
      stops, each cut by the first matching entry, and a stuck scan stops
      where no entry matches. */
  predicate ScanSound(text: string, pos: nat, r: Scanned)
    requires pos <= Reached(r, text) <= |text|
  {
    Tiles(text, pos, r.pieces) &&
    Concat(r.pieces) == text[pos..Reached(r, text)] &&
    (r.Stuck? ==> PieceAt(text, r.offset).None?)
  }

  /** Every scan is sound. */
  lemma {:induction false} ScanTiles(text: string, pos: nat)
    requires pos <= |text|
    ensures ScanSound(text, pos, Scan(text, pos))
    decreases |text| - pos
  {
    if pos == |text| {
      ScanSoundAtEnd(text, pos);
    } else if PieceAt(text, pos).None? {
      ScanSoundStuck(text, pos);
    } else {
      var p := PieceAt(text, pos).value;
      ScanTiles(text, pos + |p.lexeme|);
      ScanSoundStep(text, pos, p);
    }
  }

  lemma {:induction false} ScanSoundAtEnd(text: string, pos: nat)
    requires pos == |text|
    ensures ScanSound(text, pos, Scan(text, pos))
  {
    assert Scan(text, pos) == Done([]);
    assert text[pos..|text|] == [];
  }

  lemma {:induction false} ScanSoundStuck(text: string, pos: nat)
    requires pos < |text| && PieceAt(text, pos).None?
    ensures ScanSound(text, pos, Scan(text, pos))
  {
    assert Scan(text, pos) == Stuck([], pos);
    assert text[pos..pos] == [];
  }

  lemma {:induction false} ScanSoundStep(text: string, pos: nat, p: Piece)
    requires pos < |text| && PieceAt(text, pos) == Some(p)
    requires ScanSound(text, pos + |p.lexeme|, Scan(text, pos + |p.lexeme|))
    ensures ScanSound(text, pos, Scan(text, pos))
  {
    var rest := Scan(text, pos + |p.lexeme|);
    ScanStep(text, pos, p);
    PrefixTiles(text, pos, p, rest);
    assert Prefix(p, rest).Stuck? ==> Prefix(p, rest).offset == rest.offset;
  }

  lemma {:induction false} PrefixTiles(text: string, pos: nat, p: Piece, rest: Scanned)
    requires pos < |text| && PieceAt(text, pos) == Some(p)
    requires pos + |p.lexeme| <= Reached(rest, text) <= |text|
    requires Tiles(text, pos + |p.lexeme|, rest.pieces)
    requires Concat(rest.pieces) == text[pos + |p.lexeme|..Reached(rest, text)]
    ensures Tiles(text, pos, Prefix(p, rest).pieces)
    ensures Concat(Prefix(p, rest).pieces) == text[pos..Reached(Prefix(p, rest), text)]
  {
    var ps := [p] + rest.pieces;
    assert Prefix(p, rest).pieces == ps;
    assert ps[0] == p && ps[1..] == rest.pieces;
    PrefixConcat(text, pos, p, rest.pieces, Reached(rest, text));
  }

  lemma {:induction false} PrefixConcat(text: string, pos: nat, p: Piece, ps: seq<Piece>, end: nat)
    requires pos + |p.lexeme| <= end <= |text| && p.lexeme == text[pos..pos + |p.lexeme|]
    requires Concat(ps) == text[pos + |p.lexeme|..end]
    ensures Concat([p] + ps) == text[pos..end]
  {
    assert ([p] + ps)[1..] == ps;
    assert text[pos..end] == text[pos..pos + |p.lexeme|] + text[pos + |p.lexeme|..end];
  }

  /** The token an emitting piece produces: identifiers are looked up in the
      keyword table; the value is always the matched text. */
  function MakeToken(kind: Kind, lexeme: string, at: Pos): Token {
    if kind == Identificador then Token(KeywordKind(lexeme), Some(lexeme), Some(at))
    else Token(kind, Some(lexeme), Some(at))
  }

  function EmitOne(p: Piece, at: Pos): seq<Token> {
    if IsFiller(p.group) then [] else [MakeToken(p.group.kind, p.lexeme, at)]
  }

  /** The tokens the pieces emit, each stamped with the position reached
      before its own lexeme is consumed. */
  function Emit(ps: seq<Piece>, at: Pos): seq<Token>
    decreases |ps|
  {
    if ps == [] then [] else EmitOne(ps[0], at) + Emit(ps[1..], Advance(at, ps[0].lexeme))
  }

  datatype LexErr = LexErr(offending: char, at: Pos)

  /** The outcome of a scan started at position `at`: the emitted tokens and a
      final end-of-input token at the position after every piece, or the
      character the scan got stuck on and the position reached before it. */
  function Assemble(r: Scanned, text: string, at: Pos): Result<seq<Token>, LexErr>
    requires r.Stuck? ==> r.offset < |text|
  {
    match r
    case Done(ps) => Ok(Emit(ps, at) + [Token(Eof, None, Some(Advance(at, Concat(ps))))])
    case Stuck(ps, k) => Err(LexErr(text[k], Advance(at, Concat(ps))))
  }

  /** `tokenize` started at offset `pos` and position `at`. */
  function Lex(text: string, pos: nat, at: Pos): Result<seq<Token>, LexErr>
    requires pos <= |text|
  {
    Assemble(Scan(text, pos), text, at)
  }

  /** `tokenize` on a fresh lexer. */
  function Tokenize(text: string): Result<seq<Token>, LexErr> {
    Lex(text, 0, Pos(1, 1))
  }

  // ---------------------------------------------------------------------
  // One step of the loop, as the lexer's method takes it.

  /** Prepends tokens to a successful outcome; errors pass through. */
  function Glue(ts: seq<Token>, r: Result<seq<Token>, LexErr>): Result<seq<Token>, LexErr> {
    match r
    case Ok(rest) => Ok(ts + rest)
    case Err(e) => Err(e)
  }

  lemma {:induction false} LexAtEnd(text: string, at: Pos)
    ensures Lex(text, |text|, at) == Ok([Token(Eof, None, Some(at))])
  {
    assert Scan(text, |text|) == Done([]);
    assert Emit([], at) == [];
    assert Concat([]) == [];
    assert Advance(at, []) == at;
    assert Emit([], at) + [Token(Eof, None, Some(at))] == [Token(Eof, None, Some(at))];
    assert Advance(at, Concat([])) == at;
    assert Assemble(Done([]), text, at) == Ok([Token(Eof, None, Some(at))]);
  }

  /** No entry matches: the error names this character and this position. */
  lemma {:induction false} LexStuckHere(text: string, pos: nat, at: Pos)
    requires pos < |text| && FirstMatch(text, pos).None?
    ensures Lex(text, pos, at) == Err(LexErr(text[pos], at))
  {
    assert Scan(text, pos) == Stuck([], pos);
  }

  lemma {:induction false} ScanStep(text: string, pos: nat, p: Piece)
    requires pos < |text| && PieceAt(text, pos) == Some(p)
    ensures Scan(text, pos) == Prefix(p, Scan(text, pos + |p.lexeme|))
  {
    assert pos != |text|;
  }

  lemma {:induction false} AssemblePrefix(p: Piece, r: Scanned, text: string, at: Pos)
    requires r.Stuck? ==> r.offset < |text|
    ensures Assemble(Prefix(p, r), text, at) == Glue(EmitOne(p, at), Assemble(r, text, Advance(at, p.lexeme)))
  {
    var ps := r.pieces;
    var next := Advance(at, p.lexeme);
    assert ([p] + ps)[1..] == ps;
    assert Concat([p] + ps) == p.lexeme + Concat(ps);
    AdvanceAppend(at, p.lexeme, Concat(ps));
    var end := Advance(at, Concat([p] + ps));
    assert end == Advance(next, Concat(ps));
    assert Emit([p] + ps, at) == EmitOne(p, at) + Emit(ps, next);
    match r
    case Done(_) =>
      var eof := Token(Eof, None, Some(end));
      assert Assemble(Prefix(p, r), text, at) == Ok(Emit([p] + ps, at) + [eof]);
      assert Assemble(r, text, next) == Ok(Emit(ps, next) + [eof]);
      assert Emit([p] + ps, at) + [eof] == EmitOne(p, at) + (Emit(ps, next) + [eof]);
    case Stuck(_, k) =>
      assert Assemble(Prefix(p, r), text, at) == Err(LexErr(text[k], end));
  }

  /** The continuation after one piece: what remains of the text is lexed from
      the position the piece's characters lead to. */
  lemma {:induction false} LexStep(text: string, pos: nat, at: Pos, p: Piece)
    requires pos < |text| && PieceAt(text, pos) == Some(p)
    ensures Lex(text, pos, at) == Glue(EmitOne(p, at), Lex(text, pos + |p.lexeme|, Advance(at, p.lexeme)))
  {
    ScanStep(text, pos, p);
    AssemblePrefix(p, Scan(text, pos + |p.lexeme|), text, at);
  }

  /** Whitespace and comments emit nothing but still advance line and column
      through every character they span, newlines included. */
  lemma {:induction false} LexSkipsFiller(text: string, pos: nat, at: Pos, p: Piece)
    requires pos < |text| && PieceAt(text, pos) == Some(p) && IsFiller(p.group)
    ensures Lex(text, pos, at) == Lex(text, pos + |p.lexeme|, Advance(at, p.lexeme))
  {
    LexStep(text, pos, at, p);
    GlueFiller(p, at, Lex(text, pos + |p.lexeme|, Advance(at, p.lexeme)));
  }

  lemma {:induction false} GlueFiller(p: Piece, at: Pos, r: Result<seq<Token>, LexErr>)
    requires IsFiller(p.group)
    ensures Glue(EmitOne(p, at), r) == r
  {
    match r
    case Ok(rest) => assert [] + rest == rest;
    case Err(_) =>
  }

  /** Any other piece emits exactly one token, stamped with the position before
      its first character, ahead of the rest. */
  lemma {:induction false} LexEmitsToken(text: string, pos: nat, at: Pos, p: Piece)
    requires pos < |text| && PieceAt(text, pos) == Some(p) && !IsFiller(p.group)
    ensures Lex(text, pos, at) ==
      Glue([MakeToken(p.group.kind, p.lexeme, at)], Lex(text, pos + |p.lexeme|, Advance(at, p.lexeme)))
  {
    LexStep(text, pos, at, p);
  }

  // ---------------------------------------------------------------------
  // Properties of the whole token list.

  /** Every piece is non-empty and none claims the end-of-input category. */
  predicate WellCut(ps: seq<Piece>) {
    forall i :: 0 <= i < |ps| ==> ps[i].lexeme != [] && ps[i].group != Emits(Eof)
  }

  lemma {:induction false} TilesWellCut(text: string, k: nat, ps: seq<Piece>)
    requires Tiles(text, k, ps)
    ensures WellCut(ps)
    decreases |ps|
  {
    if ps != [] {
      TilesWellCut(text, k + |ps[0].lexeme|, ps[1..]);
      forall i | 0 <= i < |ps| ensures ps[i].lexeme != [] && ps[i].group != Emits(Eof) {
        if i > 0 { assert ps[i] == ps[1..][i - 1]; }
      }
    }
  }

  lemma {:induction false} LookupNotEof(word: string, k: nat)
    requires k <= |Keywords|
    ensures LookupFrom(word, k) != Eof
    decreases |Keywords| - k
  {
    if k < |Keywords| && Keywords[k].0 != word {
      LookupNotEof(word, k + 1);
    }
  }

  lemma {:induction false} EmitNoEof(ps: seq<Piece>, at: Pos)
    requires WellCut(ps)
    ensures forall t :: t in Emit(ps, at) ==> t.kind != Eof && t.value.Some? && t.at.Some?
    decreases |ps|
  {
    if ps != [] {
      assert WellCut(ps[1..]) by {
        forall i | 0 <= i < |ps[1..]| ensures ps[1..][i].lexeme != [] && ps[1..][i].group != Emits(Eof) {
          assert ps[1..][i] == ps[i + 1];
        }
      }
      EmitNoEof(ps[1..], Advance(at, ps[0].lexeme));
      LookupNotEof(ps[0].lexeme, 0);
      assert Emit(ps, at) == EmitOne(ps[0], at) + Emit(ps[1..], Advance(at, ps[0].lexeme));
    }
  }

  lemma {:induction false} EmitOneAt(p: Piece, at: Pos)
    ensures |EmitOne(p, at)| <= 1
    ensures forall t :: t in EmitOne(p, at) ==> t.at == Some(at)
  {
  }

  /** Emitted positions lie between the start and the position after the
      pieces. */
  lemma {:induction false} EmitBounds(ps: seq<Piece>, at: Pos)
    requires WellCut(ps)
    ensures forall t :: t in Emit(ps, at) ==>
      t.at.Some? && Le(at, t.at.value) && Lt(t.at.value, Advance(at, Concat(ps)))
    decreases |ps|
  {
    if ps != [] {
      var p := ps[0];
      var rest := ps[1..];
      var next := Advance(at, p.lexeme);
      assert WellCut(rest) by {
        forall i | 0 <= i < |rest| ensures rest[i].lexeme != [] && rest[i].group != Emits(Eof) {
          assert rest[i] == ps[i + 1];
        }
      }
      EmitBounds(rest, next);
      EmitOneAt(p, at);
      AdvanceGrows(at, p.lexeme);
      AdvanceAppend(at, p.lexeme, Concat(rest));
      var end := Advance(at, Concat(ps));
      assert end == Advance(next, Concat(rest));
      assert Le(next, end) by {
        if Concat(rest) != [] { AdvanceGrows(next, Concat(rest)); }
      }
      assert Emit(ps, at) == EmitOne(p, at) + Emit(rest, next);
    }
  }

  /** Emitted positions increase strictly. */
  lemma {:induction false} EmitSorted(ps: seq<Piece>, at: Pos)
    requires WellCut(ps)
    ensures forall t :: t in Emit(ps, at) ==> t.at.Some?
    ensures forall i, j :: 0 <= i < j < |Emit(ps, at)| ==> Lt(Emit(ps, at)[i].at.value, Emit(ps, at)[j].at.value)
    decreases |ps|
  {
    EmitBounds(ps, at);
    if ps != [] {
      var p := ps[0];
      var rest := ps[1..];
      var next := Advance(at, p.lexeme);
      assert WellCut(rest) by {
        forall i | 0 <= i < |rest| ensures rest[i].lexeme != [] && rest[i].group != Emits(Eof) {
          assert rest[i] == ps[i + 1];
        }
      }
      EmitSorted(rest, next);
      EmitBounds(rest, next);
      EmitOneAt(p, at);
      assert p.lexeme != [];
      AdvanceGrows(at, p.lexeme);
      var head := EmitOne(p, at);
      var tail := Emit(rest, next);
      var ts := Emit(ps, at);
      assert ts == head + tail;
      forall i, j | 0 <= i < j < |ts| ensures Lt(ts[i].at.value, ts[j].at.value) {
        var tj := tail[j - |head|];
        assert ts[j] == tj && tj in tail;
        assert Le(next, tj.at.value);
        if i < |head| {
          assert ts[i] == head[i] && head[i] in head;
          assert ts[i].at == Some(at);
          assert Lt(at, next);
        } else {
          assert ts[i] == tail[i - |head|];
          assert Lt(tail[i - |head|].at.value, tail[j - |head|].at.value);
        }
      }
    }
  }

  /** What a successful scan assembles to: the emitted tokens and one final
      end-of-input token, after all of them. */
  lemma {:induction false} AssembleShape(ps: seq<Piece>, text: string, at: Pos)
    requires WellCut(ps)
    ensures var ts := Assemble(Done(ps), text, at).value;
      |ts| >= 1 && ts[|ts| - 1] == Token(Eof, None, Some(Advance(at, Concat(ps)))) &&
      (forall i :: 0 <= i < |ts| - 1 ==> ts[i].kind != Eof && ts[i].value.Some? && ts[i].at.Some?) &&
      (forall i :: 0 <= i < |ts| ==> ts[i].at.Some? && Le(at, ts[i].at.value)) &&
      (forall i, j :: 0 <= i < j < |ts| ==> Lt(ts[i].at.value, ts[j].at.value))
  {
    var em := Emit(ps, at);
    var last := Advance(at, Concat(ps));
    var ts := Assemble(Done(ps), text, at).value;
    assert ts == em + [Token(Eof, None, Some(last))];
    EmitNoEof(ps, at);
    EmitBounds(ps, at);
    EmitSorted(ps, at);
    assert Le(at, last) by {
      if Concat(ps) != [] { AdvanceGrows(at, Concat(ps)); }
    }
    forall i | 0 <= i < |ts| ensures ts[i].at.Some? && Le(at, ts[i].at.value) {
      if i < |em| { assert ts[i] == em[i] && em[i] in em; }
    }
    forall i | 0 <= i < |ts| - 1 ensures ts[i].kind != Eof && ts[i].value.Some? && ts[i].at.Some? {
      assert ts[i] == em[i] && em[i] in em;
    }
    forall i, j | 0 <= i < j < |ts| ensures Lt(ts[i].at.value, ts[j].at.value) {
      assert ts[i] == em[i] && em[i] in em;
      if j < |em| { assert ts[j] == em[j]; }
    }
  }

  /** The list ends in exactly one end-of-input token, with no value and the
      final line and column; every other token carries its text and position. */
  lemma {:induction false} LexEndsWithEof(text: string, pos: nat, at: Pos)
    requires pos <= |text| && Lex(text, pos, at).Ok?
    ensures var ts := Lex(text, pos, at).value;
      |ts| >= 1 && ts[|ts| - 1] == Token(Eof, None, Some(Advance(at, text[pos..]))) &&
      forall i :: 0 <= i < |ts| - 1 ==> ts[i].kind != Eof && ts[i].value.Some? && ts[i].at.Some?
  {
    var r := Scan(text, pos);
    ScanTiles(text, pos);
    assert Lex(text, pos, at) == Assemble(r, text, at);
    assert r.Done? && Concat(r.pieces) == text[pos..];
    TilesWellCut(text, pos, r.pieces);
    AssembleShape(r.pieces, text, at);
  }

  /** Token positions never go backwards; in fact they strictly increase, end
      of input included, and none is before the starting position. */
  lemma {:induction false} LexPositionsIncrease(text: string, pos: nat, at: Pos)
    requires pos <= |text| && Lex(text, pos, at).Ok?
    ensures var ts := Lex(text, pos, at).value;
      (forall i :: 0 <= i < |ts| ==> ts[i].at.Some? && Le(at, ts[i].at.value)) &&
      (forall i, j :: 0 <= i < j < |ts| ==> Lt(ts[i].at.value, ts[j].at.value))
  {
    var r := Scan(text, pos);
    ScanTiles(text, pos);
    TilesWellCut(text, pos, r.pieces);
    AssembleShape(r.pieces, text, at);
  }

  /** Lexing fails exactly when the scan gets stuck, and then names the first
      character no entry matches and the line and column it stands at. */
  lemma {:induction false} LexFailsAtUnmatched(text: string, pos: nat, at: Pos)
    requires pos <= |text|
    ensures Lex(text, pos, at).Err? <==> Scan(text, pos).Stuck?
    ensures Lex(text, pos, at).Err? ==>
      var k := Scan(text, pos).offset;
      pos <= k < |text| && FirstMatch(text, k).None? &&
      Lex(text, pos, at).error == LexErr(text[k], Advance(at, text[pos..k]))
  {
    ScanTiles(text, pos);
  }
}
