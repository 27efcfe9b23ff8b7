/** What the recognizer accepts and rejects: the end-of-input check, the
    top level, blocks, the lookahead on names, the `for` header, `return`,
    the flat operator tier and the parameter quirk. */
module GrammarFacts {
  import opened Tokens
  import opened Grammar

  /** The shape the lexer gives its output: one end-of-input token, the last. */
  predicate SingleFinalEof(ts: seq<Token>) {
    |ts| > 0 && ts[|ts| - 1].kind == Eof && forall k :: 0 <= k < |ts| - 1 ==> ts[k].kind != Eof
  }

  // ---------------------------------------------------------------------
  // The top level.

  /** The program is accepted exactly when its declaration list is: the
      final end-of-input check never fails, since the list only stops at the
      end of input. */
  lemma {:induction false} ProgramIsDeclarationList(ts: seq<Token>)
    ensures Program(ts).Ok? <==> FunDeclList(ts, 0).Ok?
    ensures Program(ts).Err? ==> Program(ts) == FunDeclList(ts, 0)
    ensures Program(ts).Ok? ==> Program(ts).value == FunDeclList(ts, 0).value + 1
  {
  }

  /** A block that succeeds opens with `{` and closes with `}`. */
  lemma {:induction false} BlockIsBraced(ts: seq<Token>, i: nat)
    requires i <= |ts| && Block(ts, i).Ok?
    ensures ts[i].kind == ChaveEsq && ts[Block(ts, i).value - 1].kind == ChaveDir
  {
    var k := StatementList(ts, i + 1).value;
    assert Block(ts, i) == Eat(ts, k, ChaveDir);
  }

  /** A function declaration that succeeds ends with the `}` of its body. */
  lemma {:induction false} FunDeclEndsWithBrace(ts: seq<Token>, i: nat, j: nat)
    requires i <= |ts| && FunDecl(ts, i) == Ok(j)
    ensures 0 < j <= |ts| && ts[j - 1].kind == ChaveDir
  {
    assert Eat(ts, i, Peek(ts, i)) == Ok(i + 1);
    assert Eat(ts, i + 1, Identificador) == Ok(i + 2);
    var k := ParameterList(ts, i + 2).value;
    assert FunDecl(ts, i) == Block(ts, k);
    BlockIsBraced(ts, k);
  }

  /** On lexer-shaped input the declaration list stops at the final token:
      no declaration can swallow the end of input, because each one ends
      with `}`. */
  lemma {:induction false} DeclarationsStopAtFinalEof(ts: seq<Token>, i: nat)
    requires SingleFinalEof(ts) && i < |ts|
    ensures FunDeclList(ts, i).Ok? ==> FunDeclList(ts, i).value == |ts| - 1
    decreases |ts| - i
  {
    if Peek(ts, i) != Eof && FunDecl(ts, i).Ok? {
      var j := FunDecl(ts, i).value;
      FunDeclEndsWithBrace(ts, i, j);
      if j < |ts| {
        DeclarationsStopAtFinalEof(ts, j);
      }
    }
  }

  /** On lexer-shaped input an accepted program consumes every token,
      the end of input included. */
  lemma {:induction false} AcceptedProgramConsumesAll(ts: seq<Token>)
    requires SingleFinalEof(ts) && Program(ts).Ok?
    ensures Program(ts).value == |ts|
  {
    ProgramIsDeclarationList(ts);
    DeclarationsStopAtFinalEof(ts, 0);
  }

  /** Only function declarations stand at the top level: any other token
      there is reported as a missing return type. */
  lemma {:induction false} OnlyFunctionsAtTopLevel(ts: seq<Token>, i: nat)
    requires i <= |ts| && Peek(ts, i) != Eof && !IsReturnType(Peek(ts, i))
    ensures FunDeclList(ts, i) == Err(SynErr(ReturnType, Peek(ts, i), Current(ts, i).at))
  {
  }

  // ---------------------------------------------------------------------
  // Blocks and statement lists.

  /** A block is accepted exactly when it opens with `{` and its statement
      list stops at a `}` rather than at the end of input. */
  lemma {:induction false} BlockAccepted(ts: seq<Token>, i: nat)
    requires i < |ts| && ts[i].kind == ChaveEsq
    ensures Block(ts, i).Ok? <==> StatementList(ts, i + 1).Ok? && Peek(ts, StatementList(ts, i + 1).value) == ChaveDir
  {
  }

  /** A block left open fails where the input ends, expecting `}` and
      finding the end of input. */
  lemma {:induction false} UnclosedBlockFails(ts: seq<Token>, i: nat)
    requires i < |ts| && ts[i].kind == ChaveEsq
    requires StatementList(ts, i + 1).Ok? && Peek(ts, StatementList(ts, i + 1).value) == Eof
    ensures Block(ts, i) == Err(SynErr(Expected(ChaveDir), Eof, Current(ts, StatementList(ts, i + 1).value).at))
  {
  }

  /** One `;` may follow a statement; a second one is not a statement. */
  lemma {:induction false} DoubleSemicolonFails(ts: seq<Token>, i: nat)
    requires i <= |ts| && Peek(ts, i) != ChaveDir && Peek(ts, i) != Eof && Statement(ts, i).Ok?
    requires Peek(ts, Statement(ts, i).value) == PontoVirgula && Peek(ts, Statement(ts, i).value + 1) == PontoVirgula
    ensures StatementList(ts, i) == Err(SynErr(BadStatement, PontoVirgula, Current(ts, Statement(ts, i).value + 1).at))
  {
    var j := Statement(ts, i).value;
    assert StatementList(ts, i) == StatementList(ts, j + 1);
  }

  /** One pass of the statement loop: after a statement, one `;` is taken if
      it is there, and the loop goes on either way. */
  lemma {:induction false} StatementListStep(ts: seq<Token>, i: nat, j: nat)
    requires i <= |ts| && Peek(ts, i) != ChaveDir && Peek(ts, i) != Eof && Statement(ts, i) == Ok(j)
    ensures StatementList(ts, i) == (if Peek(ts, j) == PontoVirgula then StatementList(ts, j + 1) else StatementList(ts, j))
  {
  }

  // ---------------------------------------------------------------------
  // Lookahead on names.

  /** A name directly followed by `(` is a call, and a call statement is
      recognised exactly as the same call inside an expression. */
  lemma {:induction false} CallStatementIsCallFactor(ts: seq<Token>, i: nat)
    requires i < |ts| && ts[i].kind == Identificador && CallAhead(ts, i)
    ensures Statement(ts, i) == Factor(ts, i) == CallStatement(ts, i)
  {
  }

  /** A name not followed by `(` starts an assignment, so it must be
      followed by `=`: the error points at the token after the name. */
  lemma {:induction false} NameWithoutAssignmentFails(ts: seq<Token>, i: nat)
    requires i < |ts| && ts[i].kind == Identificador && !CallAhead(ts, i) && Peek(ts, i + 1) != Atribuir
    ensures Statement(ts, i) == Err(SynErr(Expected(Atribuir), Peek(ts, i + 1), Current(ts, i + 1).at))
  {
  }

  /** A name not followed by `(` is exactly an assignment, as a statement. */
  lemma {:induction false} NameStartsAssignment(ts: seq<Token>, i: nat)
    requires i < |ts| && ts[i].kind == Identificador && !CallAhead(ts, i)
    ensures Statement(ts, i) == Assignment(ts, i)
  {
  }

  // ---------------------------------------------------------------------
  // `for` and `return`.

  /** The initialiser of a `for` may not start with `void`: the header then
      fails expecting the first `;` and finding `void`. */
  lemma {:induction false} ForRejectsVoidInit(ts: seq<Token>, i: nat)
    requires i + 2 < |ts| && ts[i].kind == For && ts[i + 1].kind == ParenteseEsq && ts[i + 2].kind == Void
    ensures ForStatement(ts, i) == Err(SynErr(Expected(PontoVirgula), Void, ts[i + 2].at))
  {
  }

  /** The initialiser of a `for` may be left out. */
  lemma {:induction false} ForInitOptional(ts: seq<Token>, i: nat)
    requires i + 2 < |ts| && ts[i].kind == For && ts[i + 1].kind == ParenteseEsq && ts[i + 2].kind == PontoVirgula
    ensures ForStatement(ts, i) == ForAfterInit(ts, i + 2)
  {
  }

  /** The initialiser of a `for` is a declaration when a type keyword other
      than `void` comes first and an assignment when a name does. */
  lemma {:induction false} ForInitChoice(ts: seq<Token>, i: nat)
    requires i <= |ts|
    ensures IsType(Peek(ts, i)) ==> ForInit(ts, i) == Declaration(ts, i)
    ensures Peek(ts, i) == Identificador ==> ForInit(ts, i) == Assignment(ts, i)
  {
  }

  /** The rest of a `for` header is mandatory: an accepted one is `;`, a
      condition, `;`, an update assignment and `)`, followed by the block. */
  lemma {:induction false} ForAfterInitNeedsHeader(ts: seq<Token>, i: nat)
    requires i <= |ts| && ForAfterInit(ts, i).Ok?
    ensures i < |ts| && ts[i].kind == PontoVirgula && Expression(ts, i + 1).Ok?
    ensures var c := Expression(ts, i + 1).value;
      c < |ts| && ts[c].kind == PontoVirgula && Assignment(ts, c + 1).Ok?
    ensures var c := Expression(ts, i + 1).value;
      var a := Assignment(ts, c + 1).value;
      a < |ts| && ts[a].kind == ParenteseDir && Block(ts, a + 1) == ForAfterInit(ts, i)
  {
    var j4 := Eat(ts, i, PontoVirgula).value;
    var c := Expression(ts, j4).value;
    var j6 := Eat(ts, c, PontoVirgula).value;
    var a := Assignment(ts, j6).value;
  }

  /** `return` followed by anything other than `;` parses an expression. */
  lemma {:induction false} ReturnWithValue(ts: seq<Token>, i: nat)
    requires i < |ts| && ts[i].kind == Return && Peek(ts, i + 1) != PontoVirgula
    ensures ReturnStatement(ts, i) == Expression(ts, i + 1)
  {
  }

  /** `return }` is neither a bare `return` nor followed by an expression:
      it fails where a factor was expected, finding the `}`. */
  lemma {:induction false} ReturnBeforeBraceFails(ts: seq<Token>, i: nat)
    requires i + 1 < |ts| && ts[i].kind == Return && ts[i + 1].kind == ChaveDir
    ensures ReturnStatement(ts, i) == Err(SynErr(BadFactor, ChaveDir, ts[i + 1].at))
  {
    assert Factor(ts, i + 1) == Err(SynErr(BadFactor, ChaveDir, ts[i + 1].at));
    assert Term(ts, i + 1) == Factor(ts, i + 1);
    assert Expression(ts, i + 1) == Term(ts, i + 1);
  }

  // ---------------------------------------------------------------------
  // Expressions.

  /** A run of `operator number` pairs, the operators taken from the
      additive and relational tier. */
  ghost predicate OperatorChain(s: seq<Token>)
    decreases |s|
  {
    |s| == 0 || (|s| >= 2 && IsAddOp(s[0].kind) && s[1].kind == Numero && OperatorChain(s[2..]))
  }

  lemma {:induction false} ExprRestOverChain(ts: seq<Token>, i: nat, m: nat)
    requires i + m <= |ts| && OperatorChain(ts[i..i + m])
    requires !IsAddOp(Peek(ts, i + m)) && !IsMulOp(Peek(ts, i + m))
    ensures ExprRest(ts, i) == Ok(i + m)
    decreases m
  {
    if m > 0 {
      assert ts[i..i + m][2..] == ts[i + 2..i + m];
      assert ts[i..i + m][0] == ts[i] && ts[i..i + m][1] == ts[i + 1];
      if m > 2 {
        assert ts[i + 2..i + m][0] == ts[i + 2];
      }
      assert Term(ts, i + 1) == Ok(i + 2);
      ExprRestOverChain(ts, i + 2, m - 2);
    }
  }

  /** Additive and relational operators share one tier and may be chained
      freely: `1 < 2 + 3 == 4` is a single expression, consumed whole. */
  lemma {:induction false} FlatOperatorTier(ts: seq<Token>, i: nat, m: nat)
    requires i + 1 + m <= |ts| && ts[i].kind == Numero && OperatorChain(ts[i + 1..i + 1 + m])
    requires !IsAddOp(Peek(ts, i + 1 + m)) && !IsMulOp(Peek(ts, i + 1 + m))
    ensures Expression(ts, i) == Ok(i + 1 + m)
  {
    if m > 0 {
      assert ts[i + 1..i + 1 + m][0] == ts[i + 1];
    }
    assert Term(ts, i) == Ok(i + 1);
    ExprRestOverChain(ts, i + 1, m);
  }

  // ---------------------------------------------------------------------
  // Parameters and the unused colon.

  /** After a comma the parameter's first token may be of any category, not
      only a type: only the name after it is checked. */
  lemma {:induction false} ParameterTakesAnyToken(ts: seq<Token>, i: nat)
    requires i + 2 < |ts| && ts[i].kind == Virgula && ts[i + 2].kind == Identificador && Peek(ts, i + 3) != Virgula
    ensures ParamRest(ts, i) == Ok(i + 3)
  {
  }

  /** No rule consumes a `:` except as a parameter's first token: it starts
      no declaration, statement or factor. */
  lemma {:induction false} ColonIsNeverExpected(ts: seq<Token>, i: nat)
    requires i < |ts| && ts[i].kind == DoisPontos
    ensures FunDeclList(ts, i) == Err(SynErr(ReturnType, DoisPontos, ts[i].at))
    ensures Statement(ts, i) == Err(SynErr(BadStatement, DoisPontos, ts[i].at))
    ensures Factor(ts, i) == Err(SynErr(BadFactor, DoisPontos, ts[i].at))
  {
  }
}
